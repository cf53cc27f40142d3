# upstream-probe core, modelled in Dafny

upstream-probe checks upstream DNS resolvers and HTTP endpoints from a network
segment (a VLAN) and writes the outcomes to InfluxDB. Two parts of it carry the
real behaviour, and this project models both and proves what they promise.

- **The probe engine** (`probes.dfy`, module `Probes`):
  - the `ProbeResult` record;
  - the exponential backoff delay;
  - the retry driver `_with_retries`;
  - the per-attempt classification for DNS and HTTP probes;
  - the fan-out over a list of targets.

  A network attempt is an oracle: `observe(j)` is what the j-th attempt saw. That is either a response carrying a protocol code or a transport failure carrying the exception text, together with the measured round-trip time. DNS succeeds exactly on RCODE 0, "no error condition" (section 4.1.1 of RFC 1035). HTTP succeeds exactly on a status below 500, the server-error class (section 15.6 of RFC 9110). The retry driver is a `method` whose loop follows the source. It records the sleeps it completes in a ghost log and is proved against the specification functions `CallsMade`, `RetryResult`, `Schedule` and `RetryRun`. A sleep can raise (see below), so the driver, the probes and the fan-out return a `Run`: either `Returned(value)` or `Raised(error)`. Lemmas then state the all-fail, first-success and success-iff properties, and say exactly when a sleep raises.
- **The InfluxDB line-protocol encoder** (`influx.dfy`, module `Influx`):
  - tag-value escaping;
  - typed field formatting;
  - `measurement[,tags] fields` assembly;
  - one line per probe result.

  Python dicts are association lists in insertion order, and dict assignment is `Put`. The `results_to_lines` loop and its dict updates are methods.
- **Python's `str(int)` and `sep.join`** (`text.dfy`, module `Text`), which the encoder uses.
- **`Option`** (`wrappers.dfy`) stands for Python's `X | None`.

Modelling decisions:
- **Negative retry counts.** `config.py` does not reject `retries < 0`, so the model handles it as the code does: the loop does not run and one fresh call's result is returned, whether or not it succeeded.
- **Sleep errors.** `config.py` does not check the sign or size of the backoff settings, and no caller catches what `_sleep_backoff` raises. So the model includes its three failures, and each aborts the probe and the whole fan-out:
  - `2 ** (attempt - 1)` does not convert to float once the exponent reaches 1024 (OverflowError);
  - `time.sleep` refuses a delay outside the signed 64-bit nanosecond range (OverflowError), as CPython converts it;
  - `time.sleep` refuses a negative delay (ValueError).
- **Protocol codes.** The result keeps the source's two optional code fields, `http_status` and `dns_rcode`. It does not use a tagged variant. Mutual exclusivity is the proved invariant `WellFormed`.

## Model

| member | source | states |
|---|---|---|
| Probes.ClassifyDns | src/upstream_probe/probes.py:62-78 | a DNS response gives target = resolver, check type dns, success exactly when the rcode is NOERROR (0), the rcode recorded and no error; a transport failure gives failure, no rcode and the exception text as error; every result is well-formed (no HTTP status, error exactly when no code) |
| Probes.ClassifyHttp | src/upstream_probe/probes.py:98-114 | an HTTP response gives target = url, check type http, success exactly when the status is below 500, the status recorded and no error; a transport failure gives failure, no status and the exception text; every result is well-formed |
| Probes.Backoff | src/upstream_probe/probes.py:24-25 | the delay after failed attempt N is the smaller of `base * 2^(N-1)` and the maximum: it is at most both and equal to one of them |
| Probes.Schedule | src/upstream_probe/probes.py:43-44 | the delays of the first n sleeps, one per sleep, in order |
| Probes.ScheduleAt | src/upstream_probe/probes.py:43-44 | the i-th requested sleep is the backoff for attempt i+1 and never exceeds the maximum |
| Probes.ScheduleGrowth | src/upstream_probe/probes.py:24-25 | with a non-negative base, successive delays never shrink, and a delay below the cap is twice the previous one |
| Probes.NegativeBackoffFaults | src/upstream_probe/probes.py:24-26 | with a negative base or cap every delay is negative, so `SleepFault` (what `_sleep_backoff` raises) is never empty: ValueError unless an OverflowError comes first |
| Probes.NonNegativeBackoffNoValueError | src/upstream_probe/probes.py:24-26 | with a non-negative base and cap every delay is non-negative and no sleep raises ValueError |
| Probes.SaneBackoffNoFault | src/upstream_probe/probes.py:24-26 | with a non-negative base, a non-negative cap below 2^63 ns, and an exponent below 1024, the sleep raises nothing |
| Probes.CallsMade | src/upstream_probe/probes.py:35-45 | when no sleep raises, the attempt function is called at least once, exactly once when `retries < 0`, and at most `retries + 1` times otherwise |
| Probes.CallsMadeCharacterized | src/upstream_probe/probes.py:37-44 | every call before the last one failed, and the last one either succeeded or used up the `retries + 1` budget; `RetryResult` is that last call's result |
| Probes.RetryAllFail | src/upstream_probe/probes.py:35-45 | an attempt that always fails is called exactly `retries + 1` times and the last call's result is returned |
| Probes.RetryFirstSuccess | src/upstream_probe/probes.py:38-41 | if the first success is attempt k within the budget, exactly k calls are made and that successful result is returned unchanged |
| Probes.RetrySucceedsIff | src/upstream_probe/probes.py:39-45 | the returned result is a success exactly when some attempt within the budget succeeded |
| Probes.FirstFault | src/upstream_probe/probes.py:42-44 | the first of the sleeps 1 .. n that raises, or n + 1: no sleep before it raises, and it raises when it is within range |
| Probes.FirstFaultIs | src/upstream_probe/probes.py:42-44 | any position with no raising sleep before it and a raising sleep at it (or just past the range) is the first fault |
| Probes.AttemptsMade | src/upstream_probe/probes.py:35-44 | the calls actually made are at least one and at most the `CallsMade` the budget allows, cut short at the first raising sleep |
| Probes.RetryRaisesIff | src/upstream_probe/probes.py:35-45 | `RetryRun` (what `_with_retries` does) raises exactly when one of the sleeps it would request raises; then it raises the first such sleep's exception after every earlier sleep completed; otherwise it returns `RetryResult` after all `CallsMade` calls |
| Probes.RetryReturnsWithSaneBackoff | src/upstream_probe/probes.py:24-45 | with a non-negative base, a non-negative cap below 2^63 ns and at most 1024 retries, the driver never raises and returns `RetryResult` |
| Probes.RetryNegativeBackoffRaises | src/upstream_probe/probes.py:24-45 | with a negative base or cap, a failed first attempt with a retry left makes the first sleep raise, after one call; the error is ValueError unless the delay is below -2^63 ns |
| Probes.RetryLongFailureOverflows | src/upstream_probe/probes.py:24-45 | with a non-negative base and cap and more than 1024 retries, 1025 straight failures end in OverflowError, at the latest at the sleep whose factor is 2^1024 |
| Probes.WithRetries | src/upstream_probe/probes.py:24-45 | the loop returns or raises as `RetryRun` says and makes `AttemptsMade` calls. It completes exactly one sleep after each failed attempt but the last, with delays `Schedule(calls - 1)`: none after a success, the final attempt or a raising sleep |
| Probes.RunDnsProbe | src/upstream_probe/probes.py:48-80 | a DNS probe is `DnsRun`, the retry driver over DNS-classified attempts. A returned result targets the resolver, has check type dns and is well-formed. Its completed sleeps follow the backoff schedule |
| Probes.RunHttpProbe | src/upstream_probe/probes.py:83-116 | an HTTP probe is `HttpRun`, the retry driver over HTTP-classified attempts. A returned result targets the url, has check type http and is well-formed. Its completed sleeps follow the backoff schedule |
| Probes.DnsProbeSucceedsIff | src/upstream_probe/probes.py:56-80 | a DNS probe that returns reports success exactly when some attempt within the budget got RCODE NOERROR |
| Probes.HttpProbeSucceedsIff | src/upstream_probe/probes.py:92-116 | an HTTP probe that returns reports success exactly when some attempt within the budget got a status below 500 |
| Probes.RunAllDns | src/upstream_probe/probes.py:119-130 | the fan-out returns exactly when no resolver's probe raises. It then holds one result per resolver, in input order: the i-th is the DNS probe of the i-th resolver, targets it, has check type dns and is well-formed. Otherwise it raises the exception of the first probe that raised, and every earlier probe returned |
| Probes.RunAllHttp | src/upstream_probe/probes.py:133-145 | the fan-out returns exactly when no target's probe raises. It then holds one result per target, in input order: the i-th is the HTTP probe of the i-th target, targets it, has check type http and is well-formed. Otherwise it raises the exception of the first probe that raised, and every earlier probe returned |
| Text.IntToDecimal | src/upstream_probe/influx.py:33 | `str(n)` is never empty and starts with a minus sign exactly when n is negative |
| Text.DecimalRoundTrip | src/upstream_probe/influx.py:33 | the decimal text of an int, with a minus sign when negative, parses back to that int |
| Text.DecimalInjective | src/upstream_probe/influx.py:33 | distinct ints have distinct decimal texts |
| Text.JoinSnoc | src/upstream_probe/influx.py:42-43 | `Join` (`sep.join`): joining one more item adds the separator and that item at the end |
| Influx.Find | src/upstream_probe/influx.py:60-63 | the position found for a key holds that key, and no earlier entry does; when the key is absent the position is the dict's length |
| Influx.Put | src/upstream_probe/influx.py:60-63 | dict assignment: a new key goes last, an existing key keeps its place and takes the new value |
| Influx.PutThenFind | src/upstream_probe/influx.py:60-63 | after `d[k] = v`, looking up k finds v, and every other key present before still finds its old entry at the same place |
| Influx.ReplaceCharAbsent | src/upstream_probe/influx.py:22-25 | replacing a character that does not occur leaves the string unchanged |
| Influx.EscapeTagIsSinglePass | src/upstream_probe/influx.py:20-26 | `EscapeTag`, the four chained replacements, backslash first, equal putting one backslash before each backslash, space, comma and equals sign in one pass, so no escape is escaped again |
| Influx.EscapeTagLength | src/upstream_probe/influx.py:20-26 | the escaped length is the input length plus the number of special characters |
| Influx.EscapeTagPlain | src/upstream_probe/influx.py:20-26 | a value without special characters is written unchanged |
| Influx.ReadEscapedTag | src/upstream_probe/influx.py:20-26 | a line-protocol reader, dropping each escaping backslash and stopping at an unescaped comma or space, reads the escaped value back exactly and leaves what follows it |
| Influx.EscapeTagInjective | src/upstream_probe/influx.py:20-26 | distinct tag values are escaped to distinct texts |
| Influx.FormatFieldReadable | src/upstream_probe/influx.py:29-34 | `FormatField`: a bool is written `true` or `false`, `true` exactly when it is true; an int is written as decimal digits ending in `i` that parse back to the int |
| Influx.TagSetEmptyIff | src/upstream_probe/influx.py:42-44 | the tag set `TagSet` is empty exactly when there are no tags |
| Influx.BuildLineProtocol | src/upstream_probe/influx.py:37-46 | with no tags the line is `measurement fields`; with tags it is `measurement,tags fields` |
| Influx.FieldSetSnoc | src/upstream_probe/influx.py:43 | a field inserted last appears last in the field set `FieldSet`, after a comma |
| Influx.TagSetOfThree | src/upstream_probe/influx.py:42 | three tags are written `k=escaped(v)` in insertion order, comma-separated |
| Influx.FieldSetOfThree | src/upstream_probe/influx.py:43 | three fields are written `k=formatted(v)` in insertion order, comma-separated |
| Influx.DnsStyleLine | src/upstream_probe/influx.py:37-46 | for any measurement, plain `vlan` and `target` values and any rtt, rcode and success, the DNS-shaped line is `m,vlan=…,target=…,check_type=dns rtt_ms=…,dns_rcode=…i,success=…` |
| Influx.UnitTestLine | tests/test_influx.py:4-15 | the unit test's call yields exactly `upstream_probe,vlan=vlan-10,target=1.1.1.1,check_type=dns rtt_ms=12.345,dns_rcode=0i,success=true` when `.3f` renders 12.345 as `12.345` |
| Influx.EmptyTagsLine | src/upstream_probe/influx.py:44-46 | an empty tag dict gives `m success=true`, with no comma after the measurement |
| Influx.ResultFieldsShape | src/upstream_probe/influx.py:56-63 | a well-formed result's fields (`ResultFields`) are `rtt_ms`, `success`, then a third field exactly when a code was received: `dns_rcode` for DNS, `http_status` for HTTP |
| Influx.InsertFields | src/upstream_probe/influx.py:56-63 | building the dict by two entries and conditional assignments yields `rtt_ms`, `success`, `http_status` if present, `dns_rcode` if present, in that order |
| Influx.CheckTypeNamePlain | src/upstream_probe/influx.py:68 | the check type names `dns` and `http` are unchanged by escaping |
| Influx.ResultLineText | src/upstream_probe/influx.py:56-70 | a result's line (`ResultLine`, from the tags `ResultTags` and fields `ResultFields`) is the measurement, then the escaped `vlan`, escaped `target` and `check_type` tags in that order, a space, and the result's fields |
| Influx.ResultToLine | src/upstream_probe/influx.py:56-70 | one pass of the loop body writes the result's line |
| Influx.ResultsToLines | src/upstream_probe/influx.py:49-71 | exactly one line per result, in input order, the i-th being the i-th result's line |

## Left out

- Network I/O: the DNS query (`dns.message.make_query`, `dns.query.udp`) and the HTTP request (`httpx.Client`) are not modelled. Each attempt's outcome comes from the `observe` oracle.
- Query parameters: the query name, the timeout, the HTTP method and the user agent only feed the network call, so they are not modelled.
- Wall-clock timing: `time.perf_counter` and the rtt arithmetic are not modelled. The rtt is a non-negative real taken from the oracle.
- Sleeping: `time.sleep` is not performed. The completed sleeps are the ghost `sleeps` log, computed on exact reals with no floating-point rounding. So a float product that overflows to infinity is an exact real above the cap. The cap then wins the `min` either way.
- Sleep limits: the 2^63 ns bound of `time.sleep` is compared exactly. Rounding to whole nanoseconds at that boundary is not modelled, and neither are NaN and infinite settings.
- Float rendering: `f"{value:.3f}"` is the `render3` parameter.
- Influx.FormatFieldReadable: says nothing about the text of a float beyond being `render3` of it, because `.3f` formatting is not modelled.
- Exception text: `str(exc)` is some string carried by the transport failure.
- Exceptions outside `Exception`, such as `KeyboardInterrupt`, are not modelled. The attempt closures catch everything else.
- Conversions: `float(...)`, `bool(...)` and `int(...)` in `results_to_lines` are identities on values that already have those types.
- Iterables: they are sequences.
- Fan-out form: `run_all_dns` and `run_all_http` are list comprehensions over the probe. Each probe runs the retry loop, so the fan-out is a method that calls the probe method in order.
- Dict keys: a `Dict` may hold a key twice, which a Python dict cannot. The dicts the source builds have distinct keys, and `Put` keeps keys distinct.
- Upload: `write_lines` and `InfluxWriteRequest` are the HTTP POST to the InfluxDB write API, and are not part of this model.
- Configuration, CLI and logging: `config.py` (YAML loading), `cli.py` (argument parsing, environment, exit codes) and `logging.py` (log setup) are not part of this model.
