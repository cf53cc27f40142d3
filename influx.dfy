/**
 * The InfluxDB line-protocol encoder: tag-value escaping, typed field
 * formatting, `measurement[,tags] fields` assembly, and one line per probe
 * result.
 *
 * Python dicts are association lists in insertion order. Rendering a float
 * with `.3f` is not modelled; it is the parameter `render3`.
 */
module Influx {
  import opened Wrappers
  import opened Text
  import opened Probes

  /** An insertion-ordered Python dict with string keys. */
  type Dict<V> = seq<(string, V)>

  /** The position of the first entry with key `k`, or `|d|` when there is none. */
  function Find<V>(d: Dict<V>, k: string): (j: nat)
    ensures j <= |d|
    ensures forall i :: 0 <= i < j ==> d[i].0 != k
    ensures j < |d| ==> d[j].0 == k
  {
    if d == [] then 0 else if d[0].0 == k then 0 else 1 + Find(d[1..], k)
  }

  /** `d[k] = v`: an existing key keeps its place and takes the new value; a new key goes last. */
  function Put<V>(d: Dict<V>, k: string, v: V): (r: Dict<V>)
    ensures Find(d, k) == |d| ==> r == d + [(k, v)]
    ensures Find(d, k) < |d| ==> r == d[Find(d, k) := (k, v)]
  {
    if d == [] then [(k, v)]
    else if d[0].0 == k then [(k, v)] + d[1..]
    else [d[0]] + Put(d[1..], k, v)
  }

  /** Reading `k` back after `d[k] = v` finds `v`, and every other key keeps its first entry. */
  lemma PutThenFind<V>(d: Dict<V>, k: string, v: V, other: string)
    requires other != k
    ensures Find(Put(d, k, v), k) < |Put(d, k, v)| && Put(d, k, v)[Find(Put(d, k, v), k)] == (k, v)
    ensures Find(d, other) < |d| ==>
              Find(Put(d, k, v), other) == Find(d, other) && Put(d, k, v)[Find(d, other)] == d[Find(d, other)]
  {
    FindFirst(Put(d, k, v), k, Find(d, k));
    if Find(d, other) < |d| {
      FindFirst(Put(d, k, v), other, Find(d, other));
    }
  }

  /** An entry with key `k` at `j`, none before it: `Find` answers `j`. */
  lemma {:induction false} FindFirst<V>(d: Dict<V>, k: string, j: nat)
    requires j < |d| && d[j].0 == k
    requires forall i :: 0 <= i < j ==> d[i].0 != k
    ensures Find(d, k) == j
  {
    if j > 0 {
      FindFirst(d[1..], k, j - 1);
    }
  }

  // ---------------------------------------------------------------------------
  // Tag escaping (`_escape_tag`)
  // ---------------------------------------------------------------------------

  /** The characters a tag value escapes: backslash, space, comma, equals sign. */
  predicate IsSpecial(c: char) {
    c == '\\' || c == ' ' || c == ',' || c == '='
  }

  /** Python's `s.replace(pat, rep)` for a one-character pattern. */
  function ReplaceChar(s: string, pat: char, rep: string): string {
    if s == [] then [] else (if s[0] == pat then rep else [s[0]]) + ReplaceChar(s[1..], pat, rep)
  }

  /** `_escape_tag`: four replacements, backslash first. */
  function EscapeTag(value: string): string {
    ReplaceChar(ReplaceChar(ReplaceChar(ReplaceChar(value, '\\', "\\\\"), ' ', "\\ "), ',', "\\,"), '=', "\\=")
  }

  /** One character of the intended escaping: a backslash before a special character. */
  function EscapeChar(c: char): string {
    if IsSpecial(c) then ['\\', c] else [c]
  }

  /** The intended escaping, character by character in one pass. */
  function EscapeEach(s: string): string {
    if s == [] then [] else EscapeChar(s[0]) + EscapeEach(s[1..])
  }

  function CountSpecial(s: string): nat {
    if s == [] then 0 else (if IsSpecial(s[0]) then 1 else 0) + CountSpecial(s[1..])
  }

  /** Replacing a character that does not occur changes nothing. */
  lemma {:induction false} ReplaceCharAbsent(s: string, pat: char, rep: string)
    requires pat !in s
    ensures ReplaceChar(s, pat, rep) == s
  {
    if s != [] {
      assert s[0] != pat && pat !in s[1..];
      ReplaceCharAbsent(s[1..], pat, rep);
      assert s == [s[0]] + s[1..];
    }
  }

  lemma {:induction false} ReplaceCharAppend(a: string, b: string, pat: char, rep: string)
    ensures ReplaceChar(a + b, pat, rep) == ReplaceChar(a, pat, rep) + ReplaceChar(b, pat, rep)
  {
    if a != [] {
      assert (a + b)[1..] == a[1..] + b;
      ReplaceCharAppend(a[1..], b, pat, rep);
    } else {
      assert a + b == b;
    }
  }

  /** Escaping works piece by piece. */
  lemma EscapeTagAppend(a: string, b: string)
    ensures EscapeTag(a + b) == EscapeTag(a) + EscapeTag(b)
  {
    var r1a, r1b := ReplaceChar(a, '\\', "\\\\"), ReplaceChar(b, '\\', "\\\\");
    ReplaceCharAppend(a, b, '\\', "\\\\");
    var r2a, r2b := ReplaceChar(r1a, ' ', "\\ "), ReplaceChar(r1b, ' ', "\\ ");
    ReplaceCharAppend(r1a, r1b, ' ', "\\ ");
    var r3a, r3b := ReplaceChar(r2a, ',', "\\,"), ReplaceChar(r2b, ',', "\\,");
    ReplaceCharAppend(r2a, r2b, ',', "\\,");
    ReplaceCharAppend(r3a, r3b, '=', "\\=");
  }

  /** Replacing within a one-character string. */
  lemma ReplaceCharSingle(c: char, pat: char, rep: string)
    ensures ReplaceChar([c], pat, rep) == if c == pat then rep else [c]
  {
    assert [c][1..] == [];
  }

  /** On one character the four replacements act as the single-pass escape. */
  lemma EscapeTagChar(c: char)
    ensures EscapeTag([c]) == EscapeChar(c)
  {
    var r1 := ReplaceChar([c], '\\', "\\\\");
    ReplaceCharSingle(c, '\\', "\\\\");
    var r2 := ReplaceChar(r1, ' ', "\\ ");
    var r3 := ReplaceChar(r2, ',', "\\,");
    if c == '\\' {
      ReplaceCharAbsent(r1, ' ', "\\ ");
      ReplaceCharAbsent(r2, ',', "\\,");
      ReplaceCharAbsent(r3, '=', "\\=");
    } else if c == ' ' {
      ReplaceCharSingle(c, ' ', "\\ ");
      ReplaceCharAbsent(r2, ',', "\\,");
      ReplaceCharAbsent(r3, '=', "\\=");
    } else if c == ',' {
      ReplaceCharSingle(c, ' ', "\\ ");
      ReplaceCharSingle(c, ',', "\\,");
      ReplaceCharAbsent(r3, '=', "\\=");
    } else {
      ReplaceCharSingle(c, ' ', "\\ ");
      ReplaceCharSingle(c, ',', "\\,");
      ReplaceCharSingle(c, '=', "\\=");
    }
  }

  /**
   * Because backslash is replaced first, no escape is re-escaped: the chained
   * replacements equal putting one backslash before each special character.
   */
  lemma {:induction false} EscapeTagIsSinglePass(s: string)
    ensures EscapeTag(s) == EscapeEach(s)
  {
    if s != [] {
      assert s == [s[0]] + s[1..];
      EscapeTagAppend([s[0]], s[1..]);
      EscapeTagChar(s[0]);
      EscapeTagIsSinglePass(s[1..]);
    }
  }

  /** Escaping adds exactly one character per special character. */
  lemma {:induction false} EscapeTagLength(s: string)
    ensures |EscapeTag(s)| == |s| + CountSpecial(s)
  {
    EscapeEachLength(s);
    EscapeTagIsSinglePass(s);
  }

  lemma {:induction false} EscapeEachLength(s: string)
    ensures |EscapeEach(s)| == |s| + CountSpecial(s)
  {
    if s != [] {
      EscapeEachLength(s[1..]);
    }
  }

  /** A value without special characters is written as it is. */
  lemma {:induction false} EscapeTagPlain(s: string)
    requires CountSpecial(s) == 0
    ensures EscapeTag(s) == s
  {
    EscapeTagIsSinglePass(s);
    EscapeEachPlain(s);
  }

  lemma {:induction false} EscapeEachPlain(s: string)
    requires CountSpecial(s) == 0
    ensures EscapeEach(s) == s
  {
    if s != [] {
      EscapeEachPlain(s[1..]);
    }
  }

  /**
   * How a line-protocol reader takes a tag value off the front of `s`: a
   * backslash before a special character stands for that character, and an
   * unescaped comma or space ends the value. Returns the value and the rest.
   */
  function ReadTagValue(s: string): (string, string)
    decreases |s|
  {
    if s == [] then ([], [])
    else if s[0] == '\\' && |s| >= 2 && IsSpecial(s[1]) then
      var (v, rest) := ReadTagValue(s[2..]); ([s[1]] + v, rest)
    else if s[0] == ',' || s[0] == ' ' then ([], s)
    else
      var (v, rest) := ReadTagValue(s[1..]); ([s[0]] + v, rest)
  }

  /** What may follow a tag value in a line: the next tag, the field set, or nothing. */
  predicate EndsTagValue(t: string) {
    t == [] || t[0] == ',' || t[0] == ' '
  }

  lemma {:induction false} ReadEscapeEach(v: string, t: string)
    requires EndsTagValue(t)
    ensures ReadTagValue(EscapeEach(v) + t) == (v, t)
  {
    if v != [] {
      var c := v[0];
      ReadEscapeEach(v[1..], t);
      var s := EscapeEach(v) + t;
      assert v == [c] + v[1..];
      if IsSpecial(c) {
        assert s == ['\\', c] + (EscapeEach(v[1..]) + t);
        assert s[2..] == EscapeEach(v[1..]) + t;
      } else {
        assert s == [c] + (EscapeEach(v[1..]) + t);
        assert s[1..] == EscapeEach(v[1..]) + t;
      }
    } else {
      assert EscapeEach(v) + t == t;
    }
  }

  /** A reader recovers every escaped tag value exactly, and stops where the value ends. */
  lemma ReadEscapedTag(v: string, t: string)
    requires EndsTagValue(t)
    ensures ReadTagValue(EscapeTag(v) + t) == (v, t)
  {
    EscapeTagIsSinglePass(v);
    ReadEscapeEach(v, t);
  }

  /** Escaping is injective: distinct tag values are written differently. */
  lemma EscapeTagInjective(a: string, b: string)
    requires EscapeTag(a) == EscapeTag(b)
    ensures a == b
  {
    ReadEscapedTag(a, []);
    ReadEscapedTag(b, []);
    assert EscapeTag(a) + [] == EscapeTag(a);
    assert EscapeTag(b) + [] == EscapeTag(b);
  }

  // ---------------------------------------------------------------------------
  // Field formatting (`_format_field`)
  // ---------------------------------------------------------------------------

  /** A field value; Python's bool is kept apart from int, as the source's isinstance order does. */
  datatype FieldValue = BoolField(b: bool) | IntField(i: int) | FloatField(x: real)

  /** `_format_field`: `true`/`false`, the decimal digits and an `i`, or `.3f`. */
  function FormatField(v: FieldValue, render3: real -> string): string {
    match v
    case BoolField(b) => if b then "true" else "false"
    case IntField(n) => IntToDecimal(n) + "i"
    case FloatField(x) => render3(x)
  }

  /**
   * What a reader gets back from a formatted field: a boolean is exactly
   * `true` or `false`, an integer is its decimal text with an `i` suffix that
   * parses back to the same integer.
   */
  lemma FormatFieldReadable(v: FieldValue, render3: real -> string)
    ensures v.BoolField? ==> (FormatField(v, render3) == "true" || FormatField(v, render3) == "false")
                             && (FormatField(v, render3) == "true" <==> v.b)
    ensures v.IntField? ==> var s := FormatField(v, render3);
              2 <= |s| && s[|s| - 1] == 'i' && ParseDecimal(s[..|s| - 1]) == Some(v.i)
  {
    if v.IntField? {
      DecimalRoundTrip(v.i);
      var digits := IntToDecimal(v.i);
      assert (digits + "i")[..|digits|] == digits;
    }
  }

  // ---------------------------------------------------------------------------
  // Line assembly (`build_line_protocol`)
  // ---------------------------------------------------------------------------

  function TagPair(k: string, v: string): string {
    k + "=" + EscapeTag(v)
  }

  function FieldPair(k: string, v: FieldValue, render3: real -> string): string {
    k + "=" + FormatField(v, render3)
  }

  /** The `k=escaped(v)` text of each tag, in insertion order. */
  function TagPairs(tags: Dict<string>): (items: seq<string>)
    ensures |items| == |tags|
  {
    if tags == [] then [] else [TagPair(tags[0].0, tags[0].1)] + TagPairs(tags[1..])
  }

  /** The `k=formatted(v)` text of each field, in insertion order. */
  function FieldPairs(fields: Dict<FieldValue>, render3: real -> string): (items: seq<string>)
    ensures |items| == |fields|
  {
    if fields == [] then [] else [FieldPair(fields[0].0, fields[0].1, render3)] + FieldPairs(fields[1..], render3)
  }

  /** The tag pairs, comma-separated. */
  function TagSet(tags: Dict<string>): string {
    Join(TagPairs(tags), ",")
  }

  /** The field pairs, comma-separated. */
  function FieldSet(fields: Dict<FieldValue>, render3: real -> string): string {
    Join(FieldPairs(fields, render3), ",")
  }

  /** The tag set is empty exactly when there are no tags, since every pair holds an `=`. */
  lemma TagSetEmptyIff(tags: Dict<string>)
    ensures TagSet(tags) == "" <==> tags == []
  {
    if tags != [] {
      var first := TagPair(tags[0].0, tags[0].1);
      assert first[|tags[0].0|] == '=';
      JoinStartsWith(TagPairs(tags), ",");
    }
  }

  /** `build_line_protocol`: the tag segment is present exactly when there are tags. */
  function BuildLineProtocol(measurement: string, tags: Dict<string>, fields: Dict<FieldValue>,
                             render3: real -> string): (line: string)
    ensures tags == [] ==> line == measurement + " " + FieldSet(fields, render3)
    ensures tags != [] ==> line == measurement + "," + TagSet(tags) + " " + FieldSet(fields, render3)
  {
    TagSetEmptyIff(tags);
    var tagSet := TagSet(tags);
    var fieldSet := FieldSet(fields, render3);
    if tagSet != "" then measurement + "," + tagSet + " " + fieldSet
    else measurement + " " + fieldSet
  }

  /** A field added last contributes the last pair. */
  lemma {:induction false} FieldPairsSnoc(fields: Dict<FieldValue>, k: string, v: FieldValue, render3: real -> string)
    ensures FieldPairs(fields + [(k, v)], render3) == FieldPairs(fields, render3) + [FieldPair(k, v, render3)]
  {
    if fields == [] {
      assert fields + [(k, v)] == [(k, v)];
    } else {
      assert (fields + [(k, v)])[1..] == fields[1..] + [(k, v)];
      FieldPairsSnoc(fields[1..], k, v, render3);
    }
  }

  /** Adding a field adds a comma and its `key=value` at the end of the field set. */
  lemma FieldSetSnoc(fields: Dict<FieldValue>, k: string, v: FieldValue, render3: real -> string)
    requires fields != []
    ensures FieldSet(fields + [(k, v)], render3) == FieldSet(fields, render3) + "," + FieldPair(k, v, render3)
  {
    FieldPairsSnoc(fields, k, v, render3);
    JoinSnoc(FieldPairs(fields, render3), FieldPair(k, v, render3), ",");
  }

  /** A tag set is its first pair, then a comma and the set of the rest when there is a rest. */
  lemma TagSetCons(k: string, v: string, rest: Dict<string>)
    ensures rest == [] ==> TagSet([(k, v)] + rest) == TagPair(k, v)
    ensures rest != [] ==> TagSet([(k, v)] + rest) == TagPair(k, v) + "," + TagSet(rest)
  {
    assert ([(k, v)] + rest)[1..] == rest;
    assert TagPairs([(k, v)] + rest) == [TagPair(k, v)] + TagPairs(rest);
    if rest != [] {
      JoinCons(TagPair(k, v), TagPairs(rest), ",");
    }
  }

  /** The tag set of three tags, written out. */
  lemma TagSetOfThree(k1: string, v1: string, k2: string, v2: string, k3: string, v3: string)
    ensures TagSet([(k1, v1), (k2, v2), (k3, v3)])
         == TagPair(k1, v1) + "," + (TagPair(k2, v2) + "," + TagPair(k3, v3))
  {
    var t3 := [(k3, v3)];
    var t23 := [(k2, v2)] + t3;
    TagSetCons(k3, v3, []);
    assert t3 == [(k3, v3)] + [];
    TagSetCons(k2, v2, t3);
    TagSetCons(k1, v1, t23);
    assert [(k1, v1), (k2, v2), (k3, v3)] == [(k1, v1)] + t23;
  }

  /** The unit test's tags: `vlan`, `target` with values that need no escaping, then `check_type=dns`. */
  lemma PlainDnsTagSet(vlan: string, target: string)
    requires CountSpecial(vlan) == 0 && CountSpecial(target) == 0
    ensures TagSet([("vlan", vlan), ("target", target), ("check_type", "dns")])
         == ("vlan" + "=" + vlan) + "," + (("target" + "=" + target) + "," + ("check_type" + "=" + "dns"))
  {
    EscapeTagPlain(vlan);
    EscapeTagPlain(target);
    assert CountSpecial("dns") == 0;
    EscapeTagPlain("dns");
    TagSetOfThree("vlan", vlan, "target", target, "check_type", "dns");
  }

  /** A field set is its first pair, then a comma and the set of the rest when there is a rest. */
  lemma FieldSetCons(k: string, x: FieldValue, rest: Dict<FieldValue>, render3: real -> string)
    ensures rest == [] ==> FieldSet([(k, x)] + rest, render3) == FieldPair(k, x, render3)
    ensures rest != [] ==> FieldSet([(k, x)] + rest, render3) == FieldPair(k, x, render3) + "," + FieldSet(rest, render3)
  {
    assert ([(k, x)] + rest)[1..] == rest;
    assert FieldPairs([(k, x)] + rest, render3) == [FieldPair(k, x, render3)] + FieldPairs(rest, render3);
    if rest != [] {
      JoinCons(FieldPair(k, x, render3), FieldPairs(rest, render3), ",");
    }
  }

  /** The field set of three fields, written out. */
  lemma FieldSetOfThree(k1: string, x1: FieldValue, k2: string, x2: FieldValue, k3: string, x3: FieldValue,
                        render3: real -> string)
    ensures FieldSet([(k1, x1), (k2, x2), (k3, x3)], render3)
         == FieldPair(k1, x1, render3) + "," + (FieldPair(k2, x2, render3) + "," + FieldPair(k3, x3, render3))
  {
    var f3 := [(k3, x3)];
    var f23 := [(k2, x2)] + f3;
    FieldSetCons(k3, x3, [], render3);
    assert f3 == [(k3, x3)] + [];
    FieldSetCons(k2, x2, f3, render3);
    FieldSetCons(k1, x1, f23, render3);
    assert [(k1, x1), (k2, x2), (k3, x3)] == [(k1, x1)] + f23;
  }

  /** The unit test's fields: a float, an int and a bool, in that order. */
  lemma DnsStyleFieldSet(rtt: real, rcode: int, ok: bool, render3: real -> string)
    ensures FieldSet([("rtt_ms", FloatField(rtt)), ("dns_rcode", IntField(rcode)), ("success", BoolField(ok))], render3)
         == ("rtt_ms" + "=" + render3(rtt))
            + "," + (("dns_rcode" + "=" + (IntToDecimal(rcode) + "i"))
                     + "," + ("success" + "=" + (if ok then "true" else "false")))
  {
    FieldSetOfThree("rtt_ms", FloatField(rtt), "dns_rcode", IntField(rcode), "success", BoolField(ok), render3);
  }

  // The unit-test lemmas below state each text first as the concatenation of its
  // pieces, in the order the definitions unfold, and merge the literal pieces in
  // separate small lemmas: proving a whole line in one step is too costly for
  // the verifier.

  /** The tag text of the unit test's shape, with its literal pieces merged. */
  lemma FlattenDnsTags(vlan: string, target: string)
    ensures ("vlan" + "=" + vlan) + "," + (("target" + "=" + target) + "," + ("check_type" + "=" + "dns"))
         == "vlan=" + vlan + ",target=" + target + ",check_type=dns"
  {
  }

  /** The field text of the unit test's shape, with its literal pieces merged. */
  lemma FlattenDnsFields(rtt: string, rcode: string, ok: string)
    ensures ("rtt_ms" + "=" + rtt) + "," + (("dns_rcode" + "=" + (rcode + "i")) + "," + ("success" + "=" + ok))
         == "rtt_ms=" + rtt + ",dns_rcode=" + rcode + "i" + ",success=" + ok
  {
  }

  /** The unit test's line shape, for any measurement, plain tag values and field values. */
  lemma DnsStyleLine(measurement: string, vlan: string, target: string, rtt: real, rcode: int, ok: bool,
                     render3: real -> string)
    requires CountSpecial(vlan) == 0 && CountSpecial(target) == 0
    ensures BuildLineProtocol(
              measurement,
              [("vlan", vlan), ("target", target), ("check_type", "dns")],
              [("rtt_ms", FloatField(rtt)), ("dns_rcode", IntField(rcode)), ("success", BoolField(ok))],
              render3)
         == measurement + "," + ("vlan=" + vlan + ",target=" + target + ",check_type=dns")
            + " " + ("rtt_ms=" + render3(rtt) + ",dns_rcode=" + IntToDecimal(rcode) + "i"
                     + ",success=" + (if ok then "true" else "false"))
  {
    PlainDnsTagSet(vlan, target);
    DnsStyleFieldSet(rtt, rcode, ok, render3);
    FlattenDnsTags(vlan, target);
    FlattenDnsFields(render3(rtt), IntToDecimal(rcode), if ok then "true" else "false");
  }

  /** The unit test's tag and field texts, with its literal pieces merged. */
  lemma UnitTestTagText()
    ensures "vlan=" + "vlan-10" + ",target=" + "1.1.1.1" + ",check_type=dns"
         == "vlan=vlan-10,target=1.1.1.1,check_type=dns"
  {
  }

  lemma UnitTestFieldText()
    ensures "rtt_ms=" + "12.345" + ",dns_rcode=" + "0" + "i" + ",success=" + "true"
         == "rtt_ms=12.345,dns_rcode=0i,success=true"
  {
  }

  /**
   * The unit test's example, with `.3f` rendering 12.345 as written. The
   * expected line is split into measurement, tags and fields to keep the proof
   * cheap; the three pieces concatenate to the test's literal.
   */
  lemma UnitTestLine(render3: real -> string)
    requires render3(12.345) == "12.345"
    ensures BuildLineProtocol(
              "upstream_probe",
              [("vlan", "vlan-10"), ("target", "1.1.1.1"), ("check_type", "dns")],
              [("rtt_ms", FloatField(12.345)), ("dns_rcode", IntField(0)), ("success", BoolField(true))],
              render3)
            == "upstream_probe" + "," + "vlan=vlan-10,target=1.1.1.1,check_type=dns"
               + " " + "rtt_ms=12.345,dns_rcode=0i,success=true"
  {
    assert IntToDecimal(0) == "0";
    DnsStyleLine("upstream_probe", "vlan-10", "1.1.1.1", 12.345, 0, true, render3);
    UnitTestTagText();
    UnitTestFieldText();
  }

  /** An empty tag dict gives `measurement fields`, with no comma. */
  lemma EmptyTagsLine(render3: real -> string)
    ensures BuildLineProtocol("m", [], [("success", BoolField(true))], render3) == "m success=true"
  {
    var fields := [("success", BoolField(true))];
    assert FieldPair("success", BoolField(true), render3) == "success=true";
    assert FieldPairs(fields, render3) == ["success=true"];
  }

  // ---------------------------------------------------------------------------
  // One line per probe result (`results_to_lines`)
  // ---------------------------------------------------------------------------

  /** The tags of a result's line, always in this order. */
  function ResultTags(vlan: string, r: ProbeResult): Dict<string> {
    [("vlan", vlan), ("target", r.target), ("check_type", r.checkType.Name())]
  }

  /** The fields of a result's line: `rtt_ms`, `success`, then each protocol code that is present. */
  function ResultFields(r: ProbeResult): Dict<FieldValue> {
    [("rtt_ms", FloatField(r.rttMs)), ("success", BoolField(r.success))]
    + (if r.httpStatus.Some? then [("http_status", IntField(r.httpStatus.value))] else [])
    + (if r.dnsRcode.Some? then [("dns_rcode", IntField(r.dnsRcode.value))] else [])
  }

  /**
   * For a well-formed result the line carries `rtt_ms` and `success`, and a
   * third field exactly when a protocol code was received: `dns_rcode` for a
   * DNS probe, `http_status` for an HTTP probe.
   */
  lemma ResultFieldsShape(r: ProbeResult)
    requires WellFormed(r)
    ensures |ResultFields(r)| == (if r.error.Some? then 2 else 3)
    ensures ResultFields(r)[0] == ("rtt_ms", FloatField(r.rttMs))
    ensures ResultFields(r)[1] == ("success", BoolField(r.success))
    ensures r.error == None && r.checkType == Dns ==> ResultFields(r)[2] == ("dns_rcode", IntField(r.dnsRcode.value))
    ensures r.error == None && r.checkType == Http ==> ResultFields(r)[2] == ("http_status", IntField(r.httpStatus.value))
  {
  }

  /** The `fields` dict `results_to_lines` builds for one result: two entries, then the present protocol codes inserted in turn. */
  method InsertFields(result: ProbeResult) returns (fields: Dict<FieldValue>)
    ensures fields == ResultFields(result)
  {
    fields := [("rtt_ms", FloatField(result.rttMs)), ("success", BoolField(result.success))];
    if result.httpStatus.Some? {
      assert fields[0].0 != "http_status" && fields[1].0 != "http_status";
      fields := Put(fields, "http_status", IntField(result.httpStatus.value));
    }
    if result.dnsRcode.Some? {
      assert forall i :: 0 <= i < |fields| ==> fields[i].0 != "dns_rcode";
      fields := Put(fields, "dns_rcode", IntField(result.dnsRcode.value));
    }
  }

  /** The line `results_to_lines` writes for one result. */
  function ResultLine(measurement: string, vlan: string, r: ProbeResult, render3: real -> string): string {
    BuildLineProtocol(measurement, ResultTags(vlan, r), ResultFields(r), render3)
  }

  /** A check type's name needs no escaping. */
  lemma CheckTypeNamePlain(t: CheckType)
    ensures EscapeTag(t.Name()) == t.Name()
  {
    match t
    case Dns =>
      assert CountSpecial("dns") == 0;
      EscapeTagPlain("dns");
    case Http =>
      assert CountSpecial("http") == 0;
      EscapeTagPlain("http");
  }

  /**
   * A result's line: the measurement, the escaped `vlan` and `target` tags and
   * the `check_type` tag in that order, a space, then the result's fields.
   */
  lemma ResultLineText(measurement: string, vlan: string, r: ProbeResult, render3: real -> string)
    ensures ResultLine(measurement, vlan, r, render3)
         == measurement + ","
            + (("vlan" + "=" + EscapeTag(vlan))
               + "," + (("target" + "=" + EscapeTag(r.target)) + "," + ("check_type" + "=" + r.checkType.Name())))
            + " " + FieldSet(ResultFields(r), render3)
  {
    CheckTypeNamePlain(r.checkType);
    TagSetOfThree("vlan", vlan, "target", r.target, "check_type", r.checkType.Name());
  }

  /** The body of the `results_to_lines` loop: one result's tags and fields, assembled into a line. */
  method ResultToLine(measurement: string, vlan: string, result: ProbeResult, render3: real -> string)
    returns (line: string)
    ensures line == ResultLine(measurement, vlan, result, render3)
  {
    var fields := InsertFields(result);
    var tags := ResultTags(vlan, result);
    line := BuildLineProtocol(measurement, tags, fields, render3);
  }

  /** `results_to_lines`: one line per result, in input order. */
  method ResultsToLines(measurement: string, vlan: string, results: seq<ProbeResult>, render3: real -> string)
    returns (lines: seq<string>)
    ensures |lines| == |results|
    ensures forall i :: 0 <= i < |results| ==> lines[i] == ResultLine(measurement, vlan, results[i], render3)
  {
    lines := [];
    for i := 0 to |results|
      invariant |lines| == i
      invariant forall k :: 0 <= k < i ==> lines[k] == ResultLine(measurement, vlan, results[k], render3)
    {
      var line := ResultToLine(measurement, vlan, results[i], render3);
      ghost var done := lines;
      lines := lines + [line];
      assert forall k :: 0 <= k < i ==> lines[k] == done[k];
    }
  }
}
