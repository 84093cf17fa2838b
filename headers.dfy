/**
 * Header capture (api.go:55-73 and api.go:211-229): the header collection
 * is written out by http.Header.WriteSubset, which leaves out suppressed
 * keys, and the text is parsed back line by line with the pair loop, on
 * '\n' and ':'.
 */
module Headers {
  import opened Wrappers
  import opened GoStrings
  import opened Pairs

  /** One entry of an http.Header: a canonical key and its values, in order. */
  datatype Field = Field(key: string, values: seq<string>)

  /** An http.Header, its entries in the order WriteSubset visits them. */
  type Header = seq<Field>

  /** WriteSubset leaves a key out exactly when `exclude[key]` is true. */
  predicate Excluded(exclude: map<string, bool>, key: string) {
    key in exclude && exclude[key]
  }

  /** The white space textproto.TrimString removes. */
  predicate IsAsciiSpace(c: char) {
    c == ' ' || c == '\t' || c == '\n' || c == '\r'
  }

  /** A value as WriteSubset writes it: CR and LF become spaces, then ASCII space is trimmed. */
  function CleanValue(v: string): (r: string)
    ensures '\n' !in r && '\r' !in r
  {
    var flat := seq(|v|, i requires 0 <= i < |v| => if v[i] == '\n' || v[i] == '\r' then ' ' else v[i]);
    var r := Trim(flat, IsAsciiSpace);
    assert forall k :: 0 <= k < |r| ==> r[k] == flat[LeadingRun(flat, IsAsciiSpace) + k];
    r
  }

  /** The line written for one value, without its final '\n': "Key: value\r". */
  function Line(key: string, value: string): string {
    key + ": " + CleanValue(value) + "\r"
  }

  /** A token character of RFC 7230 section 3.2.6, as httpguts tests it byte by byte. */
  predicate IsTokenChar(c: char) {
    ('a' <= c <= 'z') || ('A' <= c <= 'Z') || ('0' <= c <= '9')
    || c in "!#$%&'*+-.^_`|~"
  }

  /** httpguts.ValidHeaderFieldName: a non-empty token. */
  predicate ValidFieldName(key: string) {
    key != "" && forall k :: 0 <= k < |key| ==> IsTokenChar(key[k])
  }

  /** A valid field name holds neither the pair separator nor a line break. */
  lemma ValidFieldNameSeparators(key: string)
    requires ValidFieldName(key)
    ensures key != "" && ':' !in key && '\n' !in key
  {
    assert !IsTokenChar(':') && !IsTokenChar('\n');
  }

  /** The lines written for one entry: none when suppressed or not a valid field name, else one per value. */
  function FieldLines(f: Field, exclude: map<string, bool>): seq<string> {
    if Excluded(exclude, f.key) || !ValidFieldName(f.key) then []
    else seq(|f.values|, i requires 0 <= i < |f.values| => Line(f.key, f.values[i]))
  }

  function Lines(h: Header, exclude: map<string, bool>): seq<string>
    decreases |h|
  {
    if h == [] then [] else FieldLines(h[0], exclude) + Lines(h[1..], exclude)
  }

  /** The text WriteSubset writes into the buffer: every line followed by '\n'. */
  function WriteSubset(h: Header, exclude: map<string, bool>): string {
    Terminated(Lines(h, exclude), '\n')
  }

  /** What ReadRequestHeader / ReadResponseHeader make of the map `m`. */
  function ParseHeaders(m: map<string, string>, h: Header, exclude: map<string, bool>): map<string, string> {
    Absorb(m, Split(WriteSubset(h, exclude), '\n'), ':')
  }

  /**
   * The text stored for a value: what follows "Key:" up to the next ':' or
   * the end of the line. It keeps the space written after the colon and,
   * when the value has no ':', the trailing '\r'.
   */
  function StoredValue(v: string): string {
    Before(" " + CleanValue(v) + "\r", ':')
  }

  /** An http.Header is a map, so its keys are distinct. */
  predicate DistinctKeys(h: Header) {
    forall i, j :: 0 <= i < j < |h| ==> h[i].key != h[j].key
  }

  /** The pair a line contributes. */
  lemma LinePair(key: string, v: string)
    requires ':' !in key
    ensures key == "" ==> Pair(Line(key, v), ':').None?
    ensures key != "" ==> Pair(Line(key, v), ':') == Some((key, StoredValue(v)))
  {
    var rest := " " + CleanValue(v) + "\r";
    assert Line(key, v) == key + [':'] + rest;
    if key == "" {
      PairOfUnkeyed(':', rest);
    } else {
      PairOfKeyed(key, ':', rest);
    }
  }

  lemma {:induction false} LinesAppend(a: Header, b: Header, exclude: map<string, bool>)
    ensures Lines(a + b, exclude) == Lines(a, exclude) + Lines(b, exclude)
    decreases |a|
  {
    if a == [] {
      assert a + b == b;
    } else {
      assert (a + b)[1..] == a[1..] + b;
      LinesAppend(a[1..], b, exclude);
    }
  }

  lemma {:induction false} LinesHaveNoNewline(h: Header, exclude: map<string, bool>)
    ensures forall i :: 0 <= i < |Lines(h, exclude)| ==> '\n' !in Lines(h, exclude)[i]
    decreases |h|
  {
    if h != [] {
      LinesHaveNoNewline(h[1..], exclude);
      var f, rest := FieldLines(h[0], exclude), Lines(h[1..], exclude);
      forall i | 0 <= i < |f| ensures '\n' !in f[i] {
        ValidFieldNameSeparators(h[0].key);
        var cv := CleanValue(h[0].values[i]);
        assert f[i] == h[0].key + ": " + cv + "\r";
      }
    }
  }

  /** Every line of `h` belongs to an entry whose key is not `key`, or to no key at all. */
  lemma {:induction false} LinesAvoidKey(h: Header, exclude: map<string, bool>, key: string)
    requires forall i :: 0 <= i < |h| && h[i].key == key ==> Excluded(exclude, key)
    ensures forall n :: 0 <= n < |Lines(h, exclude)| ==> !SetsKey(Lines(h, exclude)[n], ':', key)
    decreases |h|
  {
    if h != [] {
      LinesAvoidKey(h[1..], exclude, key);
      var f, rest := FieldLines(h[0], exclude), Lines(h[1..], exclude);
      forall n | 0 <= n < |f| ensures !SetsKey(f[n], ':', key) {
        ValidFieldNameSeparators(h[0].key);
        LinePair(h[0].key, h[0].values[n]);
      }
      assert Lines(h, exclude) == f + rest;
    }
  }

  /** The terminating empty piece after the last '\n' stores nothing. */
  lemma ParseHeadersIsLines(m: map<string, string>, h: Header, exclude: map<string, bool>)
    ensures ParseHeaders(m, h, exclude) == Absorb(m, Lines(h, exclude), ':')
  {
    var lines := Lines(h, exclude);
    LinesHaveNoNewline(h, exclude);
    SplitTerminated(lines, '\n');
    AbsorbEmptyLast(m, lines, ':');
  }

  /**
   * Suppression: a key marked true in the suppression set never gets a
   * value from the header; it keeps whatever the map held before.
   */
  lemma HeaderSuppressed(m: map<string, string>, h: Header, exclude: map<string, bool>, key: string)
    requires Excluded(exclude, key)
    ensures var r := ParseHeaders(m, h, exclude);
      (key in r <==> key in m) && (key in m ==> r[key] == m[key])
  {
    ParseHeadersIsLines(m, h, exclude);
    LinesAvoidKey(h, exclude, key);
    AbsorbUntouched(m, Lines(h, exclude), ':', key);
  }

  /**
   * A key that is not a valid field name writes nothing, so "Cache-Control:x"
   * cannot smuggle a value in under the suppressed key "Cache-Control".
   */
  lemma InvalidKeyExample()
    ensures "Cache-Control" !in ParseHeaders(map[], [Field("Cache-Control:x", ["v"])], map["Cache-Control" := true])
  {
    HeaderSuppressed(map[], [Field("Cache-Control:x", ["v"])], map["Cache-Control" := true], "Cache-Control");
  }

  /** A key the header does not carry keeps whatever the map held before. */
  lemma HeaderAbsentKey(m: map<string, string>, h: Header, exclude: map<string, bool>, key: string)
    requires forall i :: 0 <= i < |h| ==> h[i].key != key
    ensures var r := ParseHeaders(m, h, exclude);
      (key in r <==> key in m) && (key in m ==> r[key] == m[key])
  {
    ParseHeadersIsLines(m, h, exclude);
    LinesAvoidKey(h, exclude, key);
    AbsorbUntouched(m, Lines(h, exclude), ':', key);
  }

  /** An entry that is not suppressed and has a valid name writes one line per value, in order. */
  lemma FieldLinesOfKept(f: Field, exclude: map<string, bool>, i: nat)
    requires ValidFieldName(f.key) && !Excluded(exclude, f.key) && i < |f.values|
    ensures |FieldLines(f, exclude)| == |f.values|
    ensures FieldLines(f, exclude)[i] == Line(f.key, f.values[i])
  {
  }

  /** The lines of `h` around its entry `j`. */
  lemma LinesAround(h: Header, exclude: map<string, bool>, j: nat)
    requires j < |h|
    ensures Lines(h, exclude) == Lines(h[..j], exclude) + FieldLines(h[j], exclude) + Lines(h[j + 1..], exclude)
  {
    assert h == h[..j] + ([h[j]] + h[j + 1..]);
    LinesAppend(h[..j], [h[j]] + h[j + 1..], exclude);
    LinesAppend([h[j]], h[j + 1..], exclude);
    assert Lines([h[j]], exclude) == FieldLines(h[j], exclude) + Lines([], exclude);
  }

  /** Lines ending with the line of a value set the line's key to that value's stored form. */
  lemma LastLinePair(a: seq<string>, b: seq<string>, key: string, v: string)
    requires key != "" && ':' !in key
    requires b != [] && b[|b| - 1] == Line(key, v)
    ensures a + b != [] && Pair((a + b)[|a + b| - 1], ':') == Some((key, StoredValue(v)))
  {
    assert (a + b)[|a + b| - 1] == Line(key, v);
    LinePair(key, v);
  }

  /** Any lines followed by those of a kept entry end with that entry's key and last value. */
  lemma LastLineOfEntry(a: seq<string>, f: Field, exclude: map<string, bool>)
    requires ValidFieldName(f.key) && !Excluded(exclude, f.key) && f.values != []
    ensures var upto := a + FieldLines(f, exclude);
      upto != [] && Pair(upto[|upto| - 1], ':') == Some((f.key, StoredValue(f.values[|f.values| - 1])))
  {
    ValidFieldNameSeparators(f.key);
    FieldLinesOfKept(f, exclude, |f.values| - 1);
    LastLinePair(a, FieldLines(f, exclude), f.key, f.values[|f.values| - 1]);
  }

  /** No line written after an entry sets that entry's key again. */
  lemma LaterLinesAvoidKey(h: Header, exclude: map<string, bool>, j: nat)
    requires DistinctKeys(h) && j < |h|
    ensures var later := Lines(h[j + 1..], exclude);
      forall n :: 0 <= n < |later| ==> !SetsKey(later[n], ':', h[j].key)
  {
    var tail := h[j + 1..];
    assert forall i :: 0 <= i < |tail| ==> tail[i] == h[j + 1 + i];
    LinesAvoidKey(tail, exclude, h[j].key);
  }

  /** The lines of a header set the key of a kept entry to its last value. */
  lemma LinesLastValueWins(m: map<string, string>, h: Header, exclude: map<string, bool>, j: nat)
    requires DistinctKeys(h)
    requires j < |h| && ValidFieldName(h[j].key) && !Excluded(exclude, h[j].key) && h[j].values != []
    ensures h[j].key in Absorb(m, Lines(h, exclude), ':')
    ensures Absorb(m, Lines(h, exclude), ':')[h[j].key] == StoredValue(h[j].values[|h[j].values| - 1])
  {
    LinesAround(h, exclude, j);
    LastLineOfEntry(Lines(h[..j], exclude), h[j], exclude);
    LaterLinesAvoidKey(h, exclude, j);
    AbsorbSetThenUntouched(m, Lines(h, exclude), Lines(h[..j], exclude) + FieldLines(h[j], exclude),
      Lines(h[j + 1..], exclude), ':', h[j].key, StoredValue(h[j].values[|h[j].values| - 1]));
  }

  /**
   * Last value wins: a header entry that is not suppressed and has values
   * leaves the stored form of its LAST value under its key.
   */
  lemma HeaderLastValueWins(m: map<string, string>, h: Header, exclude: map<string, bool>, j: nat)
    requires DistinctKeys(h)
    requires j < |h| && ValidFieldName(h[j].key) && !Excluded(exclude, h[j].key) && h[j].values != []
    ensures h[j].key in ParseHeaders(m, h, exclude)
    ensures ParseHeaders(m, h, exclude)[h[j].key] == StoredValue(h[j].values[|h[j].values| - 1])
  {
    ParseHeadersIsLines(m, h, exclude);
    LinesLastValueWins(m, h, exclude, j);
  }

  /** A value without ':' is stored whole, with the space before it and the '\r' after it. */
  lemma StoredValueWithoutColon(v: string)
    requires ':' !in CleanValue(v)
    ensures StoredValue(v) == " " + CleanValue(v) + "\r"
  {
    var s := " " + CleanValue(v) + "\r";
    assert forall k :: 0 <= k < |s| ==> s[k] != ':';
  }

  /** A value without ASCII white space is written unchanged. */
  lemma CleanValueOfPlain(v: string)
    requires forall k :: 0 <= k < |v| ==> !IsAsciiSpace(v[k])
    ensures CleanValue(v) == v
  {
    var flat := seq(|v|, i requires 0 <= i < |v| => if v[i] == '\n' || v[i] == '\r' then ' ' else v[i]);
    assert flat == v;
    assert v == [] + v + [];
    TrimAround([], v, [], IsAsciiSpace);
  }
}
