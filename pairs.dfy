/**
 * The parsing loop api.go writes three times: split a text into pieces,
 * split each piece on a key/value separator with strings.Split, skip a
 * piece with no separator or an empty key, and store `values[0] ->
 * values[1]` so that a later piece with the same key overwrites an
 * earlier one.
 */
module Pairs {
  import opened Wrappers
  import opened GoStrings

  /**
   * What one piece contributes. The key is the text before the first
   * separator and must be non-empty; the value is the text between the
   * first and the second separator (Go's `values[1]`), so anything after
   * a second separator is dropped.
   */
  function Pair(piece: string, sep: char): (r: Option<(string, string)>)
    ensures r.Some? ==> sep !in r.value.0 && sep !in r.value.1
  {
    var values := Split(piece, sep);
    if |values| < 2 || values[0] == "" then None else Some((values[0], values[1]))
  }

  /**
   * A piece holds a pair exactly when it has a separator and does not
   * start with one; the key is the text before the first separator and
   * the value the text between the first and the second.
   */
  lemma PairParts(piece: string, sep: char)
    ensures Pair(piece, sep).Some? <==> sep in piece && piece[0] != sep
    ensures Pair(piece, sep).Some? ==> Pair(piece, sep).value.0 == Before(piece, sep)
    ensures Pair(piece, sep).Some? ==> Pair(piece, sep).value.1 == Before(After(piece, sep), sep)
  {
    SplitFront(piece, sep);
    if sep in piece {
      assert piece == Before(piece, sep) + [sep] + After(piece, sep);
      assert Before(piece, sep) == "" <==> piece[0] == sep;
    }
  }

  /** One iteration of the loop body. */
  function Store(m: map<string, string>, piece: string, sep: char): map<string, string> {
    match Pair(piece, sep)
    case None => m
    case Some((key, value)) => m[key := value]
  }

  /** Store, spelt out as the Go loop body writes it. */
  lemma StoreSplits(m: map<string, string>, piece: string, sep: char)
    ensures var values := Split(piece, sep);
      Store(m, piece, sep) == if |values| >= 2 && values[0] != "" then m[values[0] := values[1]] else m
  {
  }

  /** The map after the loop has processed `pieces` in order, starting from `m`. */
  function Absorb(m: map<string, string>, pieces: seq<string>, sep: char): map<string, string>
    decreases |pieces|
  {
    if pieces == [] then m
    else Store(Absorb(m, pieces[..|pieces| - 1], sep), pieces[|pieces| - 1], sep)
  }

  /** The piece stores a value under `key`. */
  predicate SetsKey(piece: string, sep: char, key: string) {
    Pair(piece, sep).Some? && Pair(piece, sep).value.0 == key
  }

  /**
   * The loop itself: `for _, piece := range strings.Split(text, pieceSep)`
   * inserting into `m` (the receiver's map in the Go code).
   */
  method ParsePairs(text: string, pieceSep: char, sep: char, m: map<string, string>)
    returns (r: map<string, string>)
    ensures r == Absorb(m, Split(text, pieceSep), sep)
  {
    var pieces := Split(text, pieceSep);
    r := m;
    var i := 0;
    while i < |pieces|
      invariant 0 <= i <= |pieces|
      invariant r == Absorb(m, pieces[..i], sep)
    {
      AbsorbStep(m, pieces, i, sep, r);
      var values := Split(pieces[i], sep);
      if |values| >= 2 {
        var key := values[0];
        if key != "" {
          r := r[key := values[1]];
        }
      }
      i := i + 1;
    }
    assert pieces[..|pieces|] == pieces;
  }

  /** One more piece is one more run of the loop body. */
  lemma AbsorbStep(m: map<string, string>, pieces: seq<string>, i: nat, sep: char, r: map<string, string>)
    requires i < |pieces| && r == Absorb(m, pieces[..i], sep)
    ensures var values := Split(pieces[i], sep);
      Absorb(m, pieces[..i + 1], sep) == if |values| >= 2 && values[0] != "" then r[values[0] := values[1]] else r
  {
    assert pieces[..i + 1][..i] == pieces[..i];
    StoreSplits(r, pieces[i], sep);
  }

  /** A final empty piece stores nothing. */
  lemma AbsorbEmptyLast(m: map<string, string>, pieces: seq<string>, sep: char)
    ensures Absorb(m, pieces + [""], sep) == Absorb(m, pieces, sep)
  {
    assert (pieces + [""])[..|pieces|] == pieces;
    assert Pair("", sep).None?;
  }

  /** The stored pair is a prefix of its piece, ending there or followed by another separator. */
  lemma PairIsLeadingSegment(piece: string, sep: char)
    requires Pair(piece, sep).Some?
    ensures var (key, value) := Pair(piece, sep).value;
      key != "" && key + [sep] + value <= piece
      && (|key + [sep] + value| < |piece| ==> piece[|key + [sep] + value|] == sep)
  {
    var (key, value) := Pair(piece, sep).value;
    var rest := After(piece, sep);
    PairParts(piece, sep);
    assert piece == key + [sep] + rest;
    assert value <= rest;
    if |key + [sep] + value| < |piece| {
      assert piece[|key + [sep] + value|] == rest[|value|];
    }
  }

  /** Processing `a` then `b` is processing `a + b`. */
  lemma {:induction false} AbsorbAppend(m: map<string, string>, a: seq<string>, b: seq<string>, sep: char)
    ensures Absorb(m, a + b, sep) == Absorb(Absorb(m, a, sep), b, sep)
    decreases |b|
  {
    if b == [] {
      assert a + b == a;
    } else {
      var b' := b[..|b| - 1];
      assert (a + b)[..|a + b| - 1] == a + b';
      assert (a + b)[|a + b| - 1] == b[|b| - 1];
      AbsorbAppend(m, a, b', sep);
    }
  }

  /** No key already in the map is ever removed. */
  lemma {:induction false} AbsorbKeepsKeys(m: map<string, string>, pieces: seq<string>, sep: char)
    ensures m.Keys <= Absorb(m, pieces, sep).Keys
    decreases |pieces|
  {
    if pieces != [] {
      AbsorbKeepsKeys(m, pieces[..|pieces| - 1], sep);
    }
  }

  /** A key that no piece sets keeps its presence and its value. */
  lemma {:induction false} AbsorbUntouched(m: map<string, string>, pieces: seq<string>, sep: char, key: string)
    requires forall i :: 0 <= i < |pieces| ==> !SetsKey(pieces[i], sep, key)
    ensures var r := Absorb(m, pieces, sep);
      (key in r <==> key in m) && (key in m ==> r[key] == m[key])
    decreases |pieces|
  {
    if pieces != [] {
      var init := pieces[..|pieces| - 1];
      assert forall i :: 0 <= i < |init| ==> init[i] == pieces[i];
      AbsorbUntouched(m, init, sep, key);
      assert !SetsKey(pieces[|pieces| - 1], sep, key);
    }
  }

  /** The last piece, when it holds a pair, decides its key. */
  lemma AbsorbLastPiece(m: map<string, string>, pieces: seq<string>, sep: char)
    requires pieces != [] && Pair(pieces[|pieces| - 1], sep).Some?
    ensures var (key, value) := Pair(pieces[|pieces| - 1], sep).value;
      key in Absorb(m, pieces, sep) && Absorb(m, pieces, sep)[key] == value
  {
  }

  /** A key ends up with the value of the last piece that sets it. */
  lemma {:induction false} AbsorbLastWins(m: map<string, string>, pieces: seq<string>, sep: char, i: nat, key: string, value: string)
    requires i < |pieces| && Pair(pieces[i], sep) == Some((key, value))
    requires forall j :: i < j < |pieces| ==> !SetsKey(pieces[j], sep, key)
    ensures key in Absorb(m, pieces, sep) && Absorb(m, pieces, sep)[key] == value
  {
    SplitAfter(pieces, i);
    var suffix := pieces[i + 1..];
    SuffixAvoids(pieces, suffix, i, sep, key);
    AbsorbSetThenUntouched(m, pieces, pieces[..i + 1], suffix, sep, key, value);
  }

  /** Cutting after index `i`. */
  lemma SplitAfter(pieces: seq<string>, i: nat)
    requires i < |pieces|
    ensures pieces == pieces[..i + 1] + pieces[i + 1..]
    ensures pieces[..i + 1][i] == pieces[i]
  {
  }

  /** The suffix after index `i` keeps the pieces' property of setting no `key`. */
  lemma SuffixAvoids(pieces: seq<string>, suffix: seq<string>, i: nat, sep: char, key: string)
    requires i < |pieces| && suffix == pieces[i + 1..]
    requires forall j :: i < j < |pieces| ==> !SetsKey(pieces[j], sep, key)
    ensures forall j :: 0 <= j < |suffix| ==> !SetsKey(suffix[j], sep, key)
  {
    forall j | 0 <= j < |suffix|
      ensures !SetsKey(suffix[j], sep, key)
    {
      assert suffix[j] == pieces[i + 1 + j];
    }
  }

  /** A key set by the last piece of `a` and by no piece of `b` ends up with that value. */
  lemma AbsorbSetThenUntouched(m: map<string, string>, pieces: seq<string>, a: seq<string>, b: seq<string>, sep: char, key: string, value: string)
    requires pieces == a + b
    requires a != [] && Pair(a[|a| - 1], sep) == Some((key, value))
    requires forall i :: 0 <= i < |b| ==> !SetsKey(b[i], sep, key)
    ensures key in Absorb(m, pieces, sep) && Absorb(m, pieces, sep)[key] == value
  {
    AbsorbAppend(m, a, b, sep);
    AbsorbLastPiece(m, a, sep);
    AbsorbUntouched(Absorb(m, a, sep), b, sep, key);
  }

  /**
   * A piece written as a key, the separator and a rest stores the key with
   * the rest up to its first separator.
   */
  lemma PairOfKeyed(key: string, sep: char, rest: string)
    requires key != "" && sep !in key
    ensures Pair(key + [sep] + rest, sep) == Some((key, Before(rest, sep)))
  {
    var piece := key + [sep] + rest;
    FindAfter(key, sep, rest);
    assert piece[..|key|] == key;
    assert piece[|key| + 1..] == rest;
    PairParts(piece, sep);
  }

  /** A piece that starts with the separator has an empty key and stores nothing. */
  lemma PairOfUnkeyed(sep: char, rest: string)
    ensures Pair([sep] + rest, sep).None?
  {
    PairParts([sep] + rest, sep);
  }

  /** A piece written as key, separator, value stores exactly that pair. */
  lemma PairOfJoined(key: string, sep: char, value: string)
    requires key != "" && sep !in key && sep !in value
    ensures Pair(key + [sep] + value, sep) == Some((key, value))
  {
    PairOfKeyed(key, sep, value);
  }

  /** A text without the piece separator is one piece. */
  lemma SplitWhole(text: string, c: char)
    requires c !in text
    ensures Split(text, c) == [text]
  {
  }
}
