/**
 * The deduplicated catalogue of recorded APIs that project.go (appendAPI)
 * and app.go (AppendAPI) keep: a new record replaces the first one `equal`
 * to it, and is appended when there is none.
 */
module Catalogue {
  import opened Wrappers
  import opened Capture

  /** Index of the first record `equal` to `x`, as the range loop meets them. */
  function FirstEqual(apis: seq<Api>, x: Api): (r: Option<nat>)
    ensures r.None? <==> forall i :: 0 <= i < |apis| ==> !Equal(x, apis[i])
    ensures r.Some? ==> r.value < |apis| && Equal(x, apis[r.value])
    ensures r.Some? ==> forall i :: 0 <= i < r.value ==> !Equal(x, apis[i])
    decreases |apis|
  {
    if apis == [] then None
    else if Equal(x, apis[0]) then Some(0)
    else match FirstEqual(apis[1..], x)
      case None => None
      case Some(i) => Some(i + 1)
  }

  /**
   * The catalogue after recording `x`: the same length with `x` in place of
   * the first equal record and every other record where it was, or the old
   * catalogue followed by `x`.
   */
  function Upsert(apis: seq<Api>, x: Api): (r: seq<Api>)
    ensures |r| == |apis| || |r| == |apis| + 1
    ensures |r| == |apis| <==> exists i :: 0 <= i < |apis| && Equal(x, apis[i])
    ensures |r| == |apis| + 1 ==> r == apis + [x]
    ensures |r| == |apis| ==> forall k :: 0 <= k < |apis| ==>
      r[k] == if Some(k) == FirstEqual(apis, x) then x else apis[k]
  {
    match FirstEqual(apis, x)
    case None => apis + [x]
    case Some(i) => apis[i := x]
  }

  /** No two records of the catalogue are `equal`. */
  predicate Distinct(apis: seq<Api>) {
    forall i, j :: 0 <= i < j < |apis| ==> !Equal(apis[i], apis[j])
  }

  /** Records not equal to `x` keep their places. */
  lemma UpsertKeepsOthers(apis: seq<Api>, x: Api, k: nat)
    requires k < |apis| && !Equal(x, apis[k])
    ensures k < |Upsert(apis, x)| && Upsert(apis, x)[k] == apis[k]
  {
  }

  /**
   * Recording keeps the catalogue free of duplicates, and afterwards `x`
   * is in it and is the only record equal to it.
   */
  lemma UpsertKeepsDistinct(apis: seq<Api>, x: Api)
    requires Distinct(apis)
    ensures Distinct(Upsert(apis, x))
    ensures x in Upsert(apis, x)
    ensures forall k :: 0 <= k < |Upsert(apis, x)| && Equal(Upsert(apis, x)[k], x) ==> Upsert(apis, x)[k] == x
  {
    var r := Upsert(apis, x);
    match FirstEqual(apis, x)
    case None =>
      assert r[|apis|] == x;
    case Some(i) =>
      assert r[i] == x;
      forall k | 0 <= k < |r| && k != i
        ensures !Equal(r[k], x)
      {
        if k < i {
          assert !Equal(apis[k], apis[i]);
        } else {
          assert !Equal(apis[i], apis[k]);
        }
      }
  }

  /** Recording the same record twice gives the catalogue recording it once gives. */
  lemma UpsertIdempotent(apis: seq<Api>, x: Api)
    ensures Upsert(Upsert(apis, x), x) == Upsert(apis, x)
  {
    var r := Upsert(apis, x);
    match FirstEqual(apis, x)
    case None =>
      assert r[|apis|] == x && Equal(x, x);
      assert forall k :: 0 <= k < |apis| ==> r[k] == apis[k];
      assert FirstEqual(r, x) == Some(|apis|);
    case Some(i) =>
      assert FirstEqual(r, x) == Some(i);
  }

  /** Two records that differ only in their bodies, then one with another method: lengths 1, 1 and 2. */
  lemma AppendExample()
    ensures var a1 := NewApi().(requestMethod := "GET", requestPath := "/users", requestBody := "body1");
      var a2 := NewApi().(requestMethod := "GET", requestPath := "/users", requestBody := "body2");
      var a3 := NewApi().(requestMethod := "POST", requestPath := "/users", requestBody := "body3");
      Upsert([], a1) == [a1] && Upsert([a1], a2) == [a2] && Upsert([a2], a3) == [a2, a3]
  {
    var a1 := NewApi().(requestMethod := "GET", requestPath := "/users", requestBody := "body1");
    var a2 := NewApi().(requestMethod := "GET", requestPath := "/users", requestBody := "body2");
    var a3 := NewApi().(requestMethod := "POST", requestPath := "/users", requestBody := "body3");
    assert FirstEqual([a1], a2) == Some(0);
    assert !Equal(a3, a2);
    assert FirstEqual([a2], a3) == None;
  }
}
