/** Flattening of evaluation results into rows of non-list values for
    tabular display. An object is kept whole, as an opaque cell. */
module Flatten {
  import opened Json

  /** No element is a list. */
  predicate Flat(vs: seq<Value>) {
    forall i :: 0 <= i < |vs| ==> !vs[i].Arr?
  }

  /** `flatten`: a non-list becomes a one-element list; a list becomes the
      concatenation, in order, of its items' flattenings. */
  function Flatten(v: Value): (r: seq<Value>)
    ensures Flat(r)
    ensures !v.Arr? ==> r == [v]
    decreases v, 1
  {
    match v
    case Arr(items) => FlattenItems(items)
    case _ => [v]
  }

  /** The in-order concatenation of the flattenings of `items`. */
  function FlattenItems(items: seq<Value>): (r: seq<Value>)
    ensures Flat(r)
    decreases items, 0
  {
    if items == [] then [] else Flatten(items[0]) + FlattenItems(items[1..])
  }

  /** `flatten_results`: one row per top-level element when the result is a
      list (so an empty list gives no rows), otherwise a single row holding
      the result alone. No cell of any row is a list. */
  function FlattenResults(result: Value): (rows: seq<seq<Value>>)
    ensures result.Arr? ==>
              |rows| == |result.items| &&
              forall i :: 0 <= i < |rows| ==> rows[i] == Flatten(result.items[i])
    ensures !result.Arr? ==> rows == [[result]]
    ensures forall i :: 0 <= i < |rows| ==> Flat(rows[i])
  {
    match result
    case Arr(items) => seq(|items|, i requires 0 <= i < |items| => Flatten(items[i]))
    case _ => [[result]]
  }

  /** The rows laid end to end. */
  function Join(rows: seq<seq<Value>>): seq<Value> {
    if rows == [] then [] else rows[0] + Join(rows[1..])
  }

  /** Flattening distributes over concatenation of item lists. */
  lemma {:induction false} FlattenItemsAppend(a: seq<Value>, b: seq<Value>)
    ensures FlattenItems(a + b) == FlattenItems(a) + FlattenItems(b)
    decreases |a|
  {
    if a == [] {
      assert a + b == b;
    } else {
      assert (a + b)[0] == a[0];
      assert (a + b)[1..] == a[1..] + b;
      FlattenItemsAppend(a[1..], b);
    }
  }

  /** A list with no nested list flattens to itself. */
  lemma {:induction false} FlattenFlatIsIdentity(vs: seq<Value>)
    requires Flat(vs)
    ensures Flatten(Arr(vs)) == vs
    decreases |vs|
  {
    if vs != [] {
      FlattenFlatIsIdentity(vs[1..]);
    }
  }

  /** Flattening twice gives what flattening once gives. */
  lemma FlattenIdempotent(v: Value)
    ensures Flatten(Arr(Flatten(v))) == Flatten(v)
  {
    FlattenFlatIsIdentity(Flatten(v));
  }

  /** `x` is reached from `v` by descending only through lists and is not a
      list itself. */
  predicate Leaf(x: Value, v: Value)
    decreases v
  {
    if v.Arr? then exists i :: 0 <= i < |v.items| && Leaf(x, v.items[i]) else x == v
  }

  /** The flattening holds exactly the leaves of the value. */
  lemma {:induction false} FlattenHoldsLeaves(x: Value, v: Value)
    ensures x in Flatten(v) <==> Leaf(x, v)
    decreases v, 1
  {
    if v.Arr? {
      FlattenItemsHoldsLeaves(x, v.items);
    }
  }

  /** The flattening of a list of items holds exactly the leaves of the items. */
  lemma {:induction false} FlattenItemsHoldsLeaves(x: Value, items: seq<Value>)
    ensures x in FlattenItems(items) <==> exists i :: 0 <= i < |items| && Leaf(x, items[i])
    decreases items, 0
  {
    if items != [] {
      FlattenHoldsLeaves(x, items[0]);
      FlattenItemsHoldsLeaves(x, items[1..]);
      if exists i :: 0 <= i < |items| && Leaf(x, items[i]) {
        var i :| 0 <= i < |items| && Leaf(x, items[i]);
        if i > 0 {
          assert Leaf(x, items[1..][i - 1]);
        }
      }
      if exists i :: 0 <= i < |items| - 1 && Leaf(x, items[1..][i]) {
        var i :| 0 <= i < |items| - 1 && Leaf(x, items[1..][i]);
        assert Leaf(x, items[i + 1]);
      }
    }
  }

  /** The rows of a list result, laid end to end, are the result's flattening. */
  lemma {:induction false} RowsJoinToFlatten(items: seq<Value>)
    ensures Join(FlattenResults(Arr(items))) == Flatten(Arr(items))
    decreases |items|
  {
    if items != [] {
      RowsJoinToFlatten(items[1..]);
      assert FlattenResults(Arr(items))[1..] == FlattenResults(Arr(items[1..]));
    }
  }

  /** A list result with no nested list gives one single-cell row per item. */
  lemma FlatResultRows(items: seq<Value>)
    requires Flat(items)
    ensures FlattenResults(Arr(items)) == seq(|items|, i requires 0 <= i < |items| => [items[i]])
  {
  }

  /** `flatten` written as the loop of the original program: append the
      flattening of each item in turn. */
  method FlattenLoop(v: Value) returns (r: seq<Value>)
    ensures r == Flatten(v)
    decreases v
  {
    if !v.Arr? {
      return [v];
    }
    r := [];
    var i := 0;
    while i < |v.items|
      invariant 0 <= i <= |v.items|
      invariant r == FlattenItems(v.items[..i])
    {
      var part := FlattenLoop(v.items[i]);
      FlattenItemsAppend(v.items[..i], [v.items[i]]);
      assert v.items[..i + 1] == v.items[..i] + [v.items[i]];
      r := r + part;
      i := i + 1;
    }
    assert v.items[..i] == v.items;
  }

  /** `flatten_results` written as the loop of the original program: one
      appended row per top-level item. */
  method FlattenResultsLoop(result: Value) returns (rows: seq<seq<Value>>)
    ensures rows == FlattenResults(result)
  {
    if !result.Arr? {
      return [[result]];
    }
    rows := [];
    var i := 0;
    while i < |result.items|
      invariant 0 <= i <= |result.items|
      invariant |rows| == i
      invariant forall j :: 0 <= j < i ==> rows[j] == Flatten(result.items[j])
    {
      var row := FlattenLoop(result.items[i]);
      rows := rows + [row];
      i := i + 1;
    }
  }
}
