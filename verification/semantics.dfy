/** What the evaluator computes, stated against reference definitions: an
    in-order collection of independent results, and the plain walk of a key
    path. */
module Semantics {
  import opened Wrappers
  import opened Json
  import opened Query
  import opened Evaluator

  /** Several evaluations collected left to right, as a Python list
      comprehension or an append loop collects them: every value when all
      succeed, otherwise the error of the first one that failed. */
  function Collect(rs: seq<Result<Value, Error>>): (r: Result<seq<Value>, Error>)
    ensures r.Success? <==> forall i :: 0 <= i < |rs| ==> rs[i].Success?
    ensures r.Success? ==>
              |r.value| == |rs| && forall i :: 0 <= i < |rs| ==> r.value[i] == rs[i].value
    ensures r.Failure? ==>
              exists k :: 0 <= k < |rs| && rs[k] == Failure(r.error) &&
                forall i :: 0 <= i < k ==> rs[i].Success?
  {
    if rs == [] then Success([])
    else
      match rs[0]
      case Failure(err) => Failure(err)
      case Success(v) =>
        match Collect(rs[1..])
        case Failure(err) =>
          assert forall k :: 0 <= k < |rs| - 1 ==> rs[1..][k] == rs[k + 1];
          Failure(err)
        case Success(vs) => Success([v] + vs)
  }

  /** A collected list of values as one array result. */
  function AsArray(r: Result<seq<Value>, Error>): Result<Value, Error> {
    match r
    case Success(vs) => Success(Arr(vs))
    case Failure(err) => Failure(err)
  }

  /** The evaluations of `tail` on each element of `items`, independently. */
  function EachResults(tail: ExprList, items: seq<Value>): seq<Result<Value, Error>> {
    seq(|items|, i requires 0 <= i < |items| => EvalExprList(tail, items[i]))
  }

  /** The evaluations of each member on the same `data`, independently. */
  function MemberResults(members: seq<ExprList>, data: Value): seq<Result<Value, Error>> {
    seq(|members|, i requires 0 <= i < |members| => EvalExprList(members[i], data))
  }

  /** The fan-out step evaluates the tail on each element independently. */
  lemma {:induction false} EachIsCollect(tail: ExprList, items: seq<Value>)
    ensures EvalEach(tail, items) == Collect(EachResults(tail, items))
    decreases |items|
  {
    if items != [] {
      EachIsCollect(tail, items[1..]);
      assert EachResults(tail, items)[1..] == EachResults(tail, items[1..]);
    }
  }

  /** The group members are each evaluated on the same input. */
  lemma {:induction false} MembersIsCollect(members: seq<ExprList>, data: Value)
    ensures EvalMembers(members, data) == Collect(MemberResults(members, data))
    decreases |members|
  {
    if members != [] {
      MembersIsCollect(members[1..], data);
      assert MemberResults(members, data)[1..] == MemberResults(members[1..], data);
    }
  }

  /** `*.tail` on an array: one result per element, the i-th being `tail` on
      the i-th element; it fails exactly when some element fails, with the
      error of the first one that does. */
  lemma WildcardFanOut(tail: ExprList, items: seq<Value>)
    ensures var r := EvalExprList(ListReq(KeyIdx(Wildcard), Some(tail)), Arr(items));
      && (r.Success? <==> forall i :: 0 <= i < |items| ==> EvalExprList(tail, items[i]).Success?)
      && (r.Success? ==>
            r.value.Arr? && |r.value.items| == |items| &&
            forall i :: 0 <= i < |items| ==> r.value.items[i] == EvalExprList(tail, items[i]).value)
      && (r.Failure? ==>
            exists k :: 0 <= k < |items| && EvalExprList(tail, items[k]) == Failure(r.error) &&
              forall i :: 0 <= i < k ==> EvalExprList(tail, items[i]).Success?)
  {
    var rs := EachResults(tail, items);
    var r := EvalExprList(ListReq(KeyIdx(Wildcard), Some(tail)), Arr(items));
    EachIsCollect(tail, items);
    assert EvalExpr(KeyIdx(Wildcard), Arr(items)) == Success((Arr(items), Fanout));
    assert r == EvalChain(KeyIdx(Wildcard), Some(tail), Arr(items));
    assert r == AsArray(EvalEach(tail, items));
    assert r == AsArray(Collect(rs));
    assert forall i :: 0 <= i < |items| ==> rs[i] == EvalExprList(tail, items[i]);
    if r.Failure? {
      var k :| 0 <= k < |rs| && rs[k] == Failure(r.error) && forall i :: 0 <= i < k ==> rs[i].Success?;
      assert EvalExprList(tail, items[k]) == Failure(r.error);
    }
  }

  /** A group `{first, rest…}`: one entry per member, in declaration order,
      each member evaluated on the same input (the first one as a lone
      segment); it fails exactly when some member fails, with the error of
      the first one that does. */
  lemma GroupInOrder(first: Expr, rest: seq<ExprList>, data: Value)
    ensures var members := [Single(first)] + rest;
            var r := EvalExprList(List(first, rest), data);
      && (r.Success? <==> forall k :: 0 <= k < |members| ==> EvalExprList(members[k], data).Success?)
      && (r.Success? ==>
            r.value.Arr? && |r.value.items| == |members| &&
            forall k :: 0 <= k < |members| ==> r.value.items[k] == EvalExprList(members[k], data).value)
      && (r.Failure? ==>
            exists k :: 0 <= k < |members| && EvalExprList(members[k], data) == Failure(r.error) &&
              forall j :: 0 <= j < k ==> EvalExprList(members[j], data).Success?)
  {
    var members := [Single(first)] + rest;
    var rs := MemberResults(members, data);
    var r := EvalExprList(List(first, rest), data);
    MembersIsCollect(rest, data);
    assert rs[1..] == MemberResults(rest, data);
    assert rs[0] == EvalExprList(Single(first), data);
    assert r == EvalGroup(first, rest, data);
    assert r == AsArray(Collect(rs)) by {
      match EvalExpr(first, data)
      case Failure(_) =>
      case Success((v, _)) =>
        assert rs[0] == Success(v);
    }
    assert forall k :: 0 <= k < |members| ==> rs[k] == EvalExprList(members[k], data);
    if r.Failure? {
      var k :| 0 <= k < |rs| && rs[k] == Failure(r.error) && forall j :: 0 <= j < k ==> rs[j].Success?;
      assert EvalExprList(members[k], data) == Failure(r.error);
    }
  }

  /** After a segment that selects one value, the tail runs once on it. */
  lemma ChainAfterNormal(head: Expr, tail: ExprList, data: Value, v: Value)
    requires EvalExpr(head, data) == Success((v, Normal))
    ensures EvalExprList(ListReq(head, Some(tail)), data) == EvalExprList(tail, v)
  {
  }

  /** A lone segment means the same whether it is read as a one-segment chain
      or as a bare `expr`: the grammar allows both readings. */
  lemma LoneSegmentReadings(head: Expr, data: Value)
    ensures EvalExprList(ListReq(head, None), data) == EvalExprList(Single(head), data)
  {
  }

  /** A quoted key looks up exactly the characters between its quotes, so
      `"k"` and `k` select the same field. */
  lemma QuotedKeyIsRawText(s: string, data: Value)
    ensures EvalExpr(KeyStr(Quoted("\"" + s + "\"")), data) == EvalExpr(KeyStr(Cname(s)), data)
  {
  }

  /** The chain `s0.s1.…` built from its segments, nested to the right as
      the grammar nests it. */
  function Path(segs: seq<Expr>): (x: ExprList)
    requires |segs| >= 1
    ensures x.ListReq? && x.head == segs[0] && (x.tail.None? <==> |segs| == 1)
    decreases |segs|
  {
    if |segs| == 1 then ListReq(segs[0], None) else ListReq(segs[0], Some(Path(segs[1..])))
  }

  /** Reference reading of a key path: each segment is looked up in what the
      previous one found. */
  function Walk(segs: seq<Expr>, data: Value): Result<Value, Error>
    decreases |segs|
  {
    if segs == [] then Success(data)
    else
      match EvalExpr(segs[0], data)
      case Failure(err) => Failure(err)
      case Success((v, _)) => Walk(segs[1..], v)
  }

  /** A chain of keys and indices, with no wildcard, is a plain path walk. */
  lemma {:induction false} PlainChainIsWalk(segs: seq<Expr>, data: Value)
    requires |segs| >= 1
    requires forall i :: 0 <= i < |segs| ==> segs[i] != KeyIdx(Wildcard)
    ensures EvalExprList(Path(segs), data) == Walk(segs, data)
    decreases |segs|
  {
    if |segs| > 1 {
      match EvalExpr(segs[0], data)
      case Failure(_) =>
      case Success((v, _)) =>
        PlainChainIsWalk(segs[1..], v);
    }
  }
}
