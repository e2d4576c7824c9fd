/** The expected results of the repository's unit tests, as lemmas about the
    model. Each query is written as the tree the grammar gives it. */
module UnitTests {
  import opened Wrappers
  import opened Json
  import opened Query
  import opened Evaluator
  import Semantics

  function Key(name: string): Expr { KeyStr(Cname(name)) }

  /** `extra.<field>` */
  function Extra(field: string): ExprList { ListReq(Key("extra"), Some(Single(Key(field)))) }

  /** A group whose members all succeed gives their values, in order. */
  lemma GroupValues(first: Expr, rest: seq<ExprList>, data: Value, expected: seq<Value>)
    requires |expected| == |rest| + 1
    requires EvalExprList(Single(first), data) == Success(expected[0])
    requires forall k :: 0 <= k < |rest| ==> EvalExprList(rest[k], data) == Success(expected[k + 1])
    ensures EvalExprList(List(first, rest), data) == Success(Arr(expected))
  {
    var members := [Single(first)] + rest;
    assert forall k :: 0 <= k < |members| ==> EvalExprList(members[k], data) == Success(expected[k]) by {
      forall k | 0 <= k < |members|
        ensures EvalExprList(members[k], data) == Success(expected[k])
      {
        if k > 0 {
          assert members[k] == rest[k - 1];
        }
      }
    }
    Semantics.GroupInOrder(first, rest, data);
    assert EvalExprList(List(first, rest), data).value.items == expected;
  }

  /** A wildcard whose continuation succeeds on every element gives their
      values, in order. */
  lemma FanOutValues(tail: ExprList, items: seq<Value>, expected: seq<Value>)
    requires |expected| == |items|
    requires forall i :: 0 <= i < |items| ==> EvalExprList(tail, items[i]) == Success(expected[i])
    ensures EvalExprList(ListReq(KeyIdx(Wildcard), Some(tail)), Arr(items)) == Success(Arr(expected))
  {
    Semantics.WildcardFanOut(tail, items);
    assert EvalExprList(ListReq(KeyIdx(Wildcard), Some(tail)), Arr(items)).value.items == expected;
  }

  // tests/test_jsonexplorer.py:31-38
  lemma KeyStringCname()
    ensures var data := Obj(map["object" := Str("res_object"), "object2" := Str("res_object2")]);
      && EvalExprList(Single(Key("object")), data) == Success(Str("res_object"))
      && EvalExprList(Single(Key("object2")), data) == Success(Str("res_object2"))
  {
  }

  // tests/test_jsonexplorer.py:40-47
  lemma KeyStringQuoted()
    ensures var data := Obj(map["object test" := Str("res_object"), "object2 test2" := Str("res_object 2")]);
      && EvalExprList(Single(KeyStr(Quoted("\"object test\""))), data) == Success(Str("res_object"))
      && EvalExprList(Single(KeyStr(Quoted("\"object2 test2\""))), data) == Success(Str("res_object 2"))
  {
    assert "\"object test\"" == "\"" + "object test" + "\"";
    assert "\"object2 test2\"" == "\"" + "object2 test2" + "\"";
  }

  // tests/test_jsonexplorer.py:49-56
  lemma KeyIntIndex()
    ensures var data := Arr([Str("a"), Str("b")]);
      && EvalExprList(Single(KeyIdx(Int(0))), data) == Success(Str("a"))
      && EvalExprList(Single(KeyIdx(Int(1))), data) == Success(Str("b"))
  {
  }

  // tests/test_jsonexplorer.py:58-65
  lemma KeyIntWildcard()
    ensures EvalExprList(Single(KeyIdx(Wildcard)), Arr([Str("a"), Str("b")])) == Success(Arr([Str("a"), Str("b")]))
  {
  }

  // tests/test_jsonexplorer.py:67-76
  lemma ChainOfKeys()
    ensures var data := Obj(map["object" := Obj(map["name" := Str("toto"), "value" := Num(2)])]);
      && EvalExprList(ListReq(Key("object"), Some(Single(Key("name")))), data) == Success(Str("toto"))
      && EvalExprList(ListReq(Key("object"), Some(Single(Key("value")))), data) == Success(Num(2))
  {
  }

  const Toto := Obj(map["name" := Str("toto"), "value" := Num(2), "second" := Num(3), "last name" := Str("toto last")])

  // tests/test_jsonexplorer.py:78-90
  lemma GroupAfterKey()
    ensures var data := Obj(map["object" := Toto]);
            var lastName := Single(KeyStr(Quoted("\"last name\"")));
      && EvalExprList(ListReq(Key("object"), Some(List(Key("name"), [Single(Key("value"))]))), data)
           == Success(Arr([Str("toto"), Num(2)]))
      && EvalExprList(ListReq(Key("object"), Some(List(Key("name"), [lastName]))), data)
           == Success(Arr([Str("toto"), Str("toto last")]))
      && EvalExprList(ListReq(Key("object"), Some(List(Key("name"), [lastName, Single(Key("value"))]))), data)
           == Success(Arr([Str("toto"), Str("toto last"), Num(2)]))
  {
    var data := Obj(map["object" := Toto]);
    var lastName := Single(KeyStr(Quoted("\"last name\"")));
    assert "\"last name\"" == "\"" + "last name" + "\"";
    assert EvalExprList(lastName, Toto) == Success(Str("toto last"));
    GroupValues(Key("name"), [Single(Key("value"))], Toto, [Str("toto"), Num(2)]);
    GroupValues(Key("name"), [lastName], Toto, [Str("toto"), Str("toto last")]);
    GroupValues(Key("name"), [lastName, Single(Key("value"))], Toto, [Str("toto"), Str("toto last"), Num(2)]);
    Semantics.ChainAfterNormal(Key("object"), List(Key("name"), [Single(Key("value"))]), data, Toto);
    Semantics.ChainAfterNormal(Key("object"), List(Key("name"), [lastName]), data, Toto);
    Semantics.ChainAfterNormal(Key("object"), List(Key("name"), [lastName, Single(Key("value"))]), data, Toto);
  }

  const A := Obj(map["name" := Str("a"), "last_name" := Str("alast")])
  const B := Obj(map["name" := Str("b"), "last_name" := Str("blast")])

  // tests/test_jsonexplorer.py:92-107
  lemma GroupAfterWildcardOrIndex()
    ensures var data := Obj(map["object" := Arr([A, B])]);
            var group := List(Key("name"), [Single(Key("last_name"))]);
      && EvalExprList(ListReq(Key("object"), Some(ListReq(KeyIdx(Wildcard), Some(group)))), data)
           == Success(Arr([Arr([Str("a"), Str("alast")]), Arr([Str("b"), Str("blast")])]))
      && EvalExprList(ListReq(Key("object"), Some(ListReq(KeyIdx(Int(0)), Some(group)))), data)
           == Success(Arr([Str("a"), Str("alast")]))
  {
    var data := Obj(map["object" := Arr([A, B])]);
    var group := List(Key("name"), [Single(Key("last_name"))]);
    GroupValues(Key("name"), [Single(Key("last_name"))], A, [Str("a"), Str("alast")]);
    GroupValues(Key("name"), [Single(Key("last_name"))], B, [Str("b"), Str("blast")]);
    FanOutValues(group, [A, B], [Arr([Str("a"), Str("alast")]), Arr([Str("b"), Str("blast")])]);
    Semantics.ChainAfterNormal(Key("object"), ListReq(KeyIdx(Wildcard), Some(group)), data, Arr([A, B]));
    Semantics.ChainAfterNormal(KeyIdx(Int(0)), group, Arr([A, B]), A);
    Semantics.ChainAfterNormal(Key("object"), ListReq(KeyIdx(Int(0)), Some(group)), data, Arr([A, B]));
  }

  const A2 := Obj(map["name" := Str("a"), "last_name" := Str("alast"),
                      "extra" := Obj(map["value" := Num(0), "date" := Str("01/01")])])
  const B2 := Obj(map["name" := Str("b"), "last_name" := Str("blast"),
                      "extra" := Obj(map["value" := Num(1), "date" := Str("06/06")])])

  /** `extra.<field>` on the two objects of the last test. */
  lemma ExtraFields()
    ensures EvalExprList(Extra("value"), A2) == Success(Num(0))
    ensures EvalExprList(Extra("value"), B2) == Success(Num(1))
    ensures EvalExprList(Extra("date"), A2) == Success(Str("01/01"))
  {
    var ea := Obj(map["value" := Num(0), "date" := Str("01/01")]);
    var eb := Obj(map["value" := Num(1), "date" := Str("06/06")]);
    Semantics.ChainAfterNormal(Key("extra"), Single(Key("value")), A2, ea);
    Semantics.ChainAfterNormal(Key("extra"), Single(Key("value")), B2, eb);
    Semantics.ChainAfterNormal(Key("extra"), Single(Key("date")), A2, ea);
  }

  // tests/test_jsonexplorer.py:109-131
  lemma NestedChainInGroupWildcard()
    ensures EvalExprList(ListReq(Key("object"), Some(ListReq(KeyIdx(Wildcard),
              Some(List(Key("name"), [Extra("value")]))))), Obj(map["object" := Arr([A2, B2])]))
         == Success(Arr([Arr([Str("a"), Num(0)]), Arr([Str("b"), Num(1)])]))
  {
    var g := List(Key("name"), [Extra("value")]);
    ExtraFields();
    GroupValues(Key("name"), [Extra("value")], A2, [Str("a"), Num(0)]);
    GroupValues(Key("name"), [Extra("value")], B2, [Str("b"), Num(1)]);
    FanOutValues(g, [A2, B2], [Arr([Str("a"), Num(0)]), Arr([Str("b"), Num(1)])]);
    Semantics.ChainAfterNormal(Key("object"), ListReq(KeyIdx(Wildcard), Some(g)),
                               Obj(map["object" := Arr([A2, B2])]), Arr([A2, B2]));
  }

  // tests/test_jsonexplorer.py:109-130, 132
  lemma NestedChainInGroupIndex()
    ensures EvalExprList(ListReq(Key("object"), Some(ListReq(KeyIdx(Int(0)),
              Some(List(Key("name"), [Extra("value"), Extra("date")]))))), Obj(map["object" := Arr([A2, B2])]))
         == Success(Arr([Str("a"), Num(0), Str("01/01")]))
  {
    var g := List(Key("name"), [Extra("value"), Extra("date")]);
    ExtraFields();
    GroupValues(Key("name"), [Extra("value"), Extra("date")], A2, [Str("a"), Num(0), Str("01/01")]);
    Semantics.ChainAfterNormal(KeyIdx(Int(0)), g, Arr([A2, B2]), A2);
    Semantics.ChainAfterNormal(Key("object"), ListReq(KeyIdx(Int(0)), Some(g)),
                               Obj(map["object" := Arr([A2, B2])]), Arr([A2, B2]));
  }

  /** A key looked up in a number is a type error. */
  lemma KeyOnNumberFails()
    ensures EvalExprList(ListReq(Key("object"), Some(Single(Key("bad")))), Obj(map["object" := Num(5)]))
         == Failure(TypeLookup(Num(5)))
  {
  }
}
