/** The tree-walking evaluator: each function is one `node_*` visitor of the
    original program, with its exceptions turned into `Failure` results. */
module Evaluator {
  import opened Wrappers
  import opened Json
  import opened Query

  /** The tag a single segment attaches to its result: `Normal` for a key or
      an index, `Fanout` for a wildcard, whose result is an array whose
      elements are to be continued separately. */
  datatype NodeType = Normal | Fanout

  /** Why an evaluation stopped. A key looked up in something that is not an
      object, or an index or wildcard applied to something that is not an
      array, is a `TypeLookup` carrying the value found. */
  datatype Error =
    | TypeLookup(found: Value)
    | KeyNotFound(key: string)
    | IndexOutOfRange(index: nat, length: nat)

  /** `data[key]` for a string key. */
  function Lookup(key: string, data: Value): (r: Result<Value, Error>)
    ensures r.Success? <==> data.Obj? && key in data.fields
    ensures r.Success? ==> r.value == data.fields[key]
    ensures data.Obj? && key !in data.fields ==> r == Failure(KeyNotFound(key))
    ensures !data.Obj? ==> r == Failure(TypeLookup(data))
  {
    match data
    case Obj(fields) =>
      if key in fields then Success(fields[key]) else Failure(KeyNotFound(key))
    case _ => Failure(TypeLookup(data))
  }

  /** node_string: a quoted key looks up the raw text between its quotes. */
  function EvalString(lexeme: string, data: Value): (r: Result<Value, Error>)
    ensures r.Success? <==> data.Obj? && QuotedText(lexeme) in data.fields
    ensures r.Success? ==> r.value == data.fields[QuotedText(lexeme)]
    ensures forall s :: lexeme == "\"" + s + "\"" ==> r == Lookup(s, data)
  {
    Lookup(QuotedText(lexeme), data)
  }

  /** node_key_string: an identifier or a quoted key on an object. */
  function EvalKeyString(k: KeyString, data: Value): (r: Result<(Value, NodeType), Error>)
    ensures r.Success? <==> data.Obj? && KeyText(k) in data.fields
    ensures r.Success? ==> r.value == (data.fields[KeyText(k)], Normal)
    ensures data.Obj? && KeyText(k) !in data.fields ==> r == Failure(KeyNotFound(KeyText(k)))
    ensures !data.Obj? ==> r == Failure(TypeLookup(data))
  {
    var found :=
      match k
      case Cname(name) => Lookup(name, data)
      case Quoted(lexeme) => EvalString(lexeme, data);
    match found
    case Success(v) => Success((v, Normal))
    case Failure(err) => Failure(err)
  }

  /** node_key_int: an index selects one element of an array; the wildcard
      copies all of them, in order, and tags the copy `Fanout`. */
  function EvalKeyInt(k: KeyInt, data: Value): (r: Result<(Value, NodeType), Error>)
    ensures r.Success? ==> data.Arr?
    ensures !data.Arr? ==> r == Failure(TypeLookup(data))
    ensures k.Int? ==> (r.Success? <==> data.Arr? && k.index < |data.items|)
    ensures k.Int? && r.Success? ==> r.value == (data.items[k.index], Normal)
    ensures k.Int? && data.Arr? && k.index >= |data.items| ==>
              r == Failure(IndexOutOfRange(k.index, |data.items|))
    ensures k.Wildcard? ==> (r.Success? <==> data.Arr?)
    ensures k.Wildcard? && r.Success? ==> r.value == (data, Fanout)
  {
    match data
    case Arr(items) =>
      (match k
       case Int(i) =>
         if i < |items| then Success((items[i], Normal))
         else Failure(IndexOutOfRange(i, |items|))
       case Wildcard =>
         var copy := seq(|items|, j requires 0 <= j < |items| => items[j]);
         assert copy == items;
         Success((Arr(copy), Fanout)))
    case _ => Failure(TypeLookup(data))
  }

  /** node_expr: one segment. Only the wildcard fans out, and what it passes on
      is the input array itself. */
  function EvalExpr(e: Expr, data: Value): (r: Result<(Value, NodeType), Error>)
    ensures r.Success? ==> (r.value.1 == Fanout <==> e == KeyIdx(Wildcard))
    ensures r.Success? && r.value.1 == Fanout ==> r.value.0 == data && data.Arr?
  {
    match e
    case KeyStr(k) => EvalKeyString(k, data)
    case KeyIdx(k) => EvalKeyInt(k, data)
  }

  /** node_expr_list, also the entry point (which only unwraps the `start`
      node). The tag of the alternative taken is dropped here. */
  function EvalExprList(x: ExprList, data: Value): (r: Result<Value, Error>)
    ensures x.List? && r.Success? ==> r.value.Arr? && |r.value.items| == |x.rest| + 1
    ensures x.ListReq? && x.tail.Some? && x.head == KeyIdx(Wildcard) && r.Success? ==>
              data.Arr? && r.value.Arr? && |r.value.items| == |data.items|
    decreases x, 0, 0
  {
    match x
    case ListReq(head, tail) => EvalChain(head, tail, data)
    case List(first, rest) => EvalGroup(first, rest, data)
    case Single(e) =>
      match EvalExpr(e, data)
      case Success((v, _)) => Success(v)
      case Failure(err) => Failure(err)
  }

  /** node_list_req: evaluate the head; with no tail its value is the result.
      After a `Normal` head the tail runs once on the head's value; after a
      `Fanout` head it runs once per element, the results kept in order. */
  function EvalChain(head: Expr, tail: Option<ExprList>, data: Value): (r: Result<Value, Error>)
    ensures EvalExpr(head, data).Failure? ==> r == Failure(EvalExpr(head, data).error)
    ensures tail.None? ==>
              r == (match EvalExpr(head, data)
                    case Success((v, _)) => Success(v)
                    case Failure(err) => Failure(err))
    ensures tail.Some? && EvalExpr(head, data).Success? && EvalExpr(head, data).value.1 == Fanout && r.Success? ==>
              r.value.Arr? && |r.value.items| == |EvalExpr(head, data).value.0.items|
    decreases tail, 0, 0
  {
    match EvalExpr(head, data)
    case Failure(err) => Failure(err)
    case Success((v, tag)) =>
      match tail
      case None => Success(v)
      case Some(rest) =>
        if tag == Normal then EvalExprList(rest, v)
        else
          match EvalEach(rest, v.items)
          case Success(rs) => Success(Arr(rs))
          case Failure(err) => Failure(err)
  }

  /** The fan-out of a chain: the same tail on every element, left to right;
      the first failure aborts. */
  function EvalEach(tail: ExprList, items: seq<Value>): (r: Result<seq<Value>, Error>)
    ensures r.Success? ==> |r.value| == |items|
    decreases tail, 1, |items|
  {
    if items == [] then Success([])
    else
      match EvalExprList(tail, items[0])
      case Failure(err) => Failure(err)
      case Success(v) =>
        match EvalEach(tail, items[1..])
        case Failure(err) => Failure(err)
        case Success(vs) => Success([v] + vs)
  }

  /** node_list: every member on the same input, results in declaration
      order. The first member is an `expr`, whose tag is dropped. */
  function EvalGroup(first: Expr, rest: seq<ExprList>, data: Value): (r: Result<Value, Error>)
    ensures r.Success? ==> EvalExpr(first, data).Success?
    ensures r.Success? ==>
              r.value.Arr? && |r.value.items| == |rest| + 1 &&
              r.value.items[0] == EvalExpr(first, data).value.0
    decreases rest, 1, 0
  {
    match EvalExpr(first, data)
    case Failure(err) => Failure(err)
    case Success((v, _)) =>
      match EvalMembers(rest, data)
      case Failure(err) => Failure(err)
      case Success(vs) => Success(Arr([v] + vs))
  }

  /** The members after the first of a group, left to right, each on `data`. */
  function EvalMembers(members: seq<ExprList>, data: Value): (r: Result<seq<Value>, Error>)
    ensures r.Success? ==> |r.value| == |members|
    decreases members, 0, 0
  {
    if members == [] then Success([])
    else
      match EvalExprList(members[0], data)
      case Failure(err) => Failure(err)
      case Success(v) =>
        match EvalMembers(members[1..], data)
        case Failure(err) => Failure(err)
        case Success(vs) => Success([v] + vs)
  }
}
