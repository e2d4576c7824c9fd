/** The `JsonExplorer` object: the last parsed query and the last result,
    with `explore` refusing to run before a query has been parsed. */
module Explorer {
  import opened Wrappers
  import opened Json
  import opened Query
  import Evaluator
  import Flatten

  /** `parsed_key` and `parsed_result`. The result starts as Python's `None`,
      written here as `Null`. */
  datatype Explorer = Explorer(parsedKey: Option<ExprList>, parsedResult: Value)

  datatype ExploreError =
    | NotParsed
    | Lookup(cause: Evaluator.Error)

  /** The state after a call, and what the call returned or raised. */
  datatype Outcome = Outcome(after: Explorer, result: Result<Value, ExploreError>)

  /** A fresh explorer: nothing parsed, no result yet. */
  function Init(): (e: Explorer)
    ensures e.parsedKey.None? && e.parsedResult == Null
  {
    Explorer(None, Null)
  }

  /** `parse`, with the query already turned into its tree: it becomes the
      parsed key, and the last result is kept. */
  function Parse(e: Explorer, query: ExprList): (e': Explorer)
    ensures e'.parsedKey == Some(query) && e'.parsedResult == e.parsedResult
  {
    e.(parsedKey := Some(query))
  }

  /** `explore`: fails with `NotParsed` if no query was parsed; otherwise
      evaluates the parsed query on `data`. A success is stored as the last
      result; a failure leaves the explorer as it was. */
  function Explore(e: Explorer, data: Value): (o: Outcome)
    ensures e.parsedKey.None? ==> o == Outcome(e, Failure(NotParsed))
    ensures e.parsedKey.Some? ==>
              (o.result.Success? <==> Evaluator.EvalExprList(e.parsedKey.value, data).Success?)
    ensures e.parsedKey.Some? && o.result.Success? ==>
              o.result.value == Evaluator.EvalExprList(e.parsedKey.value, data).value
    ensures e.parsedKey.Some? && o.result.Failure? ==>
              o.result.error == Lookup(Evaluator.EvalExprList(e.parsedKey.value, data).error)
    ensures o.result.Success? ==> o.after == Explorer(e.parsedKey, o.result.value)
    ensures o.result.Failure? ==> o.after == e
  {
    match e.parsedKey
    case None => Outcome(e, Failure(NotParsed))
    case Some(query) =>
      match Evaluator.EvalExprList(query, data)
      case Success(v) => Outcome(e.(parsedResult := v), Success(v))
      case Failure(err) => Outcome(e, Failure(Lookup(err)))
  }

  /** `parse_and_explore`: the new query stays parsed even when its
      evaluation fails. */
  function ParseAndExplore(e: Explorer, query: ExprList, data: Value): (o: Outcome)
    ensures o.after.parsedKey == Some(query)
    ensures o.result.Success? <==> Evaluator.EvalExprList(query, data).Success?
    ensures o.result.Success? ==>
              o.result.value == Evaluator.EvalExprList(query, data).value &&
              o.after.parsedResult == o.result.value
    ensures o.result.Failure? ==> o.after.parsedResult == e.parsedResult
  {
    Explore(Parse(e, query), data)
  }

  /** `flatten_results` of the last stored result. */
  function FlattenResults(e: Explorer): (rows: seq<seq<Value>>)
    ensures e.parsedResult.Arr? ==> |rows| == |e.parsedResult.items|
    ensures !e.parsedResult.Arr? ==> rows == [[e.parsedResult]]
  {
    Flatten.FlattenResults(e.parsedResult)
  }

  /** Before any successful exploration, the rows are the single cell `None`. */
  lemma FlattenBeforeExplore(query: ExprList)
    ensures FlattenResults(Init()) == [[Null]]
    ensures FlattenResults(Parse(Init(), query)) == [[Null]]
  {
  }

  /** A parsed query can be explored against any number of documents: each
      exploration depends only on the query and the document. */
  lemma ExploreReusesQuery(e: Explorer, query: ExprList, d1: Value, d2: Value)
    ensures var o1 := ParseAndExplore(e, query, d1);
            Explore(o1.after, d2).result == ParseAndExplore(e, query, d2).result
  {
  }
}
