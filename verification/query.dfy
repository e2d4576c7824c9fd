/** The parse tree of a query. There is one constructor per alternative of the
    grammar rules `expr_list`, `expr`, `key_string` and `key_int`. */
module Query {
  import opened Wrappers

  /** key_string: a bare CNAME token, or an ESCAPED_STRING token kept as
      written, quotes included. */
  datatype KeyString = Cname(name: string) | Quoted(lexeme: string)

  /** key_int: an INT token (decimal digits, so never negative) or `*`. */
  datatype KeyInt = Int(index: nat) | Wildcard

  /** expr: one path segment. */
  datatype Expr = KeyStr(key: KeyString) | KeyIdx(idx: KeyInt)

  /** expr_list: a `.` chain (`list_req`), a `{…}` group (`list`) or a lone
      `expr`. A chain is one segment followed by an optional `.` tail, which is
      itself an expr_list, so `a.b.c` nests to the right. A group is `{`, a
      first `expr`, then further expr_list members, then `}`. */
  datatype ExprList =
    | ListReq(head: Expr, tail: Option<ExprList>)
    | List(first: Expr, rest: seq<ExprList>)
    | Single(expr: Expr)

  /** The key a quoted token looks up: the token with its first and last
      characters cut off, as a Python `[1:-1]` slice does it (so a token
      shorter than two characters gives the empty key). Escape sequences
      are not decoded. */
  function QuotedText(lexeme: string): (t: string)
    ensures |lexeme| >= 2 ==> lexeme == [lexeme[0]] + t + [lexeme[|lexeme| - 1]]
    ensures |lexeme| < 2 ==> t == ""
  {
    if |lexeme| >= 2 then lexeme[1..|lexeme| - 1] else ""
  }

  /** The object key a key_string segment looks up. */
  function KeyText(k: KeyString): string {
    match k
    case Cname(name) => name
    case Quoted(lexeme) => QuotedText(lexeme)
  }
}
