/**
 The recursive-descent grammar of filter_parser.c over token sequences.
 */
module FilterGrammar {
  import opened Common
  import opened FilterAst
  import opened FilterLexer

  /** Outcome of a parse function: a node and the tokens behind it, or a failure. A failure
      records how many tokens were left when the first error was seen. */
  datatype Parsed =
    | Ok(node: Node, rest: seq<Token>)
    | Fail(complaint: Complaint, at: nat, rest: seq<Token>)

  /** A token sequence as the lexer delivers it: its last token is final. */
  predicate Ends(ts: seq<Token>) {
    ts != [] && Final(ts[|ts| - 1])
  }

  function Tail(ts: seq<Token>): (r: seq<Token>)
    requires Ends(ts) && !Final(ts[0])
    ensures Ends(r) && |r| == |ts| - 1
  {
    ts[1..]
  }

  /** What every parse function keeps: success consumes a token, failure points at one. */
  predicate Within(r: Parsed, ts: seq<Token>) {
    && Ends(r.rest)
    && match r
       case Ok(_, rest) => |rest| < |ts|
       case Fail(c, at, rest) => 0 < at <= |ts| && |rest| <= |ts| && c != TrailingInput
  }

  predicate WithinLoop(r: Parsed, ts: seq<Token>) {
    && Ends(r.rest)
    && match r
       case Ok(_, rest) => |rest| <= |ts|
       case Fail(c, at, rest) => 0 < at <= |ts| && |rest| <= |ts| && c != TrailingInput
  }

  // ----- numbers -----

  const INT64_MAX := 0x7fff_ffff_ffff_ffff

  function DigitsValue(digits: string): nat
    requires forall c | c in digits :: IsDigit(c)
  {
    if digits == [] then 0 else
      var n := |digits| - 1;
      assert digits[n] in digits && IsDigit(digits[n]);
      10 * DigitsValue(digits[..n]) + (digits[n] as int - '0' as int)
  }

  /** atoll on digits: the value, held at the largest 64-bit integer. */
  function Atoll(digits: string): int {
    if forall c | c in digits :: IsDigit(c) then Min(DigitsValue(digits), INT64_MAX) else 0
  }

  function Digits(n: nat): (d: string)
    ensures d != [] && forall c | c in d :: IsDigit(c)
  {
    var last := [('0' as int + n % 10) as char];
    if n < 10 then last else Digits(n / 10) + last
  }

  lemma {:induction false} DigitsRoundTrip(n: nat)
    ensures DigitsValue(Digits(n)) == n
  {
    var last := [('0' as int + n % 10) as char];
    if n < 10 {
      assert last[..0] == [];
    } else {
      DigitsRoundTrip(n / 10);
      assert (Digits(n / 10) + last)[..|Digits(n / 10)|] == Digits(n / 10);
    }
  }

  // ----- parsing -----

  predicate IsCmp(t: Token) {
    t.CmpTok? || t.InTok?
  }

  function Comparison(t: Token, l: Node, r: Node): Node
    requires IsCmp(t)
  {
    if t.InTok? then In(l, r) else Compare(t.op, l, r)
  }

  /** The grammar depends on nothing but the meaning of field names. */
  datatype Grammar = Grammar(fieldOf: string -> FieldId) {

    function Primary(ts: seq<Token>): (r: Parsed)
      requires Ends(ts)
      ensures Within(r, ts)
      decreases |ts|, 0
    {
      match ts[0]
      case FieldTok(name) => Ok(Field(fieldOf(name)), Tail(ts))
      case StringTok(s) => Ok(Str(s), Tail(ts))
      case NumberTok(d) => Ok(Num(Atoll(d)), Tail(ts))
      case LParen =>
        (match Expr(Tail(ts))
         case Ok(n, r) => if r[0] == RParen then Ok(n, Tail(r)) else Fail(UnexpectedToken, |r|, r)
         case Fail(c, at, r) => Fail(c, at, if r[0] == RParen then Tail(r) else r))
      case LBracket => Items([], Tail(ts))
      case _ => Fail(ExpectedOperand, |ts|, ts)
    }

    /** List items up to the closing bracket; a comma after an item is optional. */
    function Items(sofar: seq<Node>, ts: seq<Token>): (r: Parsed)
      requires Ends(ts)
      ensures WithinLoop(r, ts)
      decreases |ts|, 1
    {
      if ts[0] == RBracket then Ok(List(sofar), Tail(ts))
      else if ts[0] == Eof then Fail(UnexpectedToken, |ts|, ts)
      else
        match Primary(ts)
        case Ok(n, r) => Items(sofar + [n], if r[0] == Comma then Tail(r) else r)
        case Fail(c, at, r) => Fail(c, at, r)
    }

    function CmpExpr(ts: seq<Token>): (r: Parsed)
      requires Ends(ts)
      ensures Within(r, ts)
      decreases |ts|, 2
    {
      match Primary(ts)
      case Fail(c, at, r) => Fail(c, at, r)
      case Ok(left, r) =>
        if !IsCmp(r[0]) then Ok(left, r)
        else
          match Primary(Tail(r))
          case Fail(c, at, r2) => Fail(c, at, r2)
          case Ok(right, r2) =>
            Ok(Comparison(r[0], left, right), r2)
    }

    function NotExpr(ts: seq<Token>): (r: Parsed)
      requires Ends(ts)
      ensures Within(r, ts)
      decreases |ts|, 3
    {
      if ts[0] != NotTok then CmpExpr(ts)
      else
        match NotExpr(Tail(ts))
        case Ok(n, r) => Ok(Not(n), r)
        case Fail(c, at, r) => Fail(c, at, r)
    }

    function AndExpr(ts: seq<Token>): (r: Parsed)
      requires Ends(ts)
      ensures Within(r, ts)
      decreases |ts|, 4
    {
      match NotExpr(ts)
      case Ok(left, r) => AndLoop(left, r)
      case Fail(c, at, r) => Fail(c, at, r)
    }

    function AndLoop(left: Node, ts: seq<Token>): (r: Parsed)
      requires Ends(ts)
      ensures WithinLoop(r, ts)
      decreases |ts|, 4
    {
      if ts[0] != AndTok then Ok(left, ts)
      else
        match NotExpr(Tail(ts))
        case Ok(right, r) => AndLoop(And(left, right), r)
        case Fail(c, at, r) => Fail(c, at, r)
    }

    function OrExpr(ts: seq<Token>): (r: Parsed)
      requires Ends(ts)
      ensures Within(r, ts)
      decreases |ts|, 5
    {
      match AndExpr(ts)
      case Ok(left, r) => OrLoop(left, r)
      case Fail(c, at, r) => Fail(c, at, r)
    }

    function OrLoop(left: Node, ts: seq<Token>): (r: Parsed)
      requires Ends(ts)
      ensures WithinLoop(r, ts)
      decreases |ts|, 5
    {
      if ts[0] != OrTok then Ok(left, ts)
      else
        match AndExpr(Tail(ts))
        case Ok(right, r) => OrLoop(Or(left, right), r)
        case Fail(c, at, r) => Fail(c, at, r)
    }

    function Expr(ts: seq<Token>): (r: Parsed)
      requires Ends(ts)
      ensures Within(r, ts)
      decreases |ts|, 6
    {
      OrExpr(ts)
    }

    /** Parsing a whole text. An error seen while parsing comes first; then a token left
        over behind the expression. */
    function Parse(input: string): (r: FilterExpr)
      ensures r.valid <==> r.error.None?
      ensures r.valid ==> r.ast.Some?
    {
      var stream := Stream(input, 0);
      match Expr(Tokens(stream))
      case Ok(n, rest) =>
        if rest[0] == Eof then FilterExpr(Some(n), true, None)
        else FilterExpr(Some(n), false, Some(ErrorAt(input, stream, TrailingInput, |rest|)))
      case Fail(c, at, _) => FilterExpr(None, false, Some(ErrorAt(input, stream, c, at)))
    }
  }

  /** The error for the token of the stream with the given number of tokens left. */
  function ErrorAt(input: string, stream: seq<Lexeme>, c: Complaint, left: nat): ParseError
    requires forall l | l in stream :: l.position <= |input|
    requires 0 < left <= |stream|
  {
    var p := stream[|stream| - left].position;
    ParseError(c, p, LineAt(input, p), ColumnAt(input, p))
  }

  // ----- the productions one step at a time -----

  lemma ParenEquation(g: Grammar, ts: seq<Token>)
    requires Ends(ts) && ts[0] == LParen
    ensures g.Primary(ts) == match g.Expr(ts[1..])
                             case Ok(n, r) => if r[0] == RParen then Ok(n, r[1..]) else Fail(UnexpectedToken, |r|, r)
                             case Fail(c, at, r) => Fail(c, at, if r[0] == RParen then r[1..] else r)
  {
    hide Grammar.Expr;
  }

  lemma ListEquation(g: Grammar, ts: seq<Token>)
    requires Ends(ts)
    ensures g.Primary([LBracket] + ts) == g.Items([], ts)
  {
    hide Grammar.Items, Grammar.Primary;
    var all := [LBracket] + ts;
    assert all[0] == LBracket && all[1..] == ts;
    BracketFirst(g, all);
  }

  lemma BracketFirst(g: Grammar, ts: seq<Token>)
    requires Ends(ts) && ts[0] == LBracket
    ensures g.Primary(ts) == g.Items([], ts[1..])
  {
    hide Grammar.Items, Grammar.Expr;
  }

  lemma ItemsEquation(g: Grammar, sofar: seq<Node>, ts: seq<Token>, x: Node, next: seq<Token>)
    requires Ends(ts) && ts[0] != RBracket && ts[0] != Eof && g.Primary(ts) == Ok(x, next)
    ensures g.Items(sofar, ts) == g.Items(sofar + [x], if next[0] == Comma then next[1..] else next)
  {
    hide Grammar.Primary;
  }

  lemma CmpEquation(g: Grammar, ts: seq<Token>, left: Node, rest: seq<Token>)
    requires Ends(ts) && g.Primary(ts) == Ok(left, rest) && IsCmp(rest[0])
    ensures g.CmpExpr(ts) == match g.Primary(rest[1..])
                             case Ok(right, r) => Ok(Comparison(rest[0], left, right), r)
                             case Fail(c, at, r) => Fail(c, at, r)
  {
    hide Grammar.Primary;
  }

  lemma NotEquation(g: Grammar, ts: seq<Token>)
    requires Ends(ts) && ts[0] == NotTok
    ensures g.NotExpr(ts) == match g.NotExpr(ts[1..])
                             case Ok(n, r) => Ok(Not(n), r)
                             case Fail(c, at, r) => Fail(c, at, r)
  {
  }

  lemma AndEquation(g: Grammar, left: Node, ts: seq<Token>)
    requires Ends(ts) && ts[0] == AndTok
    ensures var m := g.NotExpr(ts[1..]);
            && (m.Ok? ==> g.AndLoop(left, ts) == g.AndLoop(And(left, m.node), m.rest))
            && (m.Fail? ==> g.AndLoop(left, ts) == m)
  {
    hide Grammar.NotExpr;
  }

  lemma OrEquation(g: Grammar, left: Node, ts: seq<Token>)
    requires Ends(ts) && ts[0] == OrTok
    ensures var m := g.AndExpr(ts[1..]);
            && (m.Ok? ==> g.OrLoop(left, ts) == g.OrLoop(Or(left, m.node), m.rest))
            && (m.Fail? ==> g.OrLoop(left, ts) == m)
  {
    hide Grammar.AndExpr;
  }
}
