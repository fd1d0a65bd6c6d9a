/**
 Why the parse methods of FilterParser follow the grammar: one lemma per production, about
 the states a method passes through.
 */
module FilterFollows {
  import opened Common
  import opened FilterAst
  import opened FilterLexer
  import opened FilterGrammar

  /** The parser's state as its parse methods see it. */
  datatype State = State(rest: seq<Lexeme>, hasError: bool, error: Option<ParseError>)

  ghost predicate Suffix(a: seq<Lexeme>, b: seq<Lexeme>) {
    |a| <= |b| && a == b[|b| - |a|..]
  }

  /** How a parse method that went from one state to another and returned node compares
      with the parse function's result r: same node, same tokens left, and the first error
      recorded at the token where the function fails. */
  ghost predicate Follows(input: string, before: State, after: State, r: Parsed, node: Option<Node>)
    requires forall l | l in before.rest :: l.position <= |input|
  {
    && Suffix(after.rest, before.rest)
    && Tokens(after.rest) == r.rest
    && match r
       case Ok(n, _) => node == Some(n) && after.hasError == before.hasError && after.error == before.error
       case Fail(c, at, _) =>
         && 0 < at <= |before.rest|
         && node == None && after.hasError
         && after.error == if before.hasError then before.error else Some(ErrorAt(input, before.rest, c, at))
  }

  ghost predicate Sound(input: string, s: State) {
    Ends(Tokens(s.rest)) && forall l | l in s.rest :: l.position <= |input|
  }

  /** b is a with its first token consumed. */
  ghost predicate Consumed(a: State, b: State) {
    a.rest != [] && b == State(a.rest[1..], a.hasError, a.error)
  }

  /** b is a with an error recorded at its first token. */
  ghost predicate Complained(input: string, a: State, b: State, c: Complaint)
    requires Sound(input, a)
  {
    b == State(a.rest, true, if a.hasError then a.error else Some(ErrorAt(input, a.rest, c, |a.rest|)))
  }

  /** b is further on than a, with no new error. */
  ghost predicate Onward(a: State, b: State) {
    Suffix(b.rest, a.rest) && b.hasError == a.hasError && b.error == a.error
  }

  lemma SuffixTrans(a: seq<Lexeme>, b: seq<Lexeme>, c: seq<Lexeme>)
    requires Suffix(a, b) && Suffix(b, c)
    ensures Suffix(a, c)
  {
    assert c[|c| - |b|..][|b| - |a|..] == c[|c| - |a|..];
  }

  lemma SuffixError(input: string, a: seq<Lexeme>, b: seq<Lexeme>, c: Complaint, left: nat)
    requires (forall l | l in a :: l.position <= |input|) && Suffix(b, a) && 0 < left <= |b|
    ensures |b| <= |a| && (forall l | l in b :: l in a) && ErrorAt(input, b, c, left) == ErrorAt(input, a, c, left)
  {
    assert b[|b| - left] == a[|a| - |b|..][|b| - left] == a[|a| - left];
  }

  lemma FollowsFrom(input: string, a: State, b: State, c: State, r: Parsed, node: Option<Node>)
    requires Sound(input, a) && Sound(input, b) && Onward(a, b)
    requires Follows(input, b, c, r, node)
    ensures Follows(input, a, c, r, node)
  {
    hide Suffix, ErrorAt;
    SuffixTrans(c.rest, b.rest, a.rest);
    if r.Fail? {
      SuffixError(input, a.rest, b.rest, r.complaint, r.at);
    }
  }

  lemma OnwardConsumed(input: string, a: State, b: State)
    requires Sound(input, a) && !Final(a.rest[0].token) && Consumed(a, b)
    ensures Sound(input, b) && Onward(a, b) && Tokens(b.rest) == Tokens(a.rest)[1..]
    ensures |b.rest| == |a.rest| - 1
  {
  }

  lemma OnwardTrans(a: State, b: State, c: State)
    requires Onward(a, b) && Onward(b, c)
    ensures Onward(a, c)
  {
  }

  lemma FollowsOnward(input: string, a: State, b: State, r: Parsed, node: Option<Node>)
    requires Sound(input, a) && Follows(input, a, b, r, node) && Ends(r.rest)
    ensures Sound(input, b)
    ensures node.Some? <==> r.Ok?
    ensures r.Ok? ==> Onward(a, b) && node == Some(r.node) && |b.rest| == |r.rest|
  {
    assert forall l | l in b.rest :: l in a.rest;
  }

  /** A result that differs only in the node it builds. */
  lemma FollowsMap(input: string, a: State, b: State, r: Parsed, r': Parsed, node: Option<Node>, node': Option<Node>)
    requires Sound(input, a) && Follows(input, a, b, r, node)
    requires r.Fail? ==> r' == r && node' == None
    requires r.Ok? ==> r'.Ok? && r'.rest == r.rest && node' == Some(r'.node)
    ensures Follows(input, a, b, r', node')
  {
  }

  // One lemma per production: the states a method passes through follow the grammar.

  lemma OperandFollows(g: Grammar, input: string, a: State, b: State)
    requires Sound(input, a) && Consumed(a, b)
    requires a.rest[0].token.FieldTok? || a.rest[0].token.StringTok? || a.rest[0].token.NumberTok?
    ensures Follows(input, a, b, g.Primary(Tokens(a.rest)), Some(Operand(g, a.rest[0].token)))
  {
    OnwardConsumed(input, a, b);
  }

  function Operand(g: Grammar, t: Token): Node
    requires t.FieldTok? || t.StringTok? || t.NumberTok?
  {
    match t
    case FieldTok(name) => Field(g.fieldOf(name))
    case StringTok(s) => Str(s)
    case NumberTok(d) => Num(Atoll(d))
  }

  lemma NoOperandFollows(g: Grammar, input: string, a: State, b: State)
    requires Sound(input, a) && Complained(input, a, b, ExpectedOperand)
    requires var t := a.rest[0].token;
             !t.FieldTok? && !t.StringTok? && !t.NumberTok? && t != LParen && t != LBracket
    ensures Follows(input, a, b, g.Primary(Tokens(a.rest)), None)
  {
  }

  lemma ParenFollows(g: Grammar, input: string, a: State, b: State, c: State, d: State, node: Option<Node>)
    requires Sound(input, a) && Consumed(a, b) && a.rest[0].token == LParen
    requires Sound(input, b) && Follows(input, b, c, g.Expr(Tokens(b.rest)), node)
    requires Sound(input, c)
    requires if c.rest[0].token == RParen then Consumed(c, d) else Complained(input, c, d, UnexpectedToken)
    ensures Follows(input, a, d, g.Primary(Tokens(a.rest)), if c.rest[0].token == RParen then node else None)
  {
    hide Grammar.Expr, Grammar.Primary, Follows, Onward, Complained;
    OnwardConsumed(input, a, b);
    var r := g.Expr(Tokens(b.rest));
    FollowsFrom(input, a, b, c, r, node);
    ParenEquation(g, Tokens(a.rest));
    FollowsRest(input, b, c, r, node);
    if c.rest[0].token == RParen {
      ClosedFollows(input, a, c, d, r, node);
    } else {
      UnclosedFollows(input, a, c, d, r, node);
    }
  }

  lemma ClosedFollows(input: string, a: State, b: State, c: State, r: Parsed, node: Option<Node>)
    requires Sound(input, a) && Sound(input, b) && Follows(input, a, b, r, node)
    requires !Final(b.rest[0].token) && Consumed(b, c)
    ensures Follows(input, a, c, match r
                                 case Ok(n, rest) => Ok(n, rest[1..])
                                 case Fail(k, at, rest) => Fail(k, at, rest[1..]), node)
  {
    OnwardConsumed(input, b, c);
    SuffixTrans(c.rest, b.rest, a.rest);
  }

  lemma UnclosedFollows(input: string, a: State, b: State, c: State, r: Parsed, node: Option<Node>)
    requires Sound(input, a) && Sound(input, b) && Follows(input, a, b, r, node)
    requires Complained(input, b, c, UnexpectedToken)
    ensures Follows(input, a, c, if r.Ok? then Fail(UnexpectedToken, |r.rest|, r.rest) else r, None)
  {
  }

  lemma ItemFollows(g: Grammar, input: string, items: seq<Node>, a: State, b: State, c: State, x: Option<Node>)
    requires Sound(input, a) && a.rest[0].token != RBracket && a.rest[0].token != Eof
    requires Sound(input, b) && Follows(input, a, b, g.Primary(Tokens(a.rest)), x)
    requires x.Some? ==> if b.rest[0].token == Comma then Consumed(b, c) else c == b
    ensures x.None? ==> Follows(input, a, b, g.Items(items, Tokens(a.rest)), None)
    ensures x.Some? ==>
              && Sound(input, c) && Onward(a, c) && |c.rest| < |a.rest|
              && g.Items(items, Tokens(a.rest)) == g.Items(items + [x.value], Tokens(c.rest))
  {
    hide Grammar.Primary;
    FollowsOnward(input, a, b, g.Primary(Tokens(a.rest)), x);
    if x.Some? && b.rest[0].token == Comma {
      OnwardConsumed(input, b, c);
      OnwardTrans(a, b, c);
    }
  }

  lemma ListEndFollows(g: Grammar, input: string, items: seq<Node>, a: State, b: State)
    requires Sound(input, a) && (a.rest[0].token == RBracket || a.rest[0].token == Eof)
    requires if a.rest[0].token == RBracket then Consumed(a, b) else Complained(input, a, b, UnexpectedToken)
    ensures Follows(input, a, b, g.Items(items, Tokens(a.rest)),
                    if a.rest[0].token == RBracket then Some(List(items)) else None)
  {
    hide Grammar.Items, ErrorAt, Suffix;
    ItemsStop(g, items, Tokens(a.rest));
    if a.rest[0].token == RBracket {
      OnwardConsumed(input, a, b);
    } else {
      SuffixSelf(a.rest);
    }
  }

  lemma ItemsStop(g: Grammar, items: seq<Node>, ts: seq<Token>)
    requires Ends(ts)
    ensures ts[0] == RBracket ==> g.Items(items, ts) == Ok(List(items), ts[1..])
    ensures ts[0] == Eof ==> g.Items(items, ts) == Fail(UnexpectedToken, |ts|, ts)
  {
    hide Grammar.Primary;
  }

  lemma SuffixSelf(a: seq<Lexeme>)
    ensures Suffix(a, a)
  {
    assert a[0..] == a;
  }

  lemma ListStarts(g: Grammar, input: string, a: State, b: State)
    requires Sound(input, a) && a.rest[0].token == LBracket && Consumed(a, b) && Sound(input, b)
    ensures Onward(a, b) && g.Primary(Tokens(a.rest)) == g.Items([], Tokens(b.rest))
  {
    hide Grammar.Items;
    OnwardConsumed(input, a, b);
  }

  /** A loop that stops has parsed what it holds. */
  lemma LoopEnds(input: string, a: State, b: State, r: Parsed, node: Node)
    requires Sound(input, a) && Onward(a, b) && r == Ok(node, Tokens(b.rest))
    ensures Follows(input, a, b, r, Some(node))
  {
  }

  lemma CmpFollows(g: Grammar, input: string, a: State, b: State, c: State, d: State, left: Node, right: Option<Node>)
    requires Sound(input, a) && Follows(input, a, b, g.Primary(Tokens(a.rest)), Some(left))
    requires Sound(input, b) && IsCmp(b.rest[0].token) && Consumed(b, c)
    requires Sound(input, c) && Follows(input, c, d, g.Primary(Tokens(c.rest)), right)
    ensures Follows(input, a, d, g.CmpExpr(Tokens(a.rest)),
                    if right.None? then None else Some(Comparison(b.rest[0].token, left, right.value)))
  {
    hide Grammar.Primary, Grammar.CmpExpr, Follows, Tokens;
    FollowsOnward(input, a, b, g.Primary(Tokens(a.rest)), Some(left));
    OnwardConsumed(input, b, c);
    OnwardTrans(a, b, c);
    var r := g.Primary(Tokens(c.rest));
    FollowsFrom(input, a, c, d, r, right);
    FollowsRest(input, a, b, g.Primary(Tokens(a.rest)), Some(left));
    CmpEquation(g, Tokens(a.rest), left, Tokens(b.rest));
    FollowsOnward(input, c, d, r, right);
    FollowsMap(input, a, d, r, g.CmpExpr(Tokens(a.rest)), right,
               if right.None? then None else Some(Comparison(b.rest[0].token, left, right.value)));
  }

  lemma FollowsRest(input: string, a: State, b: State, r: Parsed, node: Option<Node>)
    requires Sound(input, a) && Follows(input, a, b, r, node)
    ensures r.rest == Tokens(b.rest)
  {
  }

  lemma NotFollows(g: Grammar, input: string, a: State, b: State, c: State, x: Option<Node>)
    requires Sound(input, a) && a.rest[0].token == NotTok && Consumed(a, b)
    requires Sound(input, b) && Follows(input, b, c, g.NotExpr(Tokens(b.rest)), x)
    ensures Follows(input, a, c, g.NotExpr(Tokens(a.rest)), if x.None? then None else Some(Not(x.value)))
  {
    hide Grammar.NotExpr, Follows;
    OnwardConsumed(input, a, b);
    var r := g.NotExpr(Tokens(b.rest));
    FollowsFrom(input, a, b, c, r, x);
    FollowsOnward(input, b, c, r, x);
    NotEquation(g, Tokens(a.rest));
    FollowsMap(input, a, c, r, g.NotExpr(Tokens(a.rest)), x, if x.None? then None else Some(Not(x.value)));
  }

  lemma AndFollows(g: Grammar, input: string, left: Node, a: State, b: State, c: State, x: Option<Node>)
    requires Sound(input, a) && a.rest[0].token == AndTok && Consumed(a, b)
    requires Sound(input, b) && Follows(input, b, c, g.NotExpr(Tokens(b.rest)), x)
    ensures x.None? ==> Follows(input, a, c, g.AndLoop(left, Tokens(a.rest)), None)
    ensures x.Some? ==>
              && Sound(input, c) && Onward(a, c) && |c.rest| < |a.rest|
              && g.AndLoop(left, Tokens(a.rest)) == g.AndLoop(And(left, x.value), Tokens(c.rest))
  {
    hide Grammar.NotExpr, Grammar.AndLoop, Follows;
    OnwardConsumed(input, a, b);
    var r := g.NotExpr(Tokens(b.rest));
    FollowsFrom(input, a, b, c, r, x);
    FollowsOnward(input, b, c, r, x);
    FollowsRest(input, b, c, r, x);
    AndEquation(g, left, Tokens(a.rest));
    if x.Some? {
      OnwardTrans(a, b, c);
    }
  }

  lemma OrFollows(g: Grammar, input: string, left: Node, a: State, b: State, c: State, x: Option<Node>)
    requires Sound(input, a) && a.rest[0].token == OrTok && Consumed(a, b)
    requires Sound(input, b) && Follows(input, b, c, g.AndExpr(Tokens(b.rest)), x)
    ensures x.None? ==> Follows(input, a, c, g.OrLoop(left, Tokens(a.rest)), None)
    ensures x.Some? ==>
              && Sound(input, c) && Onward(a, c) && |c.rest| < |a.rest|
              && g.OrLoop(left, Tokens(a.rest)) == g.OrLoop(Or(left, x.value), Tokens(c.rest))
  {
    hide Grammar.AndExpr, Grammar.OrLoop, Follows;
    OnwardConsumed(input, a, b);
    var r := g.AndExpr(Tokens(b.rest));
    FollowsFrom(input, a, b, c, r, x);
    FollowsOnward(input, b, c, r, x);
    FollowsRest(input, b, c, r, x);
    OrEquation(g, left, Tokens(a.rest));
    if x.Some? {
      OnwardTrans(a, b, c);
    }
  }

  /** The states before and after parsing a whole text determine its result. */
  lemma ParseFollows(g: Grammar, input: string, a: State, b: State, ast: Option<Node>)
    requires a == State(Stream(input, 0), false, None)
    requires Sound(input, a) && Sound(input, b)
    requires Follows(input, a, b, g.Expr(Tokens(a.rest)), ast)
    ensures b.hasError <==> ast.None?
    ensures g.Parse(input) == if b.hasError then FilterExpr(ast, false, b.error)
                              else if b.rest[0].token != Eof then
                                FilterExpr(ast, false, Some(ErrorAt(input, b.rest, TrailingInput, |b.rest|)))
                              else FilterExpr(ast, true, None)
    ensures b.hasError ==> b.error.Some? && b.error.value.complaint != TrailingInput
  {
    hide Grammar.Expr;
    FollowsOnward(input, a, b, g.Expr(Tokens(a.rest)), ast);
  }
}
