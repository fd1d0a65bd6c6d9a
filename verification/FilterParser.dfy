/**
 The lexer and parser objects of filter_parser.c: one token of look-ahead over a text, with
 running line and column, and mutually recursive parse methods that consume tokens and
 record the first error. Allocation always succeeds.
 */
module FilterParser {
  import opened Common
  import opened FilterAst
  import opened FilterLexer
  import opened FilterGrammar
  import opened FilterFollows

  class Parser {
    const g: Grammar
    const input: string
    var position: nat
    var line: nat
    var column: nat
    var current: Token
    var curPosition: nat
    var curLine: nat
    var curColumn: nat
    var hasError: bool
    var error: Option<ParseError>
    ghost var rest: seq<Lexeme>  // the tokens still to be parsed, the current one first

    constructor (g: Grammar, input: string)
      ensures this.g == g && this.input == input
      ensures Valid() && position == 0 && !hasError && error == None
    {
      this.g := g;
      this.input := input;
      position, line, column := 0, 1, 1;
      current, curPosition, curLine, curColumn := Eof, 0, 1, 1;
      hasError, error := false, None;
      rest := [Lexeme(Eof, 0)];
    }

    /** Line and column match the position, of the scan and of the token, and rest is the
        current token and all that the lexer will deliver. */
    ghost predicate Valid()
      reads this
      ensures Valid() ==> rest != [] && rest[0] == Lexeme(current, curPosition)
      ensures Valid() ==> Sound(input, Now())
    {
      && Placed()
      && rest == [Lexeme(current, curPosition)] + (if Final(current) then [] else Stream(input, position))
    }

    ghost predicate Placed()
      reads this
    {
      && position <= |input|
      && line == LineAt(input, position) && column == ColumnAt(input, position)
      && curPosition <= |input|
      && curLine == LineAt(input, curPosition) && curColumn == ColumnAt(input, curPosition)
    }

    ghost function Now(): State
      reads this
    {
      State(rest, hasError, error)
    }

    // ----- lexer -----

    method AdvanceChar() returns (c: char)
      requires Placed()
      modifies this`position, this`line, this`column
      ensures Placed()
      ensures c == Peek(input, old(position)) && position == Advance(input, old(position))
    {
      c := Peek(input, position);
      if c == '\0' {
        return;
      }
      position := position + 1;
      column := column + 1;
      if c == '\n' {
        line := line + 1;
        column := 1;
      }
    }

    method SkipWhitespace()
      requires Placed()
      modifies this`position, this`line, this`column
      ensures Placed()
      ensures position == SpaceEnd(input, old(position))
    {
      while IsSpace(Peek(input, position))
        invariant Placed()
        invariant SpaceEnd(input, position) == SpaceEnd(input, old(position))
        decreases |input| - position
      {
        var _ := AdvanceChar();
      }
    }

    method ReadIdentifier() returns (name: string)
      requires Placed()
      modifies this`position, this`line, this`column
      ensures Placed()
      ensures position == IdentEnd(input, old(position)) && name == input[old(position)..position]
    {
      var start, len := position, 0;
      while IsIdent(Peek(input, position))
        invariant Placed() && position == start + len
        invariant IdentEnd(input, position) == IdentEnd(input, old(position))
        decreases |input| - position
      {
        var _ := AdvanceChar();
        len := len + 1;
      }
      name := input[start..start + len];
    }

    method ReadNumber() returns (digits: string)
      requires Placed()
      modifies this`position, this`line, this`column
      ensures Placed()
      ensures position == DigitsEnd(input, old(position)) && digits == input[old(position)..position]
    {
      var start, len := position, 0;
      while IsDigit(Peek(input, position))
        invariant Placed() && position == start + len
        invariant DigitsEnd(input, position) == DigitsEnd(input, old(position))
        decreases |input| - position
      {
        var _ := AdvanceChar();
        len := len + 1;
      }
      digits := input[start..start + len];
    }

    method ReadString() returns (text: string)
      requires Placed()
      requires position < |input| && input[position] != '\0'
      modifies this`position, this`line, this`column
      ensures Placed()
      ensures var start := old(position) + 1;
              var scan := StringScan(input, start, input[old(position)]);
              && text == input[start..start + scan.count]
              && position == if Peek(input, scan.stop) == input[old(position)] then scan.stop + 1 else scan.stop
    {
      var quote := AdvanceChar();
      var start, len := position, 0;
      ghost var whole := StringScan(input, start, quote);
      while Peek(input, position) != quote && Peek(input, position) != '\0'
        invariant Placed() && start <= position
        invariant var s := StringScan(input, position, quote);
                  s.stop == whole.stop && s.count + len == whole.count
        decreases |input| - position
      {
        if Peek(input, position) == '\\' {
          var _ := AdvanceChar();
        }
        var _ := AdvanceChar();
        len := len + 1;
      }
      if Peek(input, position) == quote {
        var _ := AdvanceChar();
      }
      text := input[start..start + len];
    }

    method NextToken()
      requires Placed()
      modifies this
      ensures Valid()
      ensures hasError == old(hasError) && error == old(error)
      ensures rest == Stream(input, old(position))
    {
      SkipWhitespace();
      curPosition, curLine, curColumn := position, line, column;
      if Peek(input, position) == '\0' {
        current := Eof;
      } else {
        ScanToken();
      }
      rest := [Lexeme(current, curPosition)] + (if Final(current) then [] else Stream(input, position));
    }

    /** The token at the current character. */
    method ScanToken()
      requires Placed() && position < |input| && input[position] != '\0'
      modifies this`current, this`position, this`line, this`column
      ensures Placed()
      ensures var l := LexAt(input, old(position)); current == l.token && position == l.end
    {
      hide Word, StringScan, IdentEnd, DigitsEnd, Single;
      var c, d := input[position], Peek(input, position + 1);
      if Pair(c, d).Some? {
        current := CmpTok(Pair(c, d).value);
        var _ := AdvanceChar();
        var _ := AdvanceChar();
      } else if Single(c).Some? {
        current := Single(c).value;
        var _ := AdvanceChar();
      } else if c == '"' || c == '\'' {
        var text := ReadString();
        current := StringTok(text);
      } else if IsDigit(c) {
        var digits := ReadNumber();
        current := NumberTok(digits);
      } else if IsAlpha(c) || c == '_' {
        var name := ReadIdentifier();
        current := Word(name);
      } else {
        current := Error;
      }
    }

    // ----- parser -----

    /** The first error stays. */
    method SetError(c: Complaint)
      requires Valid()
      modifies this`hasError, this`error
      ensures Valid() && Sound(input, Now())
      ensures Complained(input, old(Now()), Now(), c)
    {
      if hasError {
        return;
      }
      error := Some(ParseError(c, curPosition, curLine, curColumn));
      hasError := true;
    }

    /** Step over a token that is not final. */
    method Consume()
      requires Valid() && !Final(current)
      modifies this
      ensures Valid() && Sound(input, Now())
      ensures Consumed(old(Now()), Now()) && |rest| < |old(rest)|
    {
      NextToken();
    }

    method ParsePrimary() returns (node: Option<Node>)
      requires Valid()
      modifies this
      ensures Valid() && Sound(input, Now())
      ensures Follows(input, old(Now()), Now(), g.Primary(Tokens(old(rest))), node)
      decreases |rest|, 1
    {
      hide Follows, Valid, Onward, Consumed, Tokens;
      ghost var a := Now();
      match current {
        case FieldTok(name) =>
          node := Some(Field(g.fieldOf(name)));
          Consume();
          OperandFollows(g, input, a, Now());
        case StringTok(s) =>
          node := Some(Str(s));
          Consume();
          OperandFollows(g, input, a, Now());
        case NumberTok(d) =>
          node := Some(Num(Atoll(d)));
          Consume();
          OperandFollows(g, input, a, Now());
        case LParen => node := ParseParenthesised();
        case LBracket => node := ParseList();
        case _ =>
          SetError(ExpectedOperand);
          NoOperandFollows(g, input, a, Now());
          node := None;
      }
    }

    method ParseParenthesised() returns (node: Option<Node>)
      requires Valid() && current == LParen
      modifies this
      ensures Valid() && Sound(input, Now())
      ensures Follows(input, old(Now()), Now(), g.Primary(Tokens(old(rest))), node)
      decreases |rest|, 0
    {
      hide Follows, Valid, Onward, Consumed, Tokens;
      ghost var a := Now();
      Consume();
      ghost var b := Now();
      node := ParseExpr();
      ghost var c := Now();
      if current != RParen {
        SetError(UnexpectedToken);
        ParenFollows(g, input, a, b, c, Now(), node);
        return None;
      }
      Consume();
      ParenFollows(g, input, a, b, c, Now(), node);
    }

    method ParseList() returns (node: Option<Node>)
      requires Valid() && current == LBracket
      modifies this
      ensures Valid() && Sound(input, Now())
      ensures Follows(input, old(Now()), Now(), g.Primary(Tokens(old(rest))), node)
      decreases |rest|, 0
    {
      hide Follows, Valid, Onward, Consumed, Complained, Tokens, Grammar.Items, Grammar.Primary;
      ghost var a := Now();
      Consume();
      ListStarts(g, input, a, Now());
      var items := [];
      while current != RBracket && current != Eof
        invariant Valid() && Sound(input, Now()) && Onward(a, Now()) && |rest| < |old(rest)|
        invariant g.Items(items, Tokens(rest)) == g.Primary(Tokens(old(rest)))
        decreases |rest|
      {
        ghost var b := Now();
        var x := ParsePrimary();
        ghost var c := Now();
        if x.None? {
          ItemFollows(g, input, items, b, c, c, x);
          FollowsFrom(input, a, b, c, g.Items(items, Tokens(b.rest)), None);
          return None;
        }
        if current == Comma {
          Consume();
        }
        ItemFollows(g, input, items, b, c, Now(), x);
        OnwardTrans(a, b, Now());
        items := items + [x.value];
      }
      ghost var b := Now();
      if current != RBracket {
        SetError(UnexpectedToken);
        ListEndFollows(g, input, items, b, Now());
        FollowsFrom(input, a, b, Now(), g.Items(items, Tokens(b.rest)), None);
        return None;
      }
      Consume();
      ListEndFollows(g, input, items, b, Now());
      node := Some(List(items));
      FollowsFrom(input, a, b, Now(), g.Items(items, Tokens(b.rest)), node);
    }

    method ParseCmpExpr() returns (node: Option<Node>)
      requires Valid()
      modifies this
      ensures Valid() && Sound(input, Now())
      ensures Follows(input, old(Now()), Now(), g.CmpExpr(Tokens(old(rest))), node)
      decreases |rest|, 2
    {
      hide Follows, Valid, Onward, Consumed, Tokens;
      ghost var a := Now();
      var left := ParsePrimary();
      ghost var b := Now();
      ghost var r := g.Primary(Tokens(a.rest));
      FollowsOnward(input, a, b, r, left);
      if left.None? {
        FollowsMap(input, a, b, r, g.CmpExpr(Tokens(a.rest)), left, None);
        return None;
      }
      var op := current;
      if !op.CmpTok? && !op.InTok? {
        FollowsRest(input, a, b, r, left);
        FollowsMap(input, a, b, r, g.CmpExpr(Tokens(a.rest)), left, left);
        return left;
      }
      Consume();
      ghost var c := Now();
      var right := ParsePrimary();
      CmpFollows(g, input, a, b, c, Now(), left.value, right);
      if right.None? {
        return None;
      }
      node := Some(if op.InTok? then In(left.value, right.value) else Compare(op.op, left.value, right.value));
    }

    method ParseNotExpr() returns (node: Option<Node>)
      requires Valid()
      modifies this
      ensures Valid() && Sound(input, Now())
      ensures Follows(input, old(Now()), Now(), g.NotExpr(Tokens(old(rest))), node)
      decreases |rest|, 3
    {
      hide Follows, Valid, Onward, Consumed, Tokens;
      ghost var a := Now();
      if current == NotTok {
        Consume();
        ghost var b := Now();
        var operand := ParseNotExpr();
        NotFollows(g, input, a, b, Now(), operand);
        if operand.None? {
          return None;
        }
        return Some(Not(operand.value));
      }
      node := ParseCmpExpr();
    }

    method ParseAndExpr() returns (node: Option<Node>)
      requires Valid()
      modifies this
      ensures Valid() && Sound(input, Now())
      ensures Follows(input, old(Now()), Now(), g.AndExpr(Tokens(old(rest))), node)
      decreases |rest|, 4
    {
      hide Follows, Valid, Onward, Consumed, Tokens;
      ghost var a := Now();
      ghost var r := g.AndExpr(Tokens(a.rest));
      node := ParseNotExpr();
      FollowsOnward(input, a, Now(), g.NotExpr(Tokens(a.rest)), node);
      FollowsRest(input, a, Now(), g.NotExpr(Tokens(a.rest)), node);
      if node.None? {
        return;
      }
      while current == AndTok
        invariant Valid() && Sound(input, Now()) && Onward(a, Now()) && |rest| < |old(rest)|
        invariant node.Some? && g.AndLoop(node.value, Tokens(rest)) == r
        decreases |rest|
      {
        ghost var b := Now();
        Consume();
        ghost var c := Now();
        var right := ParseNotExpr();
        AndFollows(g, input, node.value, b, c, Now(), right);
        if right.None? {
          FollowsFrom(input, a, b, Now(), r, None);
          return None;
        }
        OnwardTrans(a, b, Now());
        node := Some(And(node.value, right.value));
      }
      LoopEnds(input, a, Now(), r, node.value);
    }

    method ParseOrExpr() returns (node: Option<Node>)
      requires Valid()
      modifies this
      ensures Valid() && Sound(input, Now())
      ensures Follows(input, old(Now()), Now(), g.OrExpr(Tokens(old(rest))), node)
      decreases |rest|, 5
    {
      hide Follows, Valid, Onward, Consumed, Tokens;
      ghost var a := Now();
      ghost var r := g.OrExpr(Tokens(a.rest));
      node := ParseAndExpr();
      FollowsOnward(input, a, Now(), g.AndExpr(Tokens(a.rest)), node);
      FollowsRest(input, a, Now(), g.AndExpr(Tokens(a.rest)), node);
      if node.None? {
        return;
      }
      while current == OrTok
        invariant Valid() && Sound(input, Now()) && Onward(a, Now()) && |rest| < |old(rest)|
        invariant node.Some? && g.OrLoop(node.value, Tokens(rest)) == r
        decreases |rest|
      {
        ghost var b := Now();
        Consume();
        ghost var c := Now();
        var right := ParseAndExpr();
        OrFollows(g, input, node.value, b, c, Now(), right);
        if right.None? {
          FollowsFrom(input, a, b, Now(), r, None);
          return None;
        }
        OnwardTrans(a, b, Now());
        node := Some(Or(node.value, right.value));
      }
      LoopEnds(input, a, Now(), r, node.value);
    }

    method ParseExpr() returns (node: Option<Node>)
      requires Valid()
      modifies this
      ensures Valid() && Sound(input, Now())
      ensures Follows(input, old(Now()), Now(), g.Expr(Tokens(old(rest))), node)
      decreases |rest|, 6
    {
      hide Follows, Valid, Onward, Consumed, Tokens;
      node := ParseOrExpr();
    }
  }

  /** Parsing a text: the result is that of the grammar, with the first error at its line
      and column, and an AST exactly when parsing recorded no error. */
  method FilterParse(g: Grammar, input: string) returns (expr: FilterExpr)
    ensures expr == g.Parse(input)
    ensures expr.ast.None? <==> expr.error.Some? && expr.error.value.complaint != TrailingInput
  {
    hide Grammar.Expr, Grammar.Parse, Stream, Follows;
    var p := new Parser(g, input);
    p.NextToken();
    ghost var a := p.Now();
    var ast := p.ParseExpr();
    ParseFollows(g, input, a, p.Now(), ast);
    if p.hasError {
      expr := FilterExpr(ast, false, p.error);
    } else if p.current != Eof {
      expr := FilterExpr(ast, false, Some(ParseError(TrailingInput, p.curPosition, p.curLine, p.curColumn)));
    } else {
      expr := FilterExpr(ast, true, None);
    }
  }
}
