/**
 Expressions as text. A written expression, its tokens spelled out with a space before
 each, is lexed into the same tokens and parsed into the same expression.
 */
module FilterText {
  import opened Common
  import opened FilterAst
  import opened FilterLexer
  import opened FilterGrammar
  import opened FilterWriter

  function SpellOp(op: CmpOp): string {
    match op
    case Eq => "=="
    case Ne => "!="
    case Lt => "<"
    case Gt => ">"
    case Le => "<="
    case Ge => ">="
    case Match => "=~"
    case NMatch => "!~"
  }

  function Spell(t: Token): string {
    match t
    case CmpTok(op) => SpellOp(op)
    case InTok => "IN"
    case AndTok => "AND"
    case OrTok => "OR"
    case NotTok => "NOT"
    case FieldTok(name) => name
    case StringTok(s) =>
      var quote := if Quotable(s, '"') then '"' else '\'';
      [quote] + s + [quote]
    case NumberTok(d) => d
    case LParen => "("
    case RParen => ")"
    case LBracket => "["
    case RBracket => "]"
    case Comma => ","
    case Eof => ""
    case Error => ""
  }

  /** Tokens that have a spelling: names that are identifiers and no keyword, digits, and
      string texts that one kind of quote can hold. */
  predicate Spellable(t: Token) {
    match t
    case FieldTok(name) =>
      && name != [] && (IsAlpha(name[0]) || name[0] == '_')
      && (forall i :: 0 <= i < |name| ==> IsIdent(name[i]))
      && Word(name) == t
    case StringTok(s) => Quotable(s, '"') || Quotable(s, '\'')
    case NumberTok(d) => d != [] && forall i :: 0 <= i < |d| ==> IsDigit(d[i])
    case _ => !Final(t)
  }

  function Render(ts: seq<Token>): string {
    if ts == [] then "" else [' '] + Spell(ts[0]) + Render(ts[1..])
  }

  // ----- lexing a rendered text -----

  /** part occurs in input at pos. */
  ghost predicate TextAt(input: string, pos: nat, part: string) {
    pos + |part| <= |input| && input[pos..pos + |part|] == part
  }

  lemma TextChars(input: string, pos: nat, part: string)
    requires TextAt(input, pos, part)
    ensures forall i :: 0 <= i < |part| ==> input[pos + i] == part[i]
  {
    assert forall i :: 0 <= i < |part| ==> input[pos..pos + |part|][i] == part[i];
  }

  /** The space or end of text that follows a rendered token. */
  predicate Stops(c: char) {
    c == ' ' || c == '\0'
  }

  /** The scan at s finds t and ends at end. */
  ghost predicate LexesTo(input: string, s: nat, t: Token, end: nat) {
    s < |input| && input[s] != '\0' && LexAt(input, s) == Lexed(t, s, end)
  }

  lemma LexOperator(input: string, s: nat, op: CmpOp)
    requires TextAt(input, s, SpellOp(op)) && Stops(Peek(input, s + |SpellOp(op)|))
    ensures LexesTo(input, s, CmpTok(op), s + |SpellOp(op)|)
  {
    hide StringScan, IdentEnd, DigitsEnd, Word;
    TextChars(input, s, SpellOp(op));
    assert input[s + 0] == SpellOp(op)[0];
    if |SpellOp(op)| == 2 {
      assert input[s + 1] == SpellOp(op)[1];
    }
  }

  lemma LexPunctuation(input: string, s: nat, t: Token)
    requires t in {LParen, RParen, LBracket, RBracket, Comma}
    requires TextAt(input, s, Spell(t))
    ensures LexesTo(input, s, t, s + 1)
  {
    hide StringScan, IdentEnd, DigitsEnd, Word;
    TextChars(input, s, Spell(t));
    assert input[s + 0] == Spell(t)[0];
  }

  lemma {:induction false} IdentEndAt(input: string, s: nat, end: nat)
    requires s <= end <= |input| && !IsIdent(Peek(input, end))
    requires forall i :: s <= i < end ==> IsIdent(input[i])
    ensures IdentEnd(input, s) == end
    decreases end - s
  {
    if s < end {
      IdentEndAt(input, s + 1, end);
    }
  }

  lemma {:induction false} DigitsEndAt(input: string, s: nat, end: nat)
    requires s <= end <= |input| && !IsDigit(Peek(input, end))
    requires forall i :: s <= i < end ==> IsDigit(input[i])
    ensures DigitsEnd(input, s) == end
    decreases end - s
  {
    if s < end {
      DigitsEndAt(input, s + 1, end);
    }
  }

  lemma LexWord(input: string, s: nat, name: string)
    requires name != [] && (IsAlpha(name[0]) || name[0] == '_')
    requires forall i :: 0 <= i < |name| ==> IsIdent(name[i])
    requires TextAt(input, s, name) && Stops(Peek(input, s + |name|))
    ensures LexesTo(input, s, Word(name), s + |name|)
  {
    hide StringScan, DigitsEnd, Word;
    TextChars(input, s, name);
    assert forall i :: s <= i < s + |name| ==> input[i] == name[i - s];
    IdentEndAt(input, s, s + |name|);
  }

  lemma LexNumber(input: string, s: nat, digits: string)
    requires digits != [] && forall i :: 0 <= i < |digits| ==> IsDigit(digits[i])
    requires TextAt(input, s, digits) && Stops(Peek(input, s + |digits|))
    ensures LexesTo(input, s, NumberTok(digits), s + |digits|)
  {
    hide StringScan, IdentEnd, Word;
    TextChars(input, s, digits);
    assert forall i :: s <= i < s + |digits| ==> input[i] == digits[i - s];
    DigitsEndAt(input, s, s + |digits|);
  }

  lemma LexString(input: string, s: nat, text: string)
    requires Spellable(StringTok(text))
    requires TextAt(input, s, Spell(StringTok(text)))
    ensures LexesTo(input, s, StringTok(text), s + |text| + 2)
  {
    var spelled := Spell(StringTok(text));
    TextChars(input, s, spelled);
    assert input[s + 1..s + 1 + |text|] == spelled[1..1 + |text|] == text;
    LiteralReadBack(input, s, text);
  }

  lemma Keywords()
    ensures Word("AND") == AndTok && Word("OR") == OrTok && Word("NOT") == NotTok && Word("IN") == InTok
  {
    assert Lower("NOT"[0]) != Lower("AND"[0]);
    assert Lower("IN"[0]) != Lower("OR"[0]);
  }

  lemma LexSpelled(input: string, s: nat, t: Token)
    requires Spellable(t) && TextAt(input, s, Spell(t)) && Stops(Peek(input, s + |Spell(t)|))
    ensures LexesTo(input, s, t, s + |Spell(t)|)
  {
    hide LexAt, Word, SpellOp;
    Keywords();
    match t
    case CmpTok(op) => LexOperator(input, s, op);
    case InTok => LexWord(input, s, "IN");
    case AndTok => LexWord(input, s, "AND");
    case OrTok => LexWord(input, s, "OR");
    case NotTok => LexWord(input, s, "NOT");
    case FieldTok(name) => LexWord(input, s, name);
    case StringTok(text) => LexString(input, s, text);
    case NumberTok(d) => LexNumber(input, s, d);
    case _ => LexPunctuation(input, s, t);
  }

  lemma SpellStarts(t: Token)
    requires Spellable(t)
    ensures Spell(t) != [] && !IsSpace(Spell(t)[0]) && Spell(t)[0] != '\0'
  {
  }

  /** The first token of a rendering, read from the space before it. */
  lemma LexRendered(input: string, pos: nat, t: Token, tail: string)
    requires pos <= |input| && input[pos..] == [' '] + Spell(t) + tail
    requires Spellable(t) && Stops(Peek(input, pos + 1 + |Spell(t)|))
    ensures Lex(input, pos) == Lexed(t, pos + 1, pos + 1 + |Spell(t)|)
    ensures input[pos + 1 + |Spell(t)|..] == tail
  {
    hide LexAt, Spellable, Spell;
    var word := Spell(t);
    var s := pos + 1;
    assert input[pos] == input[pos..][0] == ' ';
    assert input[s..s + |word|] == input[pos..][1..1 + |word|] == word;
    assert input[s + |word|..] == input[pos..][1 + |word|..] == tail;
    LexSpelled(input, s, t);
    SpellStarts(t);
    assert input[s] == input[s..s + |word|][0] == word[0];
    assert SpaceEnd(input, pos) == s;
  }

  /** Lexing the rendering of tokens gives the tokens and the end of the text. */
  lemma {:induction false} StreamRendered(input: string, pos: nat, ts: seq<Token>)
    requires pos <= |input| && input[pos..] == Render(ts)
    requires forall t | t in ts :: Spellable(t)
    ensures Tokens(Stream(input, pos)) == ts + [Eof]
    decreases |ts|
  {
    hide Lex, Spellable, Spell;
    if ts == [] {
      LexEnd(input, pos);
    } else {
      var t, tail := ts[0], Render(ts[1..]);
      var end := pos + 1 + |Spell(t)|;
      assert input[end..] == input[pos..][end - pos..] == tail;
      RenderStarts(input, end, ts[1..]);
      LexRendered(input, pos, t, tail);
      assert !Final(t) by {
        SpellableToken(t);
      }
      StreamRendered(input, end, ts[1..]);
      assert ts == [t] + ts[1..];
    }
  }

  lemma LexEnd(input: string, pos: nat)
    requires pos == |input|
    ensures Lex(input, pos) == Lexed(Eof, pos, pos)
  {
  }

  lemma SpellableToken(t: Token)
    requires Spellable(t)
    ensures !Final(t)
  {
  }

  lemma RenderStarts(input: string, pos: nat, ts: seq<Token>)
    requires pos <= |input| && input[pos..] == Render(ts)
    ensures Stops(Peek(input, pos))
  {
    if ts != [] {
      assert input[pos] == input[pos..][0];
    }
  }

  // ----- from expression to text and back -----

  /** Every name and string literal of e has a spelling. */
  predicate Textual(w: Writer, e: Node) {
    match e
    case Field(f) => Spellable(FieldTok(w.nameOf(f)))
    case Str(s) => Spellable(StringTok(s))
    case Num(_) => true
    case Compare(_, l, r) => Textual(w, l) && Textual(w, r)
    case In(l, r) => Textual(w, l) && Textual(w, r)
    case And(l, r) => Textual(w, l) && Textual(w, r)
    case Or(l, r) => Textual(w, l) && Textual(w, r)
    case Not(x) => Textual(w, x)
    case List(items) => forall x | x in items :: Textual(w, x)
  }

  lemma {:induction false} BodySpellable(w: Writer, e: Node)
    requires Textual(w, e)
    ensures forall t | t in w.Body(e) :: Spellable(t)
    decreases e, 0
  {
    match e
    case Field(_) =>
    case Str(_) =>
    case Num(_) =>
    case Compare(_, l, r) => BodySpellable(w, l); BodySpellable(w, r);
    case In(l, r) => BodySpellable(w, l); BodySpellable(w, r);
    case And(l, r) => BodySpellable(w, l); BodySpellable(w, r);
    case Or(l, r) => BodySpellable(w, l); BodySpellable(w, r);
    case Not(x) => BodySpellable(w, x);
    case List(items) => ItemsSpellable(w, items);
  }

  lemma {:induction false} ItemsSpellable(w: Writer, items: seq<Node>)
    requires forall x | x in items :: Textual(w, x)
    ensures forall t | t in w.WriteItems(items) :: Spellable(t)
    decreases items, 0
  {
    if items != [] {
      BodySpellable(w, items[0]);
      ItemsSpellable(w, items[1..]);
    }
  }

  /** The text of an expression. */
  function Text(w: Writer, e: Node): string {
    Render(w.Write(0, e))
  }

  /** Parsing the text of an expression gives back the expression. */
  lemma TextRoundTrip(g: Grammar, w: Writer, e: Node)
    requires Writable(g, w, e) && Textual(w, e)
    ensures g.Parse(Text(w, e)) == FilterExpr(Some(e), true, None)
  {
    var ts := w.Write(0, e);
    BodySpellable(w, e);
    StreamRendered(Text(w, e), 0, ts);
    RoundTrip(g, w, e);
  }
}
