/**
 The canonical way of writing an expression as tokens, with parentheses only where
 precedence needs them. Parsing undoes writing.
 */
module FilterWriter {
  import opened FilterAst
  import opened FilterDerivation
  import opened FilterGrammar
  import opened FilterLexer

  /** Binding strength of the operator at the root: OR 0, AND 1, NOT 2, comparison 3,
      operand 4. */
  function LevelOf(e: Node): nat {
    match e
    case Or(_, _) => 0
    case And(_, _) => 1
    case Not(_) => 2
    case Compare(_, _, _) => 3
    case In(_, _) => 3
    case _ => 4
  }

  datatype Writer = Writer(nameOf: FieldId -> string) {

    /** The tokens of e, in parentheses only where its operator binds too weakly. */
    function Write(level: nat, e: Node): (ts: seq<Token>)
      ensures ts != []
      decreases e, 1
    {
      if LevelOf(e) < level then [LParen] + Body(e) + [RParen] else Body(e)
    }

    function Body(e: Node): (ts: seq<Token>)
      ensures ts != []
      decreases e, 0
    {
      match e
      case Field(f) => [FieldTok(nameOf(f))]
      case Str(s) => [StringTok(s)]
      case Num(n) => [NumberTok(Digits(if n < 0 then 0 else n))]
      case Compare(op, l, r) => Write(4, l) + ([CmpTok(op)] + Write(4, r))
      case In(l, r) => Write(4, l) + ([InTok] + Write(4, r))
      case Not(x) => [NotTok] + Write(2, x)
      case And(l, r) => Write(1, l) + ([AndTok] + Write(2, r))
      case Or(l, r) => Write(0, l) + ([OrTok] + Write(1, r))
      case List(items) => [LBracket] + (WriteItems(items) + [RBracket])
    }

    function WriteItems(items: seq<Node>): seq<Token>
      decreases items, 0
    {
      if items == [] then []
      else if |items| == 1 then Write(4, items[0])
      else Write(4, items[0]) + ([Comma] + WriteItems(items[1..]))
    }
  }

  /** Expressions that have a text: numbers a literal can hold, and field names that are
      read back as their field. */
  predicate Writable(g: Grammar, w: Writer, e: Node) {
    match e
    case Field(f) => g.fieldOf(w.nameOf(f)) == f
    case Str(_) => true
    case Num(n) => 0 <= n <= INT64_MAX
    case Compare(_, l, r) => Writable(g, w, l) && Writable(g, w, r)
    case In(l, r) => Writable(g, w, l) && Writable(g, w, r)
    case And(l, r) => Writable(g, w, l) && Writable(g, w, r)
    case Or(l, r) => Writable(g, w, l) && Writable(g, w, r)
    case Not(x) => Writable(g, w, x)
    case List(items) => forall x | x in items :: Writable(g, w, x)
  }

  // ----- the derivation behind the writing -----

  function Canon(w: Writer, level: nat, e: Node): (d: Derivation)
    decreases e, 1
  {
    if LevelOf(e) < level then Paren(CanonBody(w, e)) else CanonBody(w, e)
  }

  function CanonBody(w: Writer, e: Node): (d: Derivation)
    ensures Rank(d) == LevelOf(e)
    decreases e, 0
  {
    match e
    case Field(f) => FieldLeaf(w.nameOf(f))
    case Str(s) => StrLeaf(s)
    case Num(n) => NumLeaf(Digits(if n < 0 then 0 else n))
    case Compare(op, l, r) => CmpPair(CmpTok(op), Canon(w, 4, l), Canon(w, 4, r))
    case In(l, r) => CmpPair(InTok, Canon(w, 4, l), Canon(w, 4, r))
    case Not(x) => NotOf(Canon(w, 2, x))
    case And(l, r) => AndPair(Canon(w, 1, l), Canon(w, 2, r))
    case Or(l, r) => OrPair(Canon(w, 0, l), Canon(w, 1, r))
    case List(items) => Bracket(CanonItems(w, items))
  }

  function CanonItems(w: Writer, items: seq<Node>): (r: seq<Item>)
    decreases items, 0
  {
    if items == [] then []
    else [Item(Canon(w, 4, items[0]), |items| > 1)] + CanonItems(w, items[1..])
  }

  /** What is written is what a derivation of the expression yields. */
  lemma {:induction false} CanonDerives(g: Grammar, w: Writer, level: nat, e: Node)
    requires level <= 4 && Writable(g, w, e)
    ensures Derives(g, Canon(w, level, e), w.Write(level, e), e) && Rank(Canon(w, level, e)) >= level
    decreases e, 1
  {
    hide CanonBody, Writer.Body;
    CanonBodyDerives(g, w, e);
  }

  lemma {:induction false} CanonBodyDerives(g: Grammar, w: Writer, e: Node)
    requires Writable(g, w, e)
    ensures Derives(g, CanonBody(w, e), w.Body(e), e)
    decreases e, 0
  {
    hide Canon, Writer.Write, CanonItems, Writer.WriteItems;
    match e
    case Field(_) =>
    case Str(_) =>
    case Num(n) => DigitsRoundTrip(n);
    case Compare(_, l, r) => CanonDerives(g, w, 4, l); CanonDerives(g, w, 4, r);
    case In(l, r) => CanonDerives(g, w, 4, l); CanonDerives(g, w, 4, r);
    case Not(x) => CanonDerives(g, w, 2, x);
    case And(l, r) => CanonDerives(g, w, 1, l); CanonDerives(g, w, 2, r);
    case Or(l, r) => CanonDerives(g, w, 0, l); CanonDerives(g, w, 1, r);
    case List(items) => CanonItemsDerive(g, w, items);
  }

  lemma {:induction false} CanonItemsDerive(g: Grammar, w: Writer, items: seq<Node>)
    requires forall x | x in items :: Writable(g, w, x)
    ensures var ds := CanonItems(w, items);
            && (forall i | i in ds :: Formed(i.value) && Rank(i.value) == 4)
            && YieldItems(ds) == w.WriteItems(items) && Trees(g, ds) == items
    decreases items, 0
  {
    hide Canon, Writer.Write, Yield, Tree;
    if items != [] {
      CanonDerives(g, w, 4, items[0]);
      CanonItemsDerive(g, w, items[1..]);
      var ds := CanonItems(w, items);
      assert ds[1..] == CanonItems(w, items[1..]);
    }
  }

  /** Parsing undoes writing: every expression, written with parentheses only where
      precedence needs them, parses back to itself and leaves no token. */
  lemma RoundTrip(g: Grammar, w: Writer, e: Node)
    requires Writable(g, w, e)
    ensures g.Expr(w.Write(0, e) + [Eof]) == Ok(e, [Eof])
  {
    CanonDerives(g, w, 0, e);
    ExprReads(g, Canon(w, 0, e), [Eof]);
  }

  /** Different expressions are written differently. */
  lemma WriteInjective(g: Grammar, w: Writer, e: Node, f: Node)
    requires Writable(g, w, e) && Writable(g, w, f)
    requires w.Write(0, e) == w.Write(0, f)
    ensures e == f
  {
    RoundTrip(g, w, e);
    RoundTrip(g, w, f);
  }
}
