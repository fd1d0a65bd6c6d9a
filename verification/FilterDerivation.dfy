/**
 The language filter_parser.c accepts, stated without the parser: derivations with their
 tokens and their trees. A list item may be followed by a comma or not, and parentheses may
 stand around any expression. A token sequence parses to a tree exactly when the tree has a
 derivation with these tokens.
 */
module FilterDerivation {
  import opened Common
  import opened FilterAst
  import opened FilterLexer
  import opened FilterGrammar

  datatype Derivation =
    | FieldLeaf(name: string)
    | StrLeaf(text: string)
    | NumLeaf(digits: string)
    | Paren(inner: Derivation)
    | Bracket(items: seq<Item>)
    | CmpPair(op: Token, left: Derivation, right: Derivation)
    | NotOf(inner: Derivation)
    | AndPair(left: Derivation, right: Derivation)
    | OrPair(left: Derivation, right: Derivation)

  datatype Item = Item(value: Derivation, comma: bool)

  /** Binding strength: OR 0, AND 1, NOT 2, comparison 3, operand 4. */
  function Rank(d: Derivation): nat {
    match d
    case OrPair(_, _) => 0
    case AndPair(_, _) => 1
    case NotOf(_) => 2
    case CmpPair(_, _, _) => 3
    case _ => 4
  }

  /** Operands bind as strongly as their operator asks: AND and OR associate to the left,
      comparisons do not associate, list items are operands. */
  predicate Formed(d: Derivation) {
    match d
    case FieldLeaf(_) => true
    case StrLeaf(_) => true
    case NumLeaf(_) => true
    case Paren(x) => Formed(x)
    case Bracket(items) => forall i | i in items :: Formed(i.value) && Rank(i.value) == 4
    case CmpPair(op, l, r) => IsCmp(op) && Formed(l) && Formed(r) && Rank(l) == 4 && Rank(r) == 4
    case NotOf(x) => Formed(x) && Rank(x) >= 2
    case AndPair(l, r) => Formed(l) && Formed(r) && Rank(l) >= 1 && Rank(r) >= 2
    case OrPair(l, r) => Formed(l) && Formed(r) && Rank(r) >= 1
  }

  function Yield(d: Derivation): (ts: seq<Token>)
    ensures ts != []
    decreases d, 1
  {
    match d
    case FieldLeaf(name) => [FieldTok(name)]
    case StrLeaf(text) => [StringTok(text)]
    case NumLeaf(digits) => [NumberTok(digits)]
    case Paren(x) => [LParen] + (Yield(x) + [RParen])
    case Bracket(items) => [LBracket] + (YieldItems(items) + [RBracket])
    case CmpPair(op, l, r) => Yield(l) + ([op] + Yield(r))
    case NotOf(x) => [NotTok] + Yield(x)
    case AndPair(l, r) => Yield(l) + ([AndTok] + Yield(r))
    case OrPair(l, r) => Yield(l) + ([OrTok] + Yield(r))
  }

  function YieldItem(i: Item): (ts: seq<Token>)
    ensures ts != []
    decreases i, 0
  {
    Yield(i.value) + if i.comma then [Comma] else []
  }

  function YieldItems(items: seq<Item>): seq<Token>
    decreases items, 0
  {
    if items == [] then [] else YieldItem(items[0]) + YieldItems(items[1..])
  }

  function Tree(g: Grammar, d: Derivation): Node
    requires Formed(d)
    decreases d, 1
  {
    match d
    case FieldLeaf(name) => Field(g.fieldOf(name))
    case StrLeaf(text) => Str(text)
    case NumLeaf(digits) => Num(Atoll(digits))
    case Paren(x) => Tree(g, x)
    case Bracket(items) => List(Trees(g, items))
    case CmpPair(op, l, r) => Comparison(op, Tree(g, l), Tree(g, r))
    case NotOf(x) => Not(Tree(g, x))
    case AndPair(l, r) => And(Tree(g, l), Tree(g, r))
    case OrPair(l, r) => Or(Tree(g, l), Tree(g, r))
  }

  function Trees(g: Grammar, items: seq<Item>): (r: seq<Node>)
    requires forall i | i in items :: Formed(i.value)
    ensures |r| == |items|
    decreases items, 0
  {
    if items == [] then [] else [ItemTree(g, items[0])] + Trees(g, items[1..])
  }

  function ItemTree(g: Grammar, i: Item): Node
    requires Formed(i.value)
    decreases i, 0
  {
    Tree(g, i.value)
  }

  ghost predicate Derives(g: Grammar, d: Derivation, ts: seq<Token>, e: Node) {
    Formed(d) && Yield(d) == ts && Tree(g, d) == e
  }

  // ----- what is derived, parses -----

  lemma {:induction false} OperandReads(g: Grammar, d: Derivation, rest: seq<Token>)
    requires Ends(rest) && Formed(d) && Rank(d) == 4
    ensures g.Primary(Yield(d) + rest) == Ok(Tree(g, d), rest)
    decreases d, 0
  {
    hide Grammar.Items, Grammar.Expr, YieldItems, Trees;
    var ts := Yield(d) + rest;
    match d
    case FieldLeaf(_) => assert ts[1..] == rest;
    case StrLeaf(_) => assert ts[1..] == rest;
    case NumLeaf(_) => assert ts[1..] == rest;
    case Paren(x) =>
      var next := [RParen] + rest;
      assert ts[1..] == Yield(x) + next;
      ExprReads(g, x, next);
      assert next[1..] == rest;
      ParenEquation(g, ts);
    case Bracket(items) =>
      assert ts == [LBracket] + (YieldItems(items) + ([RBracket] + rest));
      ItemsRead(g, [], items, rest);
      assert [] + Trees(g, items) == Trees(g, items);
      ListEquation(g, YieldItems(items) + ([RBracket] + rest));
  }

  lemma {:induction false} ItemsRead(g: Grammar, sofar: seq<Node>, items: seq<Item>, rest: seq<Token>)
    requires Ends(rest) && forall i | i in items :: Formed(i.value) && Rank(i.value) == 4
    ensures g.Items(sofar, YieldItems(items) + ([RBracket] + rest)) == Ok(List(sofar + Trees(g, items)), rest)
    decreases items, 0
  {
    hide Grammar.Primary, YieldItem, ItemTree;
    var tail := [RBracket] + rest;
    if items == [] {
      assert YieldItems(items) + tail == tail && tail[1..] == rest;
      assert sofar + Trees(g, items) == sofar;
    } else {
      var more := YieldItems(items[1..]) + tail;
      assert YieldItems(items) + tail == YieldItem(items[0]) + more;
      ItemStarts(items[1..], rest);
      ItemReads(g, sofar, items[0], more);
      var x := ItemTree(g, items[0]);
      ItemsRead(g, sofar + [x], items[1..], rest);
      assert sofar + [x] + Trees(g, items[1..]) == sofar + Trees(g, items);
    }
  }

  lemma {:induction false} ItemReads(g: Grammar, sofar: seq<Node>, i: Item, more: seq<Token>)
    requires Ends(more) && more[0] != Comma && Formed(i.value) && Rank(i.value) == 4
    ensures g.Items(sofar, YieldItem(i) + more) == g.Items(sofar + [ItemTree(g, i)], more)
    decreases i, 0
  {
    hide Grammar.Primary, Grammar.Items, Yield, Tree;
    var next := (if i.comma then [Comma] else []) + more;
    var ts := YieldItem(i) + more;
    assert ts == Yield(i.value) + next;
    OperandReads(g, i.value, next);
    OperandStarts(i.value);
    assert (if next[0] == Comma then next[1..] else next) == more;
    ItemsEquation(g, sofar, ts, Tree(g, i.value), next);
  }

  /** An operand starts with none of the tokens the parser looks for before one. */
  lemma OperandStarts(d: Derivation)
    requires Rank(d) == 4
    ensures Yield(d)[0] !in {RBracket, Eof, Comma, NotTok}
  {
  }

  lemma ItemStarts(items: seq<Item>, rest: seq<Token>)
    requires forall i | i in items :: Rank(i.value) == 4
    ensures (YieldItems(items) + ([RBracket] + rest))[0] != Comma
  {
    if items != [] {
      OperandStarts(items[0].value);
    }
  }

  lemma {:induction false} CmpReads(g: Grammar, d: Derivation, rest: seq<Token>)
    requires Ends(rest) && !IsCmp(rest[0]) && Formed(d) && Rank(d) >= 3
    ensures g.CmpExpr(Yield(d) + rest) == Ok(Tree(g, d), rest)
    ensures Yield(d)[0] != NotTok
    decreases d, 1
  {
    hide Grammar.Primary;
    if Rank(d) == 4 {
      OperandReads(g, d, rest);
      OperandStarts(d);
    } else {
      var next := [d.op] + (Yield(d.right) + rest);
      assert Yield(d) + rest == Yield(d.left) + next;
      OperandReads(g, d.left, next);
      OperandStarts(d.left);
      assert next[1..] == Yield(d.right) + rest;
      OperandReads(g, d.right, rest);
      CmpEquation(g, Yield(d) + rest, Tree(g, d.left), next);
    }
  }

  lemma {:induction false} NotReads(g: Grammar, d: Derivation, rest: seq<Token>)
    requires Ends(rest) && !IsCmp(rest[0]) && Formed(d) && Rank(d) >= 2
    ensures g.NotExpr(Yield(d) + rest) == Ok(Tree(g, d), rest)
    decreases d, 2
  {
    hide Grammar.CmpExpr;
    if Rank(d) >= 3 {
      CmpReads(g, d, rest);
    } else {
      assert (Yield(d) + rest)[1..] == Yield(d.inner) + rest;
      NotReads(g, d.inner, rest);
      NotEquation(g, Yield(d) + rest);
    }
  }

  lemma {:induction false} AndReads(g: Grammar, d: Derivation, rest: seq<Token>)
    requires Ends(rest) && !IsCmp(rest[0]) && Formed(d) && Rank(d) >= 1
    ensures g.AndExpr(Yield(d) + rest) == g.AndLoop(Tree(g, d), rest)
    decreases d, 3
  {
    hide Grammar.NotExpr, Grammar.AndLoop;
    if Rank(d) >= 2 {
      NotReads(g, d, rest);
    } else {
      var next := [AndTok] + (Yield(d.right) + rest);
      assert Yield(d) + rest == Yield(d.left) + next;
      AndReads(g, d.left, next);
      assert next[1..] == Yield(d.right) + rest;
      NotReads(g, d.right, rest);
      AndEquation(g, Tree(g, d.left), next);
    }
  }

  lemma {:induction false} OrReads(g: Grammar, d: Derivation, rest: seq<Token>)
    requires Ends(rest) && !IsCmp(rest[0]) && rest[0] != AndTok && Formed(d)
    ensures g.OrExpr(Yield(d) + rest) == g.OrLoop(Tree(g, d), rest)
    decreases d, 4
  {
    hide Grammar.NotExpr, Grammar.AndExpr, Grammar.OrLoop;
    if Rank(d) >= 1 {
      AndReads(g, d, rest);
      AndStops(g, Tree(g, d), rest);
      OrStarts(g, Yield(d) + rest);
    } else {
      var next := [OrTok] + (Yield(d.right) + rest);
      assert Yield(d) + rest == Yield(d.left) + next;
      OrReads(g, d.left, next);
      assert next[1..] == Yield(d.right) + rest;
      AndReads(g, d.right, rest);
      AndStops(g, Tree(g, d.right), rest);
      OrEquation(g, Tree(g, d.left), next);
    }
  }

  lemma AndStops(g: Grammar, e: Node, rest: seq<Token>)
    requires Ends(rest) && rest[0] != AndTok
    ensures g.AndLoop(e, rest) == Ok(e, rest)
  {
  }

  lemma OrStarts(g: Grammar, ts: seq<Token>)
    requires Ends(ts) && g.AndExpr(ts).Ok?
    ensures g.OrExpr(ts) == g.OrLoop(g.AndExpr(ts).node, g.AndExpr(ts).rest)
  {
    hide Grammar.AndExpr, Grammar.OrLoop;
  }

  /** The parser reads any derivation, up to a token that cannot continue an expression. */
  lemma {:induction false} ExprReads(g: Grammar, d: Derivation, rest: seq<Token>)
    requires Ends(rest) && !IsCmp(rest[0]) && rest[0] != AndTok && rest[0] != OrTok && Formed(d)
    ensures g.Expr(Yield(d) + rest) == Ok(Tree(g, d), rest)
    decreases d, 5
  {
    hide Grammar.AndExpr;
    OrReads(g, d, rest);
  }

  // ----- what parses, is derived -----

  /** d accounts for the tokens an Ok result has consumed. */
  ghost predicate Explains(g: Grammar, d: Derivation, ts: seq<Token>, r: Parsed) {
    r.Ok? && Formed(d) && Tree(g, d) == r.node && ts == Yield(d) + r.rest
  }

  lemma {:induction false} PrimaryDerived(g: Grammar, ts: seq<Token>) returns (d: Derivation)
    requires Ends(ts) && g.Primary(ts).Ok?
    ensures Explains(g, d, ts, g.Primary(ts)) && Rank(d) == 4
    decreases |ts|, 0
  {
    hide Grammar.Primary, Grammar.Items, Grammar.Expr, Trees, Tree, YieldItems, Yield, Formed;
    if ts[0] == LParen {
      ParenEquation(g, ts);
      var x := ExprDerived(g, ts[1..]);
      ParenJoined(x, ts, g.Expr(ts[1..]).rest);
      ParenForms(g, x);
      d := Paren(x);
    } else if ts[0] == LBracket {
      BracketEquation(g, ts);
      var items := ItemsDerived(g, [], ts[1..]);
      BracketJoined(items, ts, g.Primary(ts).rest);
      BracketForms(g, items);
      d := Bracket(items);
    } else {
      d := LeafDerived(g, ts);
    }
  }

  lemma BracketEquation(g: Grammar, ts: seq<Token>)
    requires Ends(ts) && ts[0] == LBracket
    ensures g.Primary(ts) == g.Items([], ts[1..])
  {
    hide Grammar.Items, Grammar.Expr;
  }

  lemma LeafDerived(g: Grammar, ts: seq<Token>) returns (d: Derivation)
    requires Ends(ts) && g.Primary(ts).Ok? && ts[0] != LParen && ts[0] != LBracket
    ensures Explains(g, d, ts, g.Primary(ts)) && Rank(d) == 4
  {
    hide Grammar.Items, Grammar.Expr, Trees, YieldItems;
    d := if ts[0].FieldTok? then FieldLeaf(ts[0].name) else if ts[0].StringTok? then StrLeaf(ts[0].text) else NumLeaf(ts[0].digits);
    assert ts == [ts[0]] + ts[1..];
  }

  lemma ParenJoined(x: Derivation, ts: seq<Token>, r: seq<Token>)
    requires ts != [] && ts[0] == LParen && ts[1..] == Yield(x) + r && r != [] && r[0] == RParen
    ensures ts == Yield(Paren(x)) + r[1..]
  {
    hide Yield;
    assert ts == [LParen] + ts[1..] && r == [RParen] + r[1..];
    assert Yield(Paren(x)) == [LParen] + (Yield(x) + [RParen]) by { ParenYields(x); }
  }

  lemma ParenYields(x: Derivation)
    ensures Yield(Paren(x)) == [LParen] + (Yield(x) + [RParen])
  {
  }

  lemma ParenForms(g: Grammar, x: Derivation)
    requires Formed(x)
    ensures Formed(Paren(x)) && Rank(Paren(x)) == 4 && Tree(g, Paren(x)) == Tree(g, x)
  {
  }

  lemma BracketForms(g: Grammar, items: seq<Item>)
    requires forall i | i in items :: Formed(i.value) && Rank(i.value) == 4
    ensures var d := Bracket(items);
            Formed(d) && Rank(d) == 4 && Tree(g, d) == List([] + Trees(g, items))
  {
    assert [] + Trees(g, items) == Trees(g, items);
  }

  lemma BracketJoined(items: seq<Item>, ts: seq<Token>, rest: seq<Token>)
    requires ts != [] && ts[0] == LBracket && ts[1..] == YieldItems(items) + ([RBracket] + rest)
    ensures ts == Yield(Bracket(items)) + rest
  {
    hide YieldItems;
    assert ts == [LBracket] + ts[1..];
  }

  lemma {:induction false} ItemsDerived(g: Grammar, sofar: seq<Node>, ts: seq<Token>) returns (items: seq<Item>)
    requires Ends(ts) && g.Items(sofar, ts).Ok?
    ensures forall i | i in items :: Formed(i.value) && Rank(i.value) == 4
    ensures g.Items(sofar, ts).node == List(sofar + Trees(g, items))
    ensures ts == YieldItems(items) + ([RBracket] + g.Items(sofar, ts).rest)
    decreases |ts|, 1
  {
    hide Grammar.Primary, Grammar.Items, Yield, Tree, Trees, YieldItems, Formed;
    var r := ItemsSplit(g, sofar, ts);
    if ts[0] == RBracket {
      items := [];
      NoItems(g);
      assert sofar + Trees(g, items) == sofar;
      assert ts == [RBracket] + ts[1..];
    } else {
      var x := PrimaryDerived(g, ts);
      var i := Item(x, r.rest[0] == Comma);
      var others := ItemsDerived(g, sofar + [r.node], if i.comma then r.rest[1..] else r.rest);
      items := [i] + others;
      ItemJoined(g, sofar, i, others, r.rest, [RBracket] + g.Items(sofar, ts).rest);
    }
  }

  /** How a list that parses goes on. */
  lemma ItemsSplit(g: Grammar, sofar: seq<Node>, ts: seq<Token>) returns (r: Parsed)
    requires Ends(ts) && g.Items(sofar, ts).Ok?
    ensures r == g.Primary(ts)
    ensures ts[0] == RBracket ==> g.Items(sofar, ts) == Ok(List(sofar), ts[1..])
    ensures ts[0] != RBracket ==>
              var more := if r.rest[0] == Comma then r.rest[1..] else r.rest;
              r.Ok? && Ends(more) && |more| < |ts| && g.Items(sofar, ts) == g.Items(sofar + [r.node], more)
  {
    hide Grammar.Primary;
    r := g.Primary(ts);
  }

  lemma NoItems(g: Grammar)
    ensures Trees(g, []) == [] && YieldItems([]) == []
  {
  }

  lemma ItemJoined(g: Grammar, sofar: seq<Node>, i: Item, others: seq<Item>, next: seq<Token>, tail: seq<Token>)
    requires Formed(i.value) && forall o | o in others :: Formed(o.value)
    requires next != [] && (i.comma <==> next[0] == Comma)
    requires (if i.comma then next[1..] else next) == YieldItems(others) + tail
    ensures sofar + Trees(g, [i] + others) == sofar + [Tree(g, i.value)] + Trees(g, others)
    ensures YieldItems([i] + others) + tail == Yield(i.value) + next
  {
    hide Yield, YieldItem, YieldItems, Tree, Trees, Formed;
    ItemCons(g, i, others);
    Chain(Yield(i.value), if i.comma then [Comma] else [], YieldItems(others), tail);
    assert i.comma ==> next == [Comma] + next[1..];
  }

  lemma Chain(a: seq<Token>, b: seq<Token>, c: seq<Token>, d: seq<Token>)
    ensures a + b + c + d == a + (b + (c + d))
  {
  }

  lemma ItemCons(g: Grammar, i: Item, others: seq<Item>)
    requires Formed(i.value) && forall o | o in others :: Formed(o.value)
    ensures Trees(g, [i] + others) == [Tree(g, i.value)] + Trees(g, others)
    ensures YieldItems([i] + others) == Yield(i.value) + (if i.comma then [Comma] else []) + YieldItems(others)
  {
    hide Yield, Tree, Formed;
    assert ([i] + others)[1..] == others;
  }

  lemma {:induction false} CmpDerived(g: Grammar, ts: seq<Token>) returns (d: Derivation)
    requires Ends(ts) && g.CmpExpr(ts).Ok?
    ensures Explains(g, d, ts, g.CmpExpr(ts)) && Rank(d) >= 3
    decreases |ts|, 2
  {
    hide Grammar.Primary, Grammar.CmpExpr, Explains;
    CmpFirst(g, ts);
    var left := PrimaryDerived(g, ts);
    d := left;
    var p := g.Primary(ts);
    if IsCmp(p.rest[0]) {
      CmpEquation(g, ts, p.node, p.rest);
      var right := PrimaryDerived(g, p.rest[1..]);
      d := CmpPair(p.rest[0], left, right);
      CmpExplained(g, ts, p.rest, left, right);
    }
  }

  lemma CmpFirst(g: Grammar, ts: seq<Token>)
    requires Ends(ts) && g.CmpExpr(ts).Ok?
    ensures g.Primary(ts).Ok? && (!IsCmp(g.Primary(ts).rest[0]) ==> g.CmpExpr(ts) == g.Primary(ts))
  {
    hide Grammar.Primary;
  }

  lemma CmpExplained(g: Grammar, ts: seq<Token>, r: seq<Token>, left: Derivation, right: Derivation)
    requires Ends(ts) && Ends(r) && IsCmp(r[0]) && g.Primary(ts).Ok? && g.Primary(ts).rest == r && g.CmpExpr(ts).Ok?
    requires Explains(g, left, ts, g.Primary(ts)) && Rank(left) == 4
    requires Explains(g, right, r[1..], g.Primary(r[1..])) && Rank(right) == 4
    requires g.CmpExpr(ts) == Ok(Comparison(r[0], g.Primary(ts).node, g.Primary(r[1..]).node), g.Primary(r[1..]).rest)
    ensures Explains(g, CmpPair(r[0], left, right), ts, g.CmpExpr(ts)) && Rank(CmpPair(r[0], left, right)) >= 3
  {
    hide Grammar.Primary, Grammar.CmpExpr, Formed, Tree, Yield;
    PairUnfolds(g, r[0], left, right);
    PairTokens(ts, Yield(left), r, Yield(right), g.Primary(r[1..]).rest);
  }

  lemma PairTokens(ts: seq<Token>, y: seq<Token>, r: seq<Token>, z: seq<Token>, rest: seq<Token>)
    requires ts == y + r && r != [] && r[1..] == z + rest
    ensures ts == y + ([r[0]] + z) + rest
  {
    assert r == [r[0]] + (z + rest);
  }

  lemma PairUnfolds(g: Grammar, op: Token, left: Derivation, right: Derivation)
    requires IsCmp(op) && Formed(left) && Formed(right) && Rank(left) == 4 && Rank(right) == 4
    ensures var d := CmpPair(op, left, right);
            Formed(d) && Tree(g, d) == Comparison(op, Tree(g, left), Tree(g, right)) && Yield(d) == Yield(left) + ([op] + Yield(right))
  {
  }

  lemma {:induction false} NotDerived(g: Grammar, ts: seq<Token>) returns (d: Derivation)
    requires Ends(ts) && g.NotExpr(ts).Ok?
    ensures Explains(g, d, ts, g.NotExpr(ts)) && Rank(d) >= 2
    decreases |ts|, 3
  {
    hide Grammar.CmpExpr, Grammar.NotExpr, Explains;
    if ts[0] != NotTok {
      NotFirst(g, ts);
      d := CmpDerived(g, ts);
    } else {
      NotEquation(g, ts);
      var x := NotDerived(g, ts[1..]);
      d := NotOf(x);
      NotExplained(g, ts, x);
    }
  }

  lemma NotFirst(g: Grammar, ts: seq<Token>)
    requires Ends(ts) && ts[0] != NotTok
    ensures g.NotExpr(ts) == g.CmpExpr(ts)
  {
    hide Grammar.CmpExpr;
  }

  lemma NotExplained(g: Grammar, ts: seq<Token>, x: Derivation)
    requires Ends(ts) && ts[0] == NotTok && g.NotExpr(ts[1..]).Ok?
    requires Explains(g, x, ts[1..], g.NotExpr(ts[1..])) && Rank(x) >= 2
    requires g.NotExpr(ts) == Ok(Not(g.NotExpr(ts[1..]).node), g.NotExpr(ts[1..]).rest)
    ensures Explains(g, NotOf(x), ts, g.NotExpr(ts)) && Rank(NotOf(x)) >= 2
  {
    hide Grammar.NotExpr, Formed, Tree, Yield;
    NotUnfolds(g, x);
    var rest := g.NotExpr(ts).rest;
    assert ts == [NotTok] + (Yield(x) + rest) == [NotTok] + Yield(x) + rest;
  }

  lemma NotUnfolds(g: Grammar, x: Derivation)
    requires Formed(x) && Rank(x) >= 2
    ensures Formed(NotOf(x)) && Tree(g, NotOf(x)) == Not(Tree(g, x)) && Yield(NotOf(x)) == [NotTok] + Yield(x)
  {
  }

  lemma {:induction false} AndDerived(g: Grammar, ts: seq<Token>) returns (d: Derivation)
    requires Ends(ts) && g.AndExpr(ts).Ok?
    ensures Explains(g, d, ts, g.AndExpr(ts)) && Rank(d) >= 1
    decreases |ts|, 4
  {
    hide Grammar.NotExpr, Grammar.AndLoop;
    var left := NotDerived(g, ts);
    d := AndLoopDerived(g, left, g.NotExpr(ts).rest);
  }

  lemma {:induction false} AndLoopDerived(g: Grammar, left: Derivation, ts: seq<Token>) returns (d: Derivation)
    requires Ends(ts) && Formed(left) && Rank(left) >= 1 && g.AndLoop(Tree(g, left), ts).Ok?
    ensures Explains(g, d, Yield(left) + ts, g.AndLoop(Tree(g, left), ts)) && Rank(d) >= 1
    decreases |ts|, 4
  {
    hide Grammar.NotExpr, Grammar.AndLoop, Yield, Tree, Formed;
    d := left;
    if ts[0] == AndTok {
      AndEquation(g, Tree(g, left), ts);
      var right := NotDerived(g, ts[1..]);
      PairJoined(g, AndPair(left, right), ts, g.NotExpr(ts[1..]).rest);
      d := AndLoopDerived(g, AndPair(left, right), g.NotExpr(ts[1..]).rest);
    } else {
      AndStops(g, Tree(g, left), ts);
    }
  }

  lemma PairJoined(g: Grammar, d: Derivation, ts: seq<Token>, rest: seq<Token>)
    requires d.AndPair? || d.OrPair?
    requires Formed(d.left) && Formed(d.right) && Rank(d.right) >= 1
    requires d.AndPair? ==> Rank(d.left) >= 1 && Rank(d.right) >= 2
    requires ts != [] && ts[0] == (if d.AndPair? then AndTok else OrTok) && ts[1..] == Yield(d.right) + rest
    ensures Formed(d) && Yield(d) + rest == Yield(d.left) + ts
    ensures Tree(g, d) == if d.AndPair? then And(Tree(g, d.left), Tree(g, d.right)) else Or(Tree(g, d.left), Tree(g, d.right))
  {
    assert ts == [ts[0]] + ts[1..];
  }

  lemma {:induction false} OrDerived(g: Grammar, ts: seq<Token>) returns (d: Derivation)
    requires Ends(ts) && g.OrExpr(ts).Ok?
    ensures Explains(g, d, ts, g.OrExpr(ts))
    decreases |ts|, 5
  {
    hide Grammar.AndExpr, Grammar.OrLoop;
    var left := AndDerived(g, ts);
    d := OrLoopDerived(g, left, g.AndExpr(ts).rest);
  }

  lemma {:induction false} OrLoopDerived(g: Grammar, left: Derivation, ts: seq<Token>) returns (d: Derivation)
    requires Ends(ts) && Formed(left) && g.OrLoop(Tree(g, left), ts).Ok?
    ensures Explains(g, d, Yield(left) + ts, g.OrLoop(Tree(g, left), ts))
    decreases |ts|, 5
  {
    hide Grammar.AndExpr, Grammar.OrLoop, Yield, Tree, Formed;
    d := left;
    if ts[0] == OrTok {
      OrEquation(g, Tree(g, left), ts);
      var right := AndDerived(g, ts[1..]);
      PairJoined(g, OrPair(left, right), ts, g.AndExpr(ts[1..]).rest);
      d := OrLoopDerived(g, OrPair(left, right), g.AndExpr(ts[1..]).rest);
    } else {
      OrStops(g, Tree(g, left), ts);
    }
  }

  lemma OrStops(g: Grammar, e: Node, rest: seq<Token>)
    requires Ends(rest) && rest[0] != OrTok
    ensures g.OrLoop(e, rest) == Ok(e, rest)
  {
  }

  lemma {:induction false} ExprDerived(g: Grammar, ts: seq<Token>) returns (d: Derivation)
    requires Ends(ts) && g.Expr(ts).Ok?
    ensures Explains(g, d, ts, g.Expr(ts))
    decreases |ts|, 6
  {
    hide Grammar.OrExpr;
    d := OrDerived(g, ts);
  }

  // ----- the accepted language -----

  /** Tokens parse to a tree, with none left over, exactly when the tree has a derivation with
      these tokens. */
  lemma ExprExactly(g: Grammar, ts: seq<Token>, e: Node)
    ensures g.Expr(ts + [Eof]) == Ok(e, [Eof]) <==> exists d :: Derives(g, d, ts, e)
  {
    hide Grammar.Expr;
    if g.Expr(ts + [Eof]) == Ok(e, [Eof]) {
      var d := ExprDerived(g, ts + [Eof]);
      assert Yield(d) == ts by { assert (Yield(d) + [Eof])[..|ts|] == ts; }
      assert Derives(g, d, ts, e);
    } else if d :| Derives(g, d, ts, e) {
      ExprReads(g, d, [Eof]);
    }
  }

  /** A text is valid exactly when its tokens are derived, and then its tree is theirs. */
  lemma ParseExactly(g: Grammar, input: string)
    ensures var ts := Tokens(Stream(input, 0));
            && (g.Parse(input).valid <==> exists d :: Formed(d) && Yield(d) + [Eof] == ts)
            && (forall d :: Formed(d) && Yield(d) + [Eof] == ts ==> g.Parse(input).ast == Some(Tree(g, d)))
  {
    hide Grammar.Expr, Yield, Tree, Formed;
    var ts := Tokens(Stream(input, 0));
    if g.Parse(input).valid {
      var d := ExprDerived(g, ts);
      var rest := g.Expr(ts).rest;
      OnlyEof(input, Yield(d), rest);
      assert Formed(d) && Yield(d) + [Eof] == ts;
    }
    forall d | Formed(d) && Yield(d) + [Eof] == ts ensures g.Parse(input).valid && g.Parse(input).ast == Some(Tree(g, d)) {
      ExprReads(g, d, [Eof]);
    }
  }

  /** An end token of a stream is its last token. */
  lemma OnlyEof(input: string, before: seq<Token>, rest: seq<Token>)
    requires Tokens(Stream(input, 0)) == before + rest && rest != [] && rest[0] == Eof
    ensures rest == [Eof]
  {
    var stream := Stream(input, 0);
    assert stream[|before|].token == Tokens(stream)[|before|] == Eof;
    assert |before| == |stream| - 1;
  }

  /** No token sequence has derivations of two trees. */
  lemma Unambiguous(g: Grammar, c: Derivation, d: Derivation)
    requires Formed(c) && Formed(d) && Yield(c) == Yield(d)
    ensures Tree(g, c) == Tree(g, d)
  {
    ExprReads(g, c, [Eof]);
    ExprReads(g, d, [Eof]);
  }

  /** Any operands make a list, none included, and any of them, the last included, may be
      followed by a comma or not. */
  lemma LooseLists(g: Grammar, items: seq<Item>)
    requires forall i | i in items :: Formed(i.value) && Rank(i.value) == 4
    ensures g.Expr([LBracket] + YieldItems(items) + [RBracket] + [Eof]) == Ok(List(Trees(g, items)), [Eof])
  {
    hide Grammar.Expr;
    assert Yield(Bracket(items)) == [LBracket] + YieldItems(items) + [RBracket];
    ExprReads(g, Bracket(items), [Eof]);
  }
}
