/**
 Bytecode and the code an AST stands for, as a function of the string table the code is
 appended to. The compiler of FilterCompiler produces this code step by step.
 */
module FilterCode {
  import opened Common
  import opened FilterAst

  datatype Instr =
    | PushField(field: FieldId)
    | PushString(index: nat)
    | PushNumber(value: int)
    | Pop
    | Cmp(op: CmpOp)
    | InSet(count: nat)
    | AndOp
    | OrOp
    | NotOp
    | Jump(offset: int)
    | JumpIfFalse(offset: int)
    | JumpIfTrue(offset: int)
    | Return
    | Nop

  datatype Code = Code(instrs: seq<Instr>, strings: seq<string>)

  /** Position of the first occurrence of s, or |strings| when there is none. */
  function IndexOf(strings: seq<string>, s: string): (k: nat)
    ensures k <= |strings|
    ensures k < |strings| ==> strings[k] == s
    ensures forall i :: 0 <= i < k ==> strings[i] != s
  {
    if strings == [] || strings[0] == s then 0 else
      var k := 1 + IndexOf(strings[1..], s);
      assert forall i :: 1 <= i < k ==> strings[i] == strings[1..][i - 1];
      k
  }

  function Intern(strings: seq<string>, s: string): seq<string> {
    if IndexOf(strings, s) < |strings| then strings else strings + [s]
  }

  /** The short-circuit jump over a POP and k instructions. */
  function Guard(isAnd: bool, k: nat): Instr {
    if isAnd then JumpIfFalse(k + 1) else JumpIfTrue(k + 1)
  }

  /** The code of e, given the strings already in the table. */
  function Gen(e: Node, strings: seq<string>): (c: Code)
    requires Compilable(e)
    decreases e, 1
  {
    match e
    case Field(f) => Code([PushField(f)], strings)
    case Str(s) => Code([PushString(IndexOf(strings, s))], Intern(strings, s))
    case Num(n) => Code([PushNumber(n)], strings)
    case Compare(op, l, r) =>
      var cl := Gen(l, strings);
      var cr := Gen(r, cl.strings);
      Code(cl.instrs + (cr.instrs + [Cmp(op)]), cr.strings)
    case In(l, r) =>
      var cl := Gen(l, strings);
      var cr := GenAll(r.items, cl.strings);
      Code(cl.instrs + (cr.instrs + [InSet(|r.items|)]), cr.strings)
    case And(l, r) =>
      var cl := Gen(l, strings);
      var cr := Gen(r, cl.strings);
      Code(cl.instrs + ([Guard(true, |cr.instrs|), Pop] + cr.instrs), cr.strings)
    case Or(l, r) =>
      var cl := Gen(l, strings);
      var cr := Gen(r, cl.strings);
      Code(cl.instrs + ([Guard(false, |cr.instrs|), Pop] + cr.instrs), cr.strings)
    case Not(x) =>
      var cx := Gen(x, strings);
      Code(cx.instrs + [NotOp], cx.strings)
  }

  function GenAll(items: seq<Node>, strings: seq<string>): (c: Code)
    requires forall x | x in items :: Compilable(x)
    decreases items, 0
  {
    if items == [] then Code([], strings) else
      var c := Gen(items[0], strings);
      var cs := GenAll(items[1..], c.strings);
      Code(c.instrs + cs.instrs, cs.strings)
  }

  /** The code of a logical operator, in one equation. */
  lemma LogicalCode(e: Node, l: Node, r: Node, strings: seq<string>)
    requires e == And(l, r) || e == Or(l, r)
    requires Compilable(e)
    ensures var cl := Gen(l, strings);
            var cr := Gen(r, cl.strings);
            Gen(e, strings) == Code(cl.instrs + ([Guard(e.And?, |cr.instrs|), Pop] + cr.instrs), cr.strings)
  {
  }

  /** The jump of a logical operator, emitted with offset 0, is patched into place. */
  lemma PatchedCode(before: seq<Instr>, isAnd: bool, right: seq<Instr>)
    ensures var jump := if isAnd then JumpIfFalse(0) else JumpIfTrue(0);
            var code := before + [jump] + [Pop] + right;
            code[|before| := Guard(isAnd, |code| - |before| - 2)] == before + ([Guard(isAnd, |right|), Pop] + right)
  {
  }

  /** The whole program of a filter. */
  function Program(e: Node): Code
    requires Compilable(e)
  {
    var c := Gen(e, []);
    Code(c.instrs + [Return], c.strings)
  }

  // ----- the string table -----

  /** The string literals of an expression. */
  ghost function Literals(e: Node): set<string> {
    match e
    case Field(_) => {}
    case Str(s) => {s}
    case Num(_) => {}
    case Compare(_, l, r) => Literals(l) + Literals(r)
    case In(l, r) => Literals(l) + Literals(r)
    case And(l, r) => Literals(l) + Literals(r)
    case Or(l, r) => Literals(l) + Literals(r)
    case Not(x) => Literals(x)
    case List(items) => set x, s | x in items && s in Literals(x) :: s
  }

  ghost predicate TableOk(before: seq<string>, after: seq<string>, added: set<string>) {
    && before <= after
    && (Distinct(before) ==> Distinct(after))
    && (set s | s in after) == (set s | s in before) + added
  }

  lemma {:induction false} InternOk(strings: seq<string>, s: string)
    ensures TableOk(strings, Intern(strings, s), {s})
    ensures IndexOf(strings, s) < |Intern(strings, s)|
    ensures Intern(strings, s)[IndexOf(strings, s)] == s
  {
  }

  lemma TableOkTrans(a: seq<string>, b: seq<string>, c: seq<string>, x: set<string>, y: set<string>)
    requires TableOk(a, b, x) && TableOk(b, c, y)
    ensures TableOk(a, c, x + y)
  {
  }

  /** Compilation only appends to the string table, adds exactly the literals of the
      expression, and never enters a string twice. */
  lemma {:induction false} GenTable(e: Node, strings: seq<string>)
    requires Compilable(e)
    ensures TableOk(strings, Gen(e, strings).strings, Literals(e))
    decreases e, 1
  {
    match e
    case Field(_) =>
    case Num(_) =>
    case Str(s) => InternOk(strings, s);
    case Not(x) => GenTable(x, strings);
    case In(l, r) =>
      var mid := Gen(l, strings).strings;
      GenTable(l, strings);
      GenAllTable(r.items, mid);
      TableOkTrans(strings, mid, GenAll(r.items, mid).strings, Literals(l), Literals(r));
    case Compare(_, l, r) => GenTablePair(e, l, r, strings);
    case And(l, r) => GenTablePair(e, l, r, strings);
    case Or(l, r) => GenTablePair(e, l, r, strings);
  }

  lemma {:induction false} GenTablePair(e: Node, l: Node, r: Node, strings: seq<string>)
    requires Compilable(l) && Compilable(r) && l < e && r < e
    ensures TableOk(strings, Gen(r, Gen(l, strings).strings).strings, Literals(l) + Literals(r))
    decreases e, 0
  {
    var mid := Gen(l, strings).strings;
    GenTable(l, strings);
    GenTable(r, mid);
    TableOkTrans(strings, mid, Gen(r, mid).strings, Literals(l), Literals(r));
  }

  lemma {:induction false} GenAllTable(items: seq<Node>, strings: seq<string>)
    requires forall x | x in items :: Compilable(x)
    ensures TableOk(strings, GenAll(items, strings).strings, Literals(List(items)))
    decreases items, 0
  {
    if items != [] {
      var mid := Gen(items[0], strings).strings;
      GenTable(items[0], strings);
      GenAllTable(items[1..], mid);
      TableOkTrans(strings, mid, GenAll(items[1..], mid).strings,
                   Literals(items[0]), Literals(List(items[1..])));
      assert Literals(List(items)) == Literals(items[0]) + Literals(List(items[1..])) by {
        assert items == [items[0]] + items[1..];
      }
    }
  }

  lemma GenExtends(e: Node, strings: seq<string>)
    requires Compilable(e)
    ensures strings <= Gen(e, strings).strings
  {
    GenTable(e, strings);
  }

  lemma GenAllExtends(items: seq<Node>, strings: seq<string>)
    requires forall x | x in items :: Compilable(x)
    ensures strings <= GenAll(items, strings).strings
  {
    GenAllTable(items, strings);
  }

  /** The string table of a program holds each literal of the expression once and
      nothing else. */
  lemma ProgramTable(e: Node)
    requires Compilable(e)
    ensures Distinct(Program(e).strings)
    ensures (set s | s in Program(e).strings) == Literals(e)
  {
    GenTable(e, []);
  }

  // ----- shape of generated code -----

  /** One instruction at position i of n: operands in range, jumps strictly forward and
      landing at most at n. Only the opcodes the compiler emits. */
  predicate InstrOk(instr: Instr, i: int, n: int, tableSize: int) {
    match instr
    case PushString(k) => k < tableSize
    case JumpIfFalse(off) => 0 < off && i + 1 + off <= n
    case JumpIfTrue(off) => 0 < off && i + 1 + off <= n
    case AndOp => false
    case OrOp => false
    case Jump(_) => false
    case Return => false
    case Nop => false
    case _ => true
  }

  ghost predicate Shape(code: seq<Instr>, tableSize: int) {
    forall i :: 0 <= i < |code| ==> InstrOk(code[i], i, |code|, tableSize)
  }

  lemma ShapeLeaf(i: Instr, n: int)
    requires InstrOk(i, 0, 1, n)
    ensures Shape([i], n)
  {
  }

  lemma ShapeConcat(a: seq<Instr>, b: seq<Instr>, m: int, n: int)
    requires Shape(a, m) && Shape(b, n) && m <= n
    ensures Shape(a + b, n)
  {
  }

  lemma ShapeGuarded(jump: Instr, b: seq<Instr>, n: int)
    requires Shape(b, n)
    requires jump == JumpIfFalse(|b| + 1) || jump == JumpIfTrue(|b| + 1)
    ensures Shape([jump, Pop] + b, n)
  {
    var c := [jump, Pop] + b;
    forall i | 0 <= i < |c| ensures InstrOk(c[i], i, |c|, n) {
      if i >= 2 {
        assert c[i] == b[i - 2];
      }
    }
  }

  lemma {:induction false} GenShape(e: Node, strings: seq<string>)
    requires Compilable(e)
    ensures Shape(Gen(e, strings).instrs, |Gen(e, strings).strings|)
    decreases e, 1
  {
    hide Shape;
    match e
    case Field(_) => ShapeLeaf(PushField(e.field), |strings|);
    case Num(_) => ShapeLeaf(PushNumber(e.value), |strings|);
    case Str(s) =>
      InternOk(strings, s);
      ShapeLeaf(PushString(IndexOf(strings, s)), |Intern(strings, s)|);
    case Not(x) =>
      GenShape(x, strings);
      ShapeLeaf(NotOp, |Gen(x, strings).strings|);
      ShapeConcat(Gen(x, strings).instrs, [NotOp], |Gen(x, strings).strings|, |Gen(x, strings).strings|);
    case In(l, r) => GenShapeIn(e, l, r.items, strings);
    case Compare(op, l, r) =>
      var cl, cr := GenShapePair(e, l, r, strings);
      ShapeLeaf(Cmp(op), |cr.strings|);
      ShapeConcat(cr.instrs, [Cmp(op)], |cr.strings|, |cr.strings|);
      ShapeConcat(cl.instrs, cr.instrs + [Cmp(op)], |cl.strings|, |cr.strings|);
    case And(l, r) =>
      var cl, cr := GenShapePair(e, l, r, strings);
      ShapeGuarded(Guard(true, |cr.instrs|), cr.instrs, |cr.strings|);
      ShapeConcat(cl.instrs, [Guard(true, |cr.instrs|), Pop] + cr.instrs, |cl.strings|, |cr.strings|);
    case Or(l, r) =>
      var cl, cr := GenShapePair(e, l, r, strings);
      ShapeGuarded(Guard(false, |cr.instrs|), cr.instrs, |cr.strings|);
      ShapeConcat(cl.instrs, [Guard(false, |cr.instrs|), Pop] + cr.instrs, |cl.strings|, |cr.strings|);
  }

  lemma {:induction false} GenShapeIn(e: Node, l: Node, items: seq<Node>, strings: seq<string>)
    requires e == In(l, List(items)) && Compilable(e)
    ensures Shape(Gen(e, strings).instrs, |Gen(e, strings).strings|)
    decreases e, 0
  {
    var cl := Gen(l, strings);
    var cr := GenAll(items, cl.strings);
    GenShape(l, strings);
    GenAllShape(items, cl.strings);
    GenAllTable(items, cl.strings);
    ShapeConcat(cr.instrs, [InSet(|items|)], |cr.strings|, |cr.strings|);
    ShapeConcat(cl.instrs, cr.instrs + [InSet(|items|)], |cl.strings|, |cr.strings|);
  }

  lemma {:induction false} GenShapePair(e: Node, l: Node, r: Node, strings: seq<string>)
    returns (cl: Code, cr: Code)
    requires Compilable(l) && Compilable(r) && l < e && r < e
    ensures cl == Gen(l, strings) && cr == Gen(r, cl.strings)
    ensures Shape(cl.instrs, |cl.strings|) && Shape(cr.instrs, |cr.strings|)
    ensures |cl.strings| <= |cr.strings|
    decreases e, 0
  {
    cl := Gen(l, strings);
    cr := Gen(r, cl.strings);
    GenShape(l, strings);
    GenShape(r, cl.strings);
    GenTable(r, cl.strings);
  }

  lemma {:induction false} GenAllShape(items: seq<Node>, strings: seq<string>)
    requires forall x | x in items :: Compilable(x)
    ensures Shape(GenAll(items, strings).instrs, |GenAll(items, strings).strings|)
    decreases items, 0
  {
    if items != [] {
      var c := Gen(items[0], strings);
      GenShape(items[0], strings);
      GenAllShape(items[1..], c.strings);
      GenAllTable(items[1..], c.strings);
      ShapeConcat(c.instrs, GenAll(items[1..], c.strings).instrs, |c.strings|,
                  |GenAll(items[1..], c.strings).strings|);
    }
  }

  /** Code that evaluation can run to an end: table indices in range and every jump
      strictly forward and within the code. */
  ghost predicate Runnable(code: seq<Instr>, tableSize: int) {
    forall i :: 0 <= i < |code| ==>
      match code[i]
      case PushString(k) => k < tableSize
      case Jump(off) => 0 < off && i + off <= |code|
      case JumpIfFalse(off) => 0 <= off && i + 1 + off <= |code|
      case JumpIfTrue(off) => 0 <= off && i + 1 + off <= |code|
      case _ => true
  }

  /** A program ends in its only RETURN; before it, every jump is strictly forward and
      lands inside the program, and only the compiler's own opcodes occur. */
  lemma ProgramShape(e: Node)
    requires Compilable(e)
    ensures var p := Program(e);
            && Runnable(p.instrs, |p.strings|)
            && p.instrs != [] && p.instrs[|p.instrs| - 1] == Return
            && Shape(p.instrs[..|p.instrs| - 1], |p.strings|)
  {
    GenShape(e, []);
    var c := Gen(e, []);
    var p := Program(e);
    assert p.instrs[..|p.instrs| - 1] == c.instrs;
    forall i | 0 <= i < |c.instrs| ensures p.instrs[i] == c.instrs[i] {
    }
  }

  // ----- optimisation -----

  /** The peephole pass: a JUMP 0 anywhere but in the last place becomes NOP. */
  function Peephole(code: seq<Instr>): (r: seq<Instr>)
    ensures |r| == |code|
  {
    seq(|code|, i requires 0 <= i < |code| =>
      if i < |code| - 1 && code[i] == Jump(0) then Nop else code[i])
  }

  /** How many JUMP 0 instructions the code holds. */
  function JumpZeros(code: seq<Instr>): nat {
    if code == [] then 0 else
      var n := |code| - 1;
      JumpZeros(code[..n]) + (if code[n] == Jump(0) then 1 else 0)
  }

  lemma {:induction false} JumpZerosNone(code: seq<Instr>)
    ensures JumpZeros(code) == 0 <==> forall i :: 0 <= i < |code| ==> code[i] != Jump(0)
  {
    if code != [] {
      JumpZerosNone(code[..|code| - 1]);
    }
  }

  /** The pass changes code exactly when it counts an optimisation, that is, when a JUMP 0
      stands before the last place; code that gets there loops for ever, so no runnable
      code is ever changed. */
  lemma PeepholeChanges(code: seq<Instr>, tableSize: int)
    requires code != []
    ensures Peephole(code) != code <==> JumpZeros(code[..|code| - 1]) > 0
    ensures Runnable(code, tableSize) ==> Peephole(code) == code
  {
    JumpZerosNone(code[..|code| - 1]);
    if i :| 0 <= i < |code| - 1 && code[i] == Jump(0) {
      assert code[..|code| - 1][i] == Jump(0);
      assert Peephole(code)[i] == Nop;
    } else {
      assert Peephole(code) == code;
    }
  }
}
