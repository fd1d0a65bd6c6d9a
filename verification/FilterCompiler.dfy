/**
 The compiler of filter_compiler.c: a recursive walk that appends to an instruction array
 and a string table and patches the offset of each short-circuit jump once its target is
 known. Allocation always succeeds.
 */
module FilterCompiler {
  import opened FilterAst
  import opened FilterCode

  class Bytecode {
    var instructions: seq<Instr>
    var strings: seq<string>
    var originalCount: nat
    var optimizations: nat

    constructor ()
      ensures instructions == [] && strings == []
      ensures originalCount == 0 && optimizations == 0
    {
      instructions, strings := [], [];
      originalCount, optimizations := 0, 0;
    }

    method Emit(instr: Instr)
      modifies this`instructions
      ensures instructions == old(instructions) + [instr]
    {
      instructions := instructions + [instr];
    }

    /** Index of str in the table, which gains str if it was not there. */
    method AddString(str: string) returns (index: nat)
      modifies this`strings
      ensures index == IndexOf(old(strings), str)
      ensures strings == Intern(old(strings), str)
    {
      var i := 0;
      while i < |strings|
        invariant 0 <= i <= |strings|
        invariant forall j :: 0 <= j < i ==> strings[j] != str
        invariant strings == old(strings)
      {
        if strings[i] == str {
          return i;
        }
        i := i + 1;
      }
      index := |strings|;
      strings := strings + [str];
    }

    /** What every compile step keeps: it only appends, succeeds exactly on compilable
        nodes, and then appends exactly the code of the node. */
    twostate predicate Compiled(node: Node, ok: bool)
      reads this
    {
      && ok == Compilable(node)
      && old(instructions) <= instructions
      && old(strings) <= strings
      && (ok ==> var c := Gen(node, old(strings));
                 instructions == old(instructions) + c.instrs && strings == c.strings)
    }

    method CompileNode(node: Node) returns (ok: bool)
      modifies this`instructions, this`strings
      ensures Compiled(node, ok)
      decreases node, 1
    {
      match node {
        case Field(f) =>
          Emit(PushField(f));
          ok := true;
        case Str(s) =>
          InternOk(strings, s);
          var index := AddString(s);
          Emit(PushString(index));
          ok := true;
        case Num(n) =>
          Emit(PushNumber(n));
          ok := true;
        case Compare(op, l, r) =>
          ok := CompileBinaryOp(node, op, l, r);
        case In(l, r) =>
          ok := CompileInOp(node, l, r);
        case And(l, r) =>
          ok := CompileLogicalAnd(node, l, r);
        case Or(l, r) =>
          ok := CompileLogicalOr(node, l, r);
        case Not(x) =>
          ok := CompileNode(x);
          if ok {
            Emit(NotOp);
          }
        case List(_) =>
          ok := false;
      }
    }

    method CompileBinaryOp(node: Node, op: CmpOp, left: Node, right: Node) returns (ok: bool)
      requires node == Compare(op, left, right)
      modifies this`instructions, this`strings
      ensures Compiled(node, ok)
      decreases node, 0
    {
      ok := CompileNode(left);
      if !ok {
        return;
      }
      ok := CompileNode(right);
      if !ok {
        return;
      }
      Emit(Cmp(op));
    }

    method CompileLogicalAnd(node: Node, left: Node, right: Node) returns (ok: bool)
      requires node == And(left, right)
      modifies this`instructions, this`strings
      ensures Compiled(node, ok)
      decreases node, 0
    {
      hide Gen;
      ok := CompileNode(left);
      if !ok {
        return;
      }
      ghost var upToLeft := instructions;
      var jumpPos := |instructions|;
      Emit(JumpIfFalse(0));
      Emit(Pop);
      ok := CompileNode(right);
      if !ok {
        return;
      }
      ghost var cr := Gen(right, Gen(left, old(strings)).strings).instrs;
      PatchedCode(upToLeft, true, cr);
      LogicalCode(node, left, right, old(strings));
      instructions := instructions[jumpPos := JumpIfFalse(|instructions| - jumpPos - 1)];
    }

    method CompileLogicalOr(node: Node, left: Node, right: Node) returns (ok: bool)
      requires node == Or(left, right)
      modifies this`instructions, this`strings
      ensures Compiled(node, ok)
      decreases node, 0
    {
      hide Gen;
      ok := CompileNode(left);
      if !ok {
        return;
      }
      ghost var upToLeft := instructions;
      var jumpPos := |instructions|;
      Emit(JumpIfTrue(0));
      Emit(Pop);
      ok := CompileNode(right);
      if !ok {
        return;
      }
      ghost var cr := Gen(right, Gen(left, old(strings)).strings).instrs;
      PatchedCode(upToLeft, false, cr);
      LogicalCode(node, left, right, old(strings));
      instructions := instructions[jumpPos := JumpIfTrue(|instructions| - jumpPos - 1)];
    }

    method CompileInOp(node: Node, left: Node, right: Node) returns (ok: bool)
      requires node == In(left, right)
      modifies this`instructions, this`strings
      ensures Compiled(node, ok)
      decreases node, 0
    {
      ok := CompileNode(left);
      if !ok {
        return;
      }
      if !right.List? {
        return false;
      }
      ok := CompileItems(right.items);
      if !ok {
        return;
      }
      Emit(InSet(|right.items|));
    }

    /** The loop over the items of a list. */
    method CompileItems(items: seq<Node>) returns (ok: bool)
      modifies this`instructions, this`strings
      ensures ok <==> forall x | x in items :: Compilable(x)
      ensures old(instructions) <= instructions && old(strings) <= strings
      ensures ok ==> var c := GenAll(items, old(strings));
                     instructions == old(instructions) + c.instrs && strings == c.strings
      decreases items, 0
    {
      hide Gen, GenAll;
      GenAllEmpty(strings);
      var i := 0;
      while i < |items|
        invariant 0 <= i <= |items|
        invariant forall k :: 0 <= k < i ==> Compilable(items[k])
        invariant old(instructions) <= instructions && old(strings) <= strings
        invariant var c := GenAll(items[..i], old(strings));
                  instructions == old(instructions) + c.instrs && strings == c.strings
      {
        GenAllSnoc(items, i, old(strings));
        ok := CompileNode(items[i]);
        if !ok {
          assert items[i] in items;
          return;
        }
        i := i + 1;
      }
      assert items[..|items|] == items;
      ok := true;
    }

    /** The optimisation passes. Only the peephole pass does anything: dead code
        elimination and constant folding are empty in the source. */
    method Optimize() returns (total: nat)
      requires instructions != []
      modifies this`instructions, this`optimizations
      ensures instructions == Peephole(old(instructions))
      ensures total == JumpZeros(old(instructions)[..|old(instructions)| - 1])
      ensures optimizations == total
    {
      total := 0;
      ghost var was := instructions;
      var i := 0;
      while i < |instructions| - 1
        invariant 0 <= i <= |instructions| - 1 && |instructions| == |was|
        invariant forall k :: 0 <= k < i ==> instructions[k] == (if was[k] == Jump(0) then Nop else was[k])
        invariant forall k :: i <= k < |was| ==> instructions[k] == was[k]
        invariant total == JumpZeros(was[..i])
      {
        assert was[..i + 1] == was[..i] + [was[i]];
        if instructions[i] == Jump(0) {
          instructions := instructions[i := Nop];
          total := total + 1;
        }
        i := i + 1;
      }
      optimizations := total;
    }
  }

  lemma GenAllEmpty(strings: seq<string>)
    ensures GenAll([], strings) == Code([], strings)
  {
  }

  lemma {:induction false} GenAllSnoc(items: seq<Node>, i: nat, strings: seq<string>)
    requires i < |items|
    requires forall k :: 0 <= k < i ==> Compilable(items[k])
    ensures Compilable(items[i]) ==>
              var c := GenAll(items[..i], strings);
              var d := Gen(items[i], c.strings);
              GenAll(items[..i + 1], strings) == Code(c.instrs + d.instrs, d.strings)
  {
    if Compilable(items[i]) {
      if i == 0 {
        assert items[..1] == [items[0]];
        assert items[..1][1..] == [];
      } else {
        var tail := items[1..];
        GenAllSnoc(tail, i - 1, Gen(items[0], strings).strings);
        assert items[..i][1..] == tail[..i - 1];
        assert items[..i + 1][1..] == tail[..i];
      }
    }
  }

  /** Compilation of a parsed expression: a bytecode object exactly when the expression is
      valid and compilable, and then its program. */
  method FilterCompile(expr: FilterExpr) returns (bc: Bytecode?)
    ensures bc != null <==> expr.valid && expr.ast.Some? && Compilable(expr.ast.value)
    ensures bc != null ==>
              && fresh(bc)
              && Code(bc.instructions, bc.strings) == Program(expr.ast.value)
              && bc.originalCount == |bc.instructions|
  {
    if !expr.valid || expr.ast.None? {
      return null;
    }
    bc := new Bytecode();
    var ok := bc.CompileNode(expr.ast.value);
    if !ok {
      return null;
    }
    bc.Emit(Return);
    bc.originalCount := |bc.instructions|;
  }
}
