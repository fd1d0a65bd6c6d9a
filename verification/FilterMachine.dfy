/**
 The stack machine of filter_eval.c as a function, and compiler correctness: running a
 program gives what the expression means.
 */
module FilterMachine {
  import opened Common
  import opened FilterAst
  import opened FilterCode

  /** How a run ends. The source answers false for every ending but a popped Bool(true). */
  datatype Outcome =
    | Returned(value: Value, rest: seq<Value>)  // RETURN popped value and left rest
    | OffEnd(stack: seq<Value>)                 // ran past the last instruction
    | MissingField                              // the event has no such field
    | Underflow                                 // popped or peeked at an empty stack
    | Stuck                                     // bad table index, or a jump not forward

  datatype Run = Run(outcome: Outcome, peak: nat)

  datatype Step = Next(pc: int, stack: seq<Value>) | Halt(outcome: Outcome)

  function Truth(v: Value): bool {
    v == Bool(true)
  }

  /** What a run depends on besides program counter and stack. */
  datatype Machine = Machine(code: seq<Instr>, tab: seq<string>, ev: Event, lib: RegexLib)

  function StepAt(m: Machine, pc: nat, st: seq<Value>): Step
    requires pc < |m.code|
  {
    var n := |st|;
    match m.code[pc]
    case PushField(f) =>
      (match m.ev(f)
       case None => Halt(MissingField)
       case Some(v) => Next(pc + 1, st + [v]))
    case PushString(k) =>
      if k < |m.tab| then Next(pc + 1, st + [String(m.tab[k])]) else Halt(Stuck)
    case PushNumber(v) => Next(pc + 1, st + [Number(v)])
    case Pop => if n == 0 then Halt(Underflow) else Next(pc + 1, st[..n - 1])
    case Cmp(op) =>
      if n < 2 then Halt(Underflow)
      else Next(pc + 1, st[..n - 2] + [Bool(ApplyCmp(op, st[n - 2], st[n - 1], m.lib))])
    case InSet(count) =>
      if n < count + 1 then Halt(Underflow)
      else
        var items := st[n - count..];
        var left := st[n - count - 1];
        Next(pc + 1, st[..n - count - 1] +
          [Bool(exists i :: 0 <= i < |items| && CompareValues(Eq, left, items[i]))])
    case AndOp =>
      if n < 2 then Halt(Underflow)
      else Next(pc + 1, st[..n - 2] + [Bool(Truth(st[n - 2]) && Truth(st[n - 1]))])
    case OrOp =>
      if n < 2 then Halt(Underflow)
      else Next(pc + 1, st[..n - 2] + [Bool(Truth(st[n - 2]) || Truth(st[n - 1]))])
    case NotOp =>
      if n == 0 then Halt(Underflow)
      else Next(pc + 1, st[..n - 1] + [Bool(!Truth(st[n - 1]))])
    case Jump(off) => Next(pc + off, st)
    case JumpIfFalse(off) =>
      if n == 0 then Halt(Underflow)
      else Next(pc + 1 + (if st[n - 1] == Bool(false) then off else 0), st)
    case JumpIfTrue(off) =>
      if n == 0 then Halt(Underflow)
      else Next(pc + 1 + (if st[n - 1] == Bool(true) then off else 0), st)
    case Return =>
      if n == 0 then Halt(Underflow) else Halt(Returned(st[n - 1], st[..n - 1]))
    case Nop => Next(pc + 1, st)
  }

  /** The run from pc with the given stack; peak is the largest stack seen. */
  function Exec(m: Machine, pc: nat, st: seq<Value>): (r: Run)
    ensures r.peak >= |st|
    decreases |m.code| - pc
  {
    if pc >= |m.code| then Run(OffEnd(st), |st|) else
    match StepAt(m, pc, st)
    case Halt(o) => Run(o, |st|)
    case Next(pc', st') =>
      if pc' <= pc then Run(Stuck, |st|) else
        var r := Exec(m, pc', st');
        Run(r.outcome, Max(|st|, r.peak))
  }

  /** The verdict the source draws from the way a run ends. */
  predicate Verdict(o: Outcome) {
    match o
    case Returned(v, _) => Truth(v)
    case OffEnd(st) => st != [] && Truth(st[|st| - 1])
    case _ => false
  }

  // ----- correctness -----

  /** Stack depth the code of e needs above the stack it starts with. */
  function Depth(e: Node): (d: nat)
    ensures d >= 1
    decreases e, 1
  {
    match e
    case Field(_) => 1
    case Str(_) => 1
    case Num(_) => 1
    case Compare(_, l, r) => Max(Depth(l), 1 + Depth(r))
    case In(l, r) => Max(Depth(l), 1 + (if r.List? then DepthAll(r.items) else 0))
    case And(l, r) => Max(Depth(l), Depth(r))
    case Or(l, r) => Max(Depth(l), Depth(r))
    case Not(x) => Depth(x)
    case List(_) => 1
  }

  function DepthAll(items: seq<Node>): (d: nat)
    ensures d >= |items|
    decreases items, 0
  {
    if items == [] then 0 else Max(Depth(items[0]), 1 + DepthAll(items[1..]))
  }

  /** part occurs in code at pc. */
  ghost predicate At(code: seq<Instr>, pc: nat, part: seq<Instr>) {
    pc + |part| <= |code| && code[pc..pc + |part|] == part
  }

  lemma AtSplit(code: seq<Instr>, pc: nat, a: seq<Instr>, b: seq<Instr>)
    requires At(code, pc, a + b)
    ensures At(code, pc, a) && At(code, pc + |a|, b)
  {
    var c := code[pc..pc + |a + b|];
    assert c[..|a|] == a && c[|a|..] == b;
  }

  lemma AtOne(code: seq<Instr>, pc: nat, i: Instr)
    requires At(code, pc, [i])
    ensures pc < |code| && code[pc] == i
  {
    assert code[pc] == code[pc..pc + 1][0];
  }

  lemma AtTwo(code: seq<Instr>, pc: nat, pair: seq<Instr>)
    requires |pair| == 2 && At(code, pc, pair)
    ensures pc + 1 < |code| && code[pc] == pair[0] && code[pc + 1] == pair[1]
  {
    assert code[pc] == code[pc..pc + 2][0] && code[pc + 1] == code[pc..pc + 2][1];
  }

  /** from is a run that reaches the run to without its stack passing limit. */
  ghost predicate Reaches(from: Run, to: Run, limit: nat) {
    from.outcome == to.outcome && to.peak <= from.peak <= Max(limit, to.peak)
  }

  ghost predicate Aborts(from: Run, limit: nat) {
    from.outcome == MissingField && from.peak <= limit
  }

  /** One forward step of a run. */
  lemma ExecNext(m: Machine, pc: nat, st: seq<Value>, pc': nat, st': seq<Value>)
    requires pc < |m.code| && StepAt(m, pc, st) == Next(pc', st') && pc < pc'
    ensures Reaches(Exec(m, pc, st), Exec(m, pc', st'), |st|)
  {
  }

  lemma ExecHalt(m: Machine, pc: nat, st: seq<Value>)
    requires pc < |m.code| && StepAt(m, pc, st).Halt?
    ensures Exec(m, pc, st) == Run(StepAt(m, pc, st).outcome, |st|)
  {
  }

  /** The run of the next len instructions on top of st: it aborts exactly when e reaches
      a missing field, and otherwise comes out behind them with the value of e pushed. */
  ghost predicate Simulates(m: Machine, pc: nat, st: seq<Value>, len: nat, e: Node) {
    match Meaning(e, m.ev, m.lib)
    case None => Aborts(Exec(m, pc, st), |st| + Depth(e))
    case Some(v) => Reaches(Exec(m, pc, st), Exec(m, pc + len, st + [v]), |st| + Depth(e))
  }

  ghost predicate SimulatesAll(m: Machine, pc: nat, st: seq<Value>, len: nat, items: seq<Node>) {
    match MeaningAll(items, m.ev, m.lib)
    case None => Aborts(Exec(m, pc, st), |st| + DepthAll(items))
    case Some(vs) => Reaches(Exec(m, pc, st), Exec(m, pc + len, st + vs), |st| + DepthAll(items))
  }

  // How the pieces of an expression make the whole, one lemma per kind of node.

  lemma LeafSimulates(e: Node, m: Machine, pc: nat, st: seq<Value>)
    requires pc < |m.code|
    requires match e
             case Field(f) => m.code[pc] == PushField(f)
             case Num(n) => m.code[pc] == PushNumber(n)
             case Str(s) => m.code[pc].PushString? && m.code[pc].index < |m.tab| && m.tab[m.code[pc].index] == s
             case _ => false
    ensures Simulates(m, pc, st, 1, e)
  {
    match Meaning(e, m.ev, m.lib)
    case None => ExecHalt(m, pc, st);
    case Some(v) => ExecNext(m, pc, st, pc + 1, st + [v]);
  }

  lemma CmpStep(m: Machine, q: nat, st: seq<Value>, op: CmpOp, lv: Value, rv: Value)
    requires q < |m.code| && m.code[q] == Cmp(op)
    ensures StepAt(m, q, st + [lv] + [rv]) == Next(q + 1, st + [Bool(ApplyCmp(op, lv, rv, m.lib))])
  {
    var full := st + [lv] + [rv];
    assert full[..|st|] == st && full[|st|] == lv && full[|st| + 1] == rv;
  }

  lemma JumpStep(m: Machine, q: nat, st: seq<Value>, v: Value)
    requires q < |m.code| && (m.code[q].JumpIfFalse? || m.code[q].JumpIfTrue?)
    ensures StepAt(m, q, st + [v]) ==
            Next(q + 1 + (if v == Bool(m.code[q].JumpIfTrue?) then m.code[q].offset else 0), st + [v])
  {
  }

  lemma PopStep(m: Machine, q: nat, st: seq<Value>, v: Value)
    requires q < |m.code| && m.code[q] == Pop
    ensures StepAt(m, q, st + [v]) == Next(q + 1, st)
  {
    assert (st + [v])[..|st|] == st;
  }

  lemma CompareMeans(op: CmpOp, l: Node, r: Node, ev: Event, lib: RegexLib)
    ensures Depth(Compare(op, l, r)) == Max(Depth(l), 1 + Depth(r))
    ensures var lv, rv := Meaning(l, ev, lib), Meaning(r, ev, lib);
            Meaning(Compare(op, l, r), ev, lib) == if lv.None? || rv.None? then None else Some(Bool(ApplyCmp(op, lv.value, rv.value, lib)))
  {
    hide ApplyCmp;
  }

  lemma CompareSimulates(op: CmpOp, l: Node, r: Node, m: Machine, pc: nat, st: seq<Value>, n: nat, k: nat)
    requires At(m.code, pc + n + k, [Cmp(op)])
    requires Simulates(m, pc, st, n, l)
    requires forall lv :: Meaning(l, m.ev, m.lib) == Some(lv) ==> Simulates(m, pc + n, st + [lv], k, r)
    ensures Simulates(m, pc, st, n + k + 1, Compare(op, l, r))
  {
    hide Exec, StepAt, ApplyCmp, At, Meaning, Depth;
    var q := pc + n + k;
    AtOne(m.code, q, Cmp(op));
    CompareMeans(op, l, r, m.ev, m.lib);
    if Meaning(l, m.ev, m.lib).Some? && Meaning(r, m.ev, m.lib).Some? {
      var lv, rv := Meaning(l, m.ev, m.lib).value, Meaning(r, m.ev, m.lib).value;
      assert Simulates(m, pc + n, st + [lv], k, r);
      CmpStep(m, q, st, op, lv, rv);
      ExecNext(m, q, st + [lv] + [rv], q + 1, st + [Bool(ApplyCmp(op, lv, rv, m.lib))]);
    }
  }

  /** IN takes the value below its items and replaces them all by one boolean. */
  lemma InStep(m: Machine, q: nat, st: seq<Value>, lv: Value, vs: seq<Value>)
    requires q < |m.code| && m.code[q] == InSet(|vs|)
    ensures StepAt(m, q, st + [lv] + vs) ==
            Next(q + 1, st + [Bool(exists i :: 0 <= i < |vs| && CompareValues(Eq, lv, vs[i]))])
  {
    var full := st + [lv] + vs;
    assert full[|full| - |vs|..] == vs && full[..|st|] == st && full[|st|] == lv;
  }

  lemma InSimulates(l: Node, items: seq<Node>, m: Machine, pc: nat, st: seq<Value>, n: nat, k: nat)
    requires At(m.code, pc + n + k, [InSet(|items|)])
    requires Simulates(m, pc, st, n, l)
    requires forall lv :: Meaning(l, m.ev, m.lib) == Some(lv) ==> SimulatesAll(m, pc + n, st + [lv], k, items)
    ensures Simulates(m, pc, st, n + k + 1, In(l, List(items)))
  {
    hide Exec, StepAt, CompareValues, At;
    var q := pc + n + k;
    AtOne(m.code, q, InSet(|items|));
    if Meaning(l, m.ev, m.lib).Some? && MeaningAll(items, m.ev, m.lib).Some? {
      var lv, vs := Meaning(l, m.ev, m.lib).value, MeaningAll(items, m.ev, m.lib).value;
      assert SimulatesAll(m, pc + n, st + [lv], k, items);
      InStep(m, q, st, lv, vs);
      ExecNext(m, q, st + [lv] + vs, q + 1, StepAt(m, q, st + [lv] + vs).stack);
    }
  }

  lemma LogicalSimulates(e: Node, l: Node, r: Node, m: Machine, pc: nat, st: seq<Value>, n: nat, k: nat)
    requires e == And(l, r) || e == Or(l, r)
    requires pc + n + 1 < |m.code|
    requires m.code[pc + n] == Guard(e.And?, k)
    requires m.code[pc + n + 1] == Pop
    requires Simulates(m, pc, st, n, l)
    requires Simulates(m, pc + n + 2, st, k, r)
    ensures Simulates(m, pc, st, n + 2 + k, e)
  {
    hide Exec, StepAt;
    var q := pc + n;
    if Meaning(l, m.ev, m.lib).Some? {
      var lv := Meaning(l, m.ev, m.lib).value;
      JumpStep(m, q, st, lv);
      if lv == Bool(e.Or?) {
        ExecNext(m, q, st + [lv], q + 2 + k, st + [lv]);
      } else {
        PopStep(m, q + 1, st, lv);
        ExecNext(m, q, st + [lv], q + 1, st + [lv]);
        ExecNext(m, q + 1, st + [lv], q + 2, st);
      }
    }
  }

  lemma NotSimulates(x: Node, m: Machine, pc: nat, st: seq<Value>, n: nat)
    requires At(m.code, pc + n, [NotOp])
    requires Simulates(m, pc, st, n, x)
    ensures Simulates(m, pc, st, n + 1, Not(x))
  {
    hide Exec;
    AtOne(m.code, pc + n, NotOp);
    if Meaning(x, m.ev, m.lib).Some? {
      var v := Meaning(x, m.ev, m.lib).value;
      assert (st + [v])[..|st|] == st;
      ExecNext(m, pc + n, st + [v], pc + n + 1, st + [Bool(!Truth(v))]);
    }
  }

  lemma ConsSimulates(items: seq<Node>, m: Machine, pc: nat, st: seq<Value>, n: nat, k: nat)
    requires items != []
    requires Simulates(m, pc, st, n, items[0])
    requires forall v :: Meaning(items[0], m.ev, m.lib) == Some(v) ==> SimulatesAll(m, pc + n, st + [v], k, items[1..])
    ensures SimulatesAll(m, pc, st, n + k, items)
  {
    hide Exec;
    if Meaning(items[0], m.ev, m.lib).Some? {
      var v := Meaning(items[0], m.ev, m.lib).value;
      assert SimulatesAll(m, pc + n, st + [v], k, items[1..]);
      if MeaningAll(items[1..], m.ev, m.lib).Some? {
        var vs := MeaningAll(items[1..], m.ev, m.lib).value;
        assert st + [v] + vs == st + ([v] + vs);
      }
    }
  }

  /** Generated code simulates its expression wherever it stands. */
  lemma {:induction false} GenSimulates(e: Node, strings: seq<string>, m: Machine, pc: nat, st: seq<Value>)
    requires Compilable(e)
    requires Gen(e, strings).strings <= m.tab
    requires At(m.code, pc, Gen(e, strings).instrs)
    ensures Simulates(m, pc, st, |Gen(e, strings).instrs|, e)
    decreases e, 1
  {
    hide Exec, Simulates, SimulatesAll, Depth, Meaning, At;
    match e
    case Field(f) =>
      AtOne(m.code, pc, PushField(f));
      LeafSimulates(e, m, pc, st);
    case Num(n) =>
      AtOne(m.code, pc, PushNumber(n));
      LeafSimulates(e, m, pc, st);
    case Str(s) =>
      InternOk(strings, s);
      AtOne(m.code, pc, PushString(IndexOf(strings, s)));
      LeafSimulates(e, m, pc, st);
    case Compare(op, l, r) => CompareGenSimulates(e, op, l, r, strings, m, pc, st);
    case In(l, r) => InGenSimulates(e, l, r.items, strings, m, pc, st);
    case And(l, r) => LogicalGenSimulates(e, l, r, strings, m, pc, st);
    case Or(l, r) => LogicalGenSimulates(e, l, r, strings, m, pc, st);
    case Not(x) =>
      var cx := Gen(x, strings);
      AtSplit(m.code, pc, cx.instrs, [NotOp]);
      GenSimulates(x, strings, m, pc, st);
      NotSimulates(x, m, pc, st, |cx.instrs|);
  }

  lemma {:induction false} CompareGenSimulates(e: Node, op: CmpOp, l: Node, r: Node, strings: seq<string>,
                                               m: Machine, pc: nat, st: seq<Value>)
    requires e == Compare(op, l, r)
    requires Compilable(e)
    requires Gen(e, strings).strings <= m.tab
    requires At(m.code, pc, Gen(e, strings).instrs)
    ensures Simulates(m, pc, st, |Gen(e, strings).instrs|, e)
    decreases e, 0
  {
    hide Exec, Simulates, Depth, Meaning, At;
    var cl := Gen(l, strings);
    var cr := Gen(r, cl.strings);
    var n, k := |cl.instrs|, |cr.instrs|;
    GenExtends(r, cl.strings);
    AtSplit(m.code, pc, cl.instrs, cr.instrs + [Cmp(op)]);
    AtSplit(m.code, pc + n, cr.instrs, [Cmp(op)]);
    GenSimulates(l, strings, m, pc, st);
    forall lv | Meaning(l, m.ev, m.lib) == Some(lv) ensures Simulates(m, pc + n, st + [lv], k, r) {
      GenSimulates(r, cl.strings, m, pc + n, st + [lv]);
    }
    CompareSimulates(op, l, r, m, pc, st, n, k);
  }

  lemma {:induction false} InGenSimulates(e: Node, l: Node, items: seq<Node>, strings: seq<string>,
                                          m: Machine, pc: nat, st: seq<Value>)
    requires e == In(l, List(items))
    requires Compilable(e)
    requires Gen(e, strings).strings <= m.tab
    requires At(m.code, pc, Gen(e, strings).instrs)
    ensures Simulates(m, pc, st, |Gen(e, strings).instrs|, e)
    decreases e, 0
  {
    hide Exec, Simulates, SimulatesAll, Depth, Meaning, At;
    var cl := Gen(l, strings);
    var cr := GenAll(items, cl.strings);
    var n, k := |cl.instrs|, |cr.instrs|;
    GenAllExtends(items, cl.strings);
    AtSplit(m.code, pc, cl.instrs, cr.instrs + [InSet(|items|)]);
    AtSplit(m.code, pc + n, cr.instrs, [InSet(|items|)]);
    GenSimulates(l, strings, m, pc, st);
    forall lv | Meaning(l, m.ev, m.lib) == Some(lv) ensures SimulatesAll(m, pc + n, st + [lv], k, items) {
      GenAllSimulates(items, cl.strings, m, pc + n, st + [lv]);
    }
    InSimulates(l, items, m, pc, st, n, k);
  }

  lemma {:induction false} LogicalGenSimulates(e: Node, l: Node, r: Node, strings: seq<string>,
                                               m: Machine, pc: nat, st: seq<Value>)
    requires e == And(l, r) || e == Or(l, r)
    requires Compilable(e)
    requires Gen(e, strings).strings <= m.tab
    requires At(m.code, pc, Gen(e, strings).instrs)
    ensures Simulates(m, pc, st, |Gen(e, strings).instrs|, e)
    decreases e, 0
  {
    hide Exec, Simulates, Depth, Meaning, At, Gen;
    var cl := Gen(l, strings);
    var cr := Gen(r, cl.strings);
    LogicalCode(e, l, r, strings);
    var n, k := |cl.instrs|, |cr.instrs|;
    var guard := [Guard(e.And?, k), Pop];
    GenExtends(r, cl.strings);
    AtSplit(m.code, pc, cl.instrs, guard + cr.instrs);
    AtSplit(m.code, pc + n, guard, cr.instrs);
    AtTwo(m.code, pc + n, guard);
    GenSimulates(l, strings, m, pc, st);
    GenSimulates(r, cl.strings, m, pc + n + 2, st);
    LogicalSimulates(e, l, r, m, pc, st, n, k);
  }

  lemma GenAllUnfolds(items: seq<Node>, strings: seq<string>)
    requires forall x | x in items :: Compilable(x)
    ensures items == [] ==> GenAll(items, strings) == Code([], strings)
    ensures items != [] ==>
              var c := Gen(items[0], strings);
              var cs := GenAll(items[1..], c.strings);
              GenAll(items, strings) == Code(c.instrs + cs.instrs, cs.strings)
  {
    hide Gen;
  }

  lemma NoneSimulates(m: Machine, pc: nat, st: seq<Value>)
    ensures SimulatesAll(m, pc, st, 0, [])
  {
    hide Exec;
    assert st + [] == st;
  }

  lemma {:induction false} GenAllSimulates(items: seq<Node>, strings: seq<string>, m: Machine, pc: nat, st: seq<Value>)
    requires forall x | x in items :: Compilable(x)
    requires GenAll(items, strings).strings <= m.tab
    requires At(m.code, pc, GenAll(items, strings).instrs)
    ensures SimulatesAll(m, pc, st, |GenAll(items, strings).instrs|, items)
    decreases items, 0
  {
    hide Exec, Simulates, SimulatesAll, Depth, Meaning, At, Gen, GenAll;
    GenAllUnfolds(items, strings);
    if items == [] {
      NoneSimulates(m, pc, st);
    } else {
      var c := Gen(items[0], strings);
      var cs := GenAll(items[1..], c.strings);
      AtSplit(m.code, pc, c.instrs, cs.instrs);
      GenAllExtends(items[1..], c.strings);
      GenSimulates(items[0], strings, m, pc, st);
      var n, k := |c.instrs|, |cs.instrs|;
      forall v | Meaning(items[0], m.ev, m.lib) == Some(v) ensures SimulatesAll(m, pc + n, st + [v], k, items[1..]) {
        GenAllSimulates(items[1..], c.strings, m, pc + n, st + [v]);
      }
      ConsSimulates(items, m, pc, st, n, k);
    }
  }

  /** The machine that runs the program of e on an event. */
  function ProgramMachine(e: Node, ev: Event, lib: RegexLib): Machine
    requires Compilable(e)
  {
    Machine(Program(e).instrs, Program(e).strings, ev, lib)
  }

  /**
   Compiler correctness. For every expression that compiles and every event, the program
   aborts when the expression reaches a missing field and otherwise returns the value of
   the expression as the only value on the stack. No pop underflows, no index or jump goes
   wrong, and the stack never grows past Depth(e).
   */
  lemma ProgramCorrect(e: Node, ev: Event, lib: RegexLib)
    requires Compilable(e)
    ensures var run := Exec(ProgramMachine(e, ev, lib), 0, []);
            && run.outcome == (match Meaning(e, ev, lib)
                               case None => MissingField
                               case Some(v) => Returned(v, []))
            && (Verdict(run.outcome) <==> Accepts(e, ev, lib))
            && run.peak <= Depth(e)
  {
    hide Gen, Meaning, Depth;
    var c := Gen(e, []);
    var m := ProgramMachine(e, ev, lib);
    assert m.code[0..|c.instrs|] == c.instrs;
    GenSimulates(e, [], m, 0, []);
    if Meaning(e, ev, lib).Some? {
      var v := Meaning(e, ev, lib).value;
      assert m.code[|c.instrs|] == Return;
      assert [] + [v] == [v] && [v][..0] == [];
      ExecHalt(m, |c.instrs|, [v]);
    }
  }

  /** The same holds of the optimised program: optimisation leaves programs alone. */
  lemma OptimizedProgramCorrect(e: Node, ev: Event, lib: RegexLib)
    requires Compilable(e)
    ensures Peephole(Program(e).instrs) == Program(e).instrs
    ensures Verdict(Exec(ProgramMachine(e, ev, lib).(code := Peephole(Program(e).instrs)), 0, []).outcome)
            <==> Accepts(e, ev, lib)
  {
    ProgramShape(e);
    PeepholeChanges(Program(e).instrs, |Program(e).strings|);
    ProgramCorrect(e, ev, lib);
  }
}
