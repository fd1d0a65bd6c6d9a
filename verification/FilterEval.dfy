/**
 The evaluation context and interpreter loop of filter_eval.c: a stack that survives
 between evaluations until the next one resets it, and a cache of compiled patterns that
 only grows. The verdict depends on neither.
 */
module FilterEval {
  import opened Common
  import opened FilterAst
  import opened FilterCode
  import opened FilterMachine

  datatype CacheEntry = CacheEntry(pattern: string, compiled: nat, valid: bool)

  class EvalContext {
    const lib: RegexLib
    var stack: seq<Value>
    var cache: seq<CacheEntry>

    constructor (lib: RegexLib)
      ensures this.lib == lib && stack == [] && cache == []
      ensures CacheOk()
    {
      this.lib := lib;
      stack, cache := [], [];
    }

    /** Every entry is live, holds the compilation of its own pattern, and no pattern has
        two entries. */
    ghost predicate CacheOk()
      reads this
    {
      && (forall i :: 0 <= i < |cache| ==>
            cache[i].valid && lib.compile(cache[i].pattern) == Some(cache[i].compiled))
      && (forall i, j :: 0 <= i < j < |cache| ==> cache[i].pattern != cache[j].pattern)
    }

    ghost predicate Cached(pattern: string)
      reads this
    {
      exists i :: 0 <= i < |cache| && cache[i].pattern == pattern
    }

    method Push(v: Value)
      modifies this`stack
      ensures stack == old(stack) + [v]
    {
      stack := stack + [v];
    }

    method PopValue() returns (v: Option<Value>)
      modifies this`stack
      ensures old(stack) == [] ==> v.None? && stack == []
      ensures old(stack) != [] ==>
                && v == Some(old(stack)[|old(stack)| - 1])
                && stack == old(stack)[..|old(stack)| - 1]
    {
      if stack == [] {
        return None;
      }
      v := Some(stack[|stack| - 1]);
      stack := stack[..|stack| - 1];
    }

    /** Pop the right operand, then the left one. */
    method PopOperands() returns (operands: Option<(Value, Value)>)
      modifies this`stack
      ensures |old(stack)| < 2 ==> operands.None?
      ensures |old(stack)| >= 2 ==>
                var n := |old(stack)|;
                && operands == Some((old(stack)[n - 2], old(stack)[n - 1]))
                && stack == old(stack)[..n - 2]
    {
      var right := PopValue();
      if right.None? {
        return None;
      }
      var left := PopValue();
      if left.None? {
        return None;
      }
      operands := Some((left.value, right.value));
    }

    /** The compiled pattern, from the cache or compiled now; a pattern that does not
        compile leaves the cache as it was. */
    method GetCompiledRegex(pattern: string) returns (r: Option<nat>)
      requires CacheOk()
      modifies this`cache
      ensures CacheOk()
      ensures r == lib.compile(pattern)
      ensures old(Cached(pattern)) || r.None? ==> cache == old(cache)
      ensures !old(Cached(pattern)) && r.Some? ==> cache == old(cache) + [CacheEntry(pattern, r.value, true)]
    {
      var i := 0;
      while i < |cache|
        invariant 0 <= i <= |cache|
        invariant cache == old(cache)
        invariant forall j :: 0 <= j < i ==> cache[j].pattern != pattern
      {
        if cache[i].valid && cache[i].pattern == pattern {
          return Some(cache[i].compiled);
        }
        i := i + 1;
      }
      r := lib.compile(pattern);
      if r.Some? {
        cache := cache + [CacheEntry(pattern, r.value, true)];
      }
    }

    method MatchRegex(text: string, pattern: string) returns (b: bool)
      requires CacheOk()
      modifies this`cache
      ensures CacheOk() && old(cache) <= cache
      ensures b == Matches(lib, text, pattern)
    {
      var regex := GetCompiledRegex(pattern);
      if regex.None? {
        return false;
      }
      b := lib.exec(regex.value, text);
    }

    /** MATCH and NMATCH on two popped values. */
    method CompareOrMatch(op: CmpOp, left: Value, right: Value) returns (b: bool)
      requires CacheOk()
      modifies this`cache
      ensures CacheOk() && old(cache) <= cache
      ensures b == ApplyCmp(op, left, right, lib)
    {
      if op.Match? || op.NMatch? {
        if left.String? && right.String? {
          var matches := MatchRegex(left.s, right.s);
          b := if op.Match? then matches else !matches;
        } else {
          b := false;
        }
      } else {
        b := CompareValues(op, left, right);
      }
    }

    /** IN: pop count items, pop the value below them, and look for it among them. */
    method PopMembership(count: nat) returns (found: Option<bool>)
      modifies this`stack
      ensures |old(stack)| < count + 1 ==> found.None?
      ensures |old(stack)| >= count + 1 ==>
                var n := |old(stack)|;
                var items := old(stack)[n - count..];
                && found == Some(exists i :: 0 <= i < |items| &&
                                   CompareValues(Eq, old(stack)[n - count - 1], items[i]))
                && stack == old(stack)[..n - count - 1]
    {
      ghost var was := stack;
      var items := [];
      var i := 0;
      while i < count
        invariant 0 <= i <= count && |items| == i
        invariant was == stack + items
      {
        var v := PopValue();
        if v.None? {
          return None;
        }
        items := [v.value] + items;
        i := i + 1;
      }
      assert items == was[|was| - count..];
      var left := PopValue();
      if left.None? {
        return None;
      }
      var hit := false;
      i := 0;
      while i < count && !hit
        invariant 0 <= i <= count
        invariant hit <==> exists j :: 0 <= j < i && CompareValues(Eq, left.value, items[j])
      {
        hit := CompareValues(Eq, left.value, items[i]);
        i := i + 1;
      }
      found := Some(hit);
    }

    /** One instruction of the interpreter: the next program counter, or the verdict when
        the evaluation is over. */
    method Interpret(code: seq<Instr>, tab: seq<string>, ev: Event, pc: nat)
      returns (next: nat, verdict: Option<bool>)
      requires CacheOk()
      requires Runnable(code, |tab|) && pc < |code|
      modifies this
      ensures CacheOk() && old(cache) <= cache
      ensures match StepAt(Machine(code, tab, ev, lib), pc, old(stack))
              case Halt(o) => verdict == Some(Verdict(o))
              case Next(pc', st') => verdict == None && pc < next <= |code| && next == pc' && stack == st'
    {
      hide ApplyCmp, CompareValues;
      next, verdict := pc + 1, None;
      match code[pc] {
        case PushField(f) =>
          var val := ev(f);
          if val.None? {
            verdict := Some(false);
            return;
          }
          Push(val.value);
        case PushString(k) => Push(String(tab[k]));
        case PushNumber(n) => Push(Number(n));
        case Pop =>
          var val := PopValue();
          if val.None? {
            verdict := Some(false);
            return;
          }
        case Cmp(op) =>
          var operands := PopOperands();
          if operands.None? {
            verdict := Some(false);
            return;
          }
          var (left, right) := operands.value;
          var b := CompareOrMatch(op, left, right);
          Push(Bool(b));
        case InSet(count) =>
          var found := PopMembership(count);
          if found.None? {
            verdict := Some(false);
            return;
          }
          Push(Bool(found.value));
        case AndOp =>
          var operands := PopOperands();
          if operands.None? {
            verdict := Some(false);
            return;
          }
          var (left, right) := operands.value;
          Push(Bool(Truth(left) && Truth(right)));
        case OrOp =>
          var operands := PopOperands();
          if operands.None? {
            verdict := Some(false);
            return;
          }
          var (left, right) := operands.value;
          Push(Bool(Truth(left) || Truth(right)));
        case NotOp =>
          var left := PopValue();
          if left.None? {
            verdict := Some(false);
            return;
          }
          Push(Bool(!Truth(left.value)));
        case Jump(off) => next := pc + off;
        case JumpIfFalse(off) =>
          if stack == [] {
            verdict := Some(false);
            return;
          }
          if stack[|stack| - 1] == Bool(false) {
            next := pc + off + 1;
          }
        case JumpIfTrue(off) =>
          if stack == [] {
            verdict := Some(false);
            return;
          }
          if stack[|stack| - 1] == Bool(true) {
            next := pc + off + 1;
          }
        case Return =>
          var result := PopValue();
          verdict := Some(result.Some? && Truth(result.value));
        case Nop =>
      }
    }

    method EvalBytecode(code: seq<Instr>, tab: seq<string>, ev: Event) returns (result: bool)
      requires CacheOk()
      requires Runnable(code, |tab|)
      modifies this
      ensures CacheOk() && old(cache) <= cache
      ensures result == Verdict(Exec(Machine(code, tab, ev, lib), 0, old(stack)).outcome)
    {
      hide StepAt, Runnable;
      ghost var m := Machine(code, tab, ev, lib);
      var pc: nat := 0;
      while pc < |code|
        invariant pc <= |code|
        invariant CacheOk() && old(cache) <= cache
        invariant Exec(m, pc, stack).outcome == Exec(m, 0, old(stack)).outcome
        decreases |code| - pc
      {
        var next, verdict := Interpret(code, tab, ev, pc);
        if verdict.Some? {
          return verdict.value;
        }
        pc := next;
      }
      var top := PopValue();
      result := top.Some? && Truth(top.value);
    }
  }

  /**
   Evaluation of bytecode on an event, in the caller's context or, without one, in a new
   one. Whatever earlier evaluations left in the context, the answer is that of a fresh
   context.
   */
  method FilterEval(bytecode: Code, ev: Event, lib: RegexLib, ctx: EvalContext?) returns (result: bool)
    requires Runnable(bytecode.instrs, |bytecode.strings|)
    requires ctx != null ==> ctx.CacheOk() && ctx.lib == lib
    modifies ctx
    ensures ctx != null ==> ctx.CacheOk() && old(ctx.cache) <= ctx.cache
    ensures result == Verdict(Exec(Machine(bytecode.instrs, bytecode.strings, ev, lib), 0, []).outcome)
  {
    var local: EvalContext;
    if ctx == null {
      local := new EvalContext(lib);
    } else {
      local := ctx;
    }
    local.stack := [];
    result := local.EvalBytecode(bytecode.instrs, bytecode.strings, ev);
  }

  /** Evaluating the program of an expression, in any context, gives its meaning. */
  method EvalProgram(ghost e: Node, bytecode: Code, ev: Event, lib: RegexLib, ctx: EvalContext?) returns (result: bool)
    requires Compilable(e) && bytecode == Program(e)
    requires ctx != null ==> ctx.CacheOk() && ctx.lib == lib
    modifies ctx
    ensures ctx != null ==> ctx.CacheOk() && old(ctx.cache) <= ctx.cache
    ensures result == Accepts(e, ev, lib)
  {
    ProgramShape(e);
    ProgramCorrect(e, ev, lib);
    result := FilterEval(bytecode, ev, lib, ctx);
  }
}
