/**
 The named collection of compiled filters of filter_manager.c: an ordered list of entries,
 newest first, each with its expression, bytecode, switch and counters, evaluated in one
 shared context. Persistence, descriptions and times are not part of the model.
 */
module FilterManager {
  import opened Common
  import opened FilterAst
  import opened FilterCode
  import opened FilterGrammar
  import opened FilterParser
  import opened FilterCompiler
  import opened FilterEval

  /** What a filter is, apart from its counters. */
  datatype Filter = Filter(name: string, expression: string, enabled: bool)

  /** Expressions the manager takes: they parse and they compile. */
  predicate Usable(g: Grammar, expression: string) {
    var r := g.Parse(expression);
    r.valid && Compilable(r.ast.value)
  }

  function ProgramOf(g: Grammar, expression: string): Code
    requires Usable(g, expression)
  {
    Program(g.Parse(expression).ast.value)
  }

  /** The expression accepts the event. */
  predicate Satisfied(g: Grammar, lib: RegexLib, expression: string, ev: Event) {
    Usable(g, expression) && Accepts(g.Parse(expression).ast.value, ev, lib)
  }

  predicate Matching(g: Grammar, lib: RegexLib, f: Filter, ev: Event) {
    f.enabled && Satisfied(g, lib, f.expression, ev)
  }

  /** Names of the matching filters, in list order. */
  function MatchingNames(g: Grammar, lib: RegexLib, fs: seq<Filter>, ev: Event): seq<string> {
    if fs == [] then [] else
      var n := |fs| - 1;
      MatchingNames(g, lib, fs[..n], ev) + (if Matching(g, lib, fs[n], ev) then [fs[n].name] else [])
  }

  lemma MatchingNone(g: Grammar, lib: RegexLib, fs: seq<Filter>, ev: Event)
    requires fs == []
    ensures MatchingNames(g, lib, fs, ev) == []
  {
  }

  lemma MatchingSnoc(g: Grammar, lib: RegexLib, fs: seq<Filter>, i: nat, ev: Event)
    requires i < |fs|
    ensures MatchingNames(g, lib, fs[..i + 1], ev) ==
            MatchingNames(g, lib, fs[..i], ev) + (if Matching(g, lib, fs[i], ev) then [fs[i].name] else [])
  {
    assert fs[..i + 1][..i] == fs[..i];
  }

  ghost predicate HasName(fs: seq<Filter>, name: string) {
    exists i :: 0 <= i < |fs| && fs[i].name == name
  }

  class FilterEntry {
    const name: string
    var expression: string
    var compiled: Code
    var enabled: bool
    var evalCount: nat
    var matchCount: nat

    constructor (name: string, expression: string, compiled: Code)
      ensures this.name == name && this.expression == expression && this.compiled == compiled
      ensures enabled && evalCount == 0 && matchCount == 0
    {
      this.name := name;
      this.expression := expression;
      this.compiled := compiled;
      enabled, evalCount, matchCount := true, 0, 0;
    }

    /** The bytecode is the program of the entry's own expression. */
    ghost predicate Ok(g: Grammar)
      reads this
    {
      && Usable(g, expression)
      && compiled == ProgramOf(g, expression)
      && matchCount <= evalCount
    }

    function View(): Filter
      reads this
    {
      Filter(name, expression, enabled)
    }

    /** The verdict of the bytecode is that of the expression. */
    method Evaluate(g: Grammar, lib: RegexLib, ctx: EvalContext, ev: Event) returns (result: bool)
      requires Ok(g) && ctx.CacheOk() && ctx.lib == lib
      modifies ctx, this`evalCount, this`matchCount
      ensures Ok(g) && ctx.CacheOk()
      ensures result == Satisfied(g, lib, expression, ev)
      ensures evalCount == old(evalCount) + 1
      ensures matchCount == old(matchCount) + (if result then 1 else 0)
    {
      result := EvalProgram(g.Parse(expression).ast.value, compiled, ev, lib, ctx);
      evalCount := evalCount + 1;
      if result {
        matchCount := matchCount + 1;
      }
    }

    method Replace(g: Grammar, expression: string, compiled: Code)
      requires Usable(g, expression) && compiled == ProgramOf(g, expression)
      modifies this
      ensures Ok(g) && View() == old(View()).(expression := expression)
      ensures evalCount == matchCount == 0
    {
      this.expression, this.compiled := expression, compiled;
      evalCount, matchCount := 0, 0;
    }
  }

  /** Parse, compile and optimise an expression. */
  method Build(g: Grammar, expression: string) returns (code: Option<Code>)
    ensures code.Some? <==> Usable(g, expression)
    ensures code.Some? ==> code.value == ProgramOf(g, expression)
  {
    var parsed := FilterParse(g, expression);
    if !parsed.valid {
      return None;
    }
    var bc := FilterCompile(parsed);
    if bc == null {
      return None;
    }
    ProgramShape(parsed.ast.value);
    PeepholeChanges(bc.instructions, |bc.strings|);
    var _ := bc.Optimize();
    code := Some(Code(bc.instructions, bc.strings));
  }

  class FilterManager {
    const g: Grammar
    const lib: RegexLib
    const evalCtx: EvalContext
    var filters: seq<FilterEntry>
    var filterCount: nat
    ghost var view: seq<Filter>  // what each entry is, in list order

    constructor (g: Grammar, lib: RegexLib)
      ensures this.g == g && this.lib == lib && fresh(evalCtx)
      ensures Valid() && view == []
    {
      this.g := g;
      this.lib := lib;
      filters, filterCount, view := [], 0, [];
      evalCtx := new EvalContext(lib);
    }

    ghost predicate Valid()
      reads this, filters, evalCtx
    {
      && filterCount == |filters| == |view|
      && (forall i :: 0 <= i < |filters| ==> filters[i].View() == view[i])
      && evalCtx.lib == lib && evalCtx.CacheOk()
      && (forall i, j :: 0 <= i < j < |filters| ==> filters[i] != filters[j] && filters[i].name != filters[j].name)
      && (forall i :: 0 <= i < |filters| ==> filters[i].Ok(g))
    }

    /** Position of the entry with this name, if there is one. */
    method Find(name: string) returns (i: nat)
      requires Valid()
      ensures i <= |filters|
      ensures i < |filters| ==> filters[i].name == name
      ensures i < |filters| <==> HasName(view, name)
    {
      hide FilterEntry.Ok, EvalContext.CacheOk;
      i := 0;
      while i < |filters|
        invariant 0 <= i <= |filters|
        invariant forall j :: 0 <= j < i ==> view[j].name != name
      {
        if filters[i].name == name {
          assert view[i].name == name;
          return;
        }
        i := i + 1;
      }
    }

    /** Adding succeeds exactly for a new name and a usable expression; the new filter goes
        first. Otherwise nothing changes. */
    method Add(name: string, expression: string) returns (ok: bool)
      requires Valid()
      modifies this
      ensures Valid()
      ensures ok <==> !HasName(old(view), name) && Usable(g, expression)
      ensures view == (if ok then [Filter(name, expression, true)] else []) + old(view)
    {
      hide Usable, ProgramOf, Satisfied, EvalContext.CacheOk;
      var i := Find(name);
      if i < |filters| {
        return false;
      }
      var code := Build(g, expression);
      if code.None? {
        return false;
      }
      var entry := new FilterEntry(name, expression, code.value);
      filters := [entry] + filters;
      filterCount := filterCount + 1;
      view := [entry.View()] + view;
      ok := true;
    }

    /** Removing takes out the one filter of that name and keeps the order of the rest. */
    method Remove(name: string) returns (ok: bool)
      requires Valid()
      modifies this
      ensures Valid()
      ensures ok <==> HasName(old(view), name)
      ensures !HasName(view, name)
      ensures !ok ==> view == old(view)
      ensures ok ==> exists k :: 0 <= k < |old(view)| && old(view)[k].name == name &&
                                 view == old(view)[..k] + old(view)[k + 1..]
    {
      hide Usable, ProgramOf, Satisfied, EvalContext.CacheOk;
      var k := Find(name);
      if k == |filters| {
        return false;
      }
      filters := filters[..k] + filters[k + 1..];
      filterCount := filterCount - 1;
      ok := true;
      view := view[..k] + view[k + 1..];
    }

    /** Updating replaces the expression of the named filter, clears its counters and leaves
        all else; with an unusable expression or an unknown name it changes nothing. */
    method Update(name: string, expression: string) returns (ok: bool)
      requires Valid()
      modifies this`view, filters
      ensures Valid()
      ensures ok <==> HasName(old(view), name) && Usable(g, expression)
      ensures ok ==> exists k :: 0 <= k < |filters| && old(view)[k].name == name &&
                                 view == old(view)[k := old(view)[k].(expression := expression)]
      ensures !ok ==> view == old(view)
      ensures forall j :: 0 <= j < |filters| ==>
                if ok && filters[j].name == name then filters[j].evalCount == filters[j].matchCount == 0
                else unchanged(filters[j])
    {
      hide Usable, ProgramOf, Satisfied, EvalContext.CacheOk, FilterEntry.Ok;
      var k := Find(name);
      if k == |filters| {
        return false;
      }
      var code := Build(g, expression);
      if code.None? {
        return false;
      }
      var entry := filters[k];
      entry.Replace(g, expression, code.value);
      ok := true;
      view := view[k := entry.View()];
    }

    /** Switching a filter on or off. */
    method SetEnabled(name: string, on: bool) returns (ok: bool)
      requires Valid()
      modifies this`view, filters
      ensures Valid()
      ensures ok <==> HasName(old(view), name)
      ensures ok ==> exists k :: 0 <= k < |filters| && old(view)[k].name == name &&
                                 view == old(view)[k := old(view)[k].(enabled := on)]
      ensures !ok ==> view == old(view)
      ensures forall j :: 0 <= j < |filters| ==>
                && filters[j].evalCount == old(filters[j].evalCount)
                && filters[j].matchCount == old(filters[j].matchCount)
    {
      hide Usable, ProgramOf, Satisfied, EvalContext.CacheOk;
      var k := Find(name);
      if k == |filters| {
        return false;
      }
      filters[k].enabled := on;
      ok := true;
      view := view[k := filters[k].View()];
    }

    /** One filter: the answer is the meaning of its expression, or false when it is off or
        unknown; only its own counters move. */
    method Eval(name: string, ev: Event) returns (result: bool)
      requires Valid()
      modifies filters, evalCtx
      ensures Valid() && view == old(view)
      ensures forall k :: 0 <= k < |filters| && filters[k].name == name ==> (result <==> Matching(g, lib, view[k], ev))
      ensures !HasName(view, name) ==> !result
      ensures forall k :: 0 <= k < |filters| ==>
                var e := filters[k];
                var hit := e.name == name && e.enabled;
                && e.evalCount == old(e.evalCount) + (if hit then 1 else 0)
                && e.matchCount == old(e.matchCount) + (if hit && result then 1 else 0)
    {
      hide Usable, ProgramOf, Satisfied, EvalContext.CacheOk, FilterEntry.Ok;
      var k := Find(name);
      if k == |filters| || !filters[k].enabled {
        return false;
      }
      var entry := filters[k];
      result := entry.Evaluate(g, lib, evalCtx, ev);
    }

    /** The turn of the filter at position i among all filters. */
    method EvalAt(i: nat, ev: Event) returns (hit: bool)
      requires Valid() && i < |filters|
      modifies filters, evalCtx
      ensures Valid() && view == old(view)
      ensures hit == Matching(g, lib, view[i], ev)
      ensures forall k :: 0 <= k < |filters| ==>
                && filters[k].evalCount == old(filters[k].evalCount) + (if k == i && view[k].enabled then 1 else 0)
                && filters[k].matchCount == old(filters[k].matchCount) + (if k == i && hit then 1 else 0)
    {
      hide Usable, ProgramOf, Satisfied, EvalContext.CacheOk, FilterEntry.Ok;
      var entry := filters[i];
      hit := false;
      if entry.enabled {
        hit := Eval(entry.name, ev);
      }
    }

    /** All filters: how many enabled ones accept the event, and the names of the first
        max of them in list order. */
    method EvalAll(ev: Event, max: nat) returns (matches: seq<string>, count: nat)
      requires Valid()
      modifies filters, evalCtx
      ensures Valid() && view == old(view)
      ensures count == |MatchingNames(g, lib, view, ev)|
      ensures matches == MatchingNames(g, lib, view, ev)[..Min(max, count)]
      ensures forall k :: 0 <= k < |filters| ==>
                && filters[k].evalCount == old(filters[k].evalCount) + (if view[k].enabled then 1 else 0)
                && filters[k].matchCount == old(filters[k].matchCount) + (if Matching(g, lib, view[k], ev) then 1 else 0)
    {
      hide Matching, MatchingNames, EvalContext.CacheOk, FilterEntry.Ok;
      matches, count := [], 0;
      MatchingNone(g, lib, view[..0], ev);
      var i := 0;
      while i < |filters|
        invariant 0 <= i <= |filters|
        invariant Valid() && view == old(view)
        invariant count == |MatchingNames(g, lib, view[..i], ev)|
        invariant matches == MatchingNames(g, lib, view[..i], ev)[..Min(max, count)]
        invariant forall k :: 0 <= k < |filters| ==>
                    && filters[k].evalCount == old(filters[k].evalCount) + (if k < i && view[k].enabled then 1 else 0)
                    && filters[k].matchCount ==
                       old(filters[k].matchCount) + (if k < i && Matching(g, lib, view[k], ev) then 1 else 0)
      {
        MatchingSnoc(g, lib, view, i, ev);
        var hit := EvalAt(i, ev);
        if hit {
          if count < max {
            matches := matches + [filters[i].name];
          }
          count := count + 1;
        }
        i := i + 1;
      }
      assert view[..|view|] == view;
    }
  }
}
