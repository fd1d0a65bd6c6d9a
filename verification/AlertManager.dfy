/**
 The alert manager (alert_manager.c): slots of rules with compiled conditions, evaluated in
 slot order against each event. The clock and the outcome of the actions are parameters.
 */
module AlertManager {
  import opened Common
  import opened FilterAst
  import opened FilterCode
  import opened FilterGrammar
  import opened FilterParser
  import opened FilterCompiler
  import opened FilterEval
  import FilterManager
  import R = AlertRules
  import H = AlertHistory

  /** A slot in use. */
  datatype Rule = Rule(id: nat, condition: string, code: Code, entry: R.Entry)

  datatype View = View(rules: seq<Option<Rule>>, book: H.Book, rateLimited: nat, nextId: nat)

  /** What an event does: the grammar, the regular expressions, the event and the time. */
  datatype Occasion = Occasion(g: Grammar, lib: RegexLib, ev: Event, now: int)

  predicate Usable(rule: Option<Rule>) {
    rule.Some? ==> R.WellFormed(rule.value.entry)
  }

  ghost predicate Sound(v: View) {
    H.WellFormed(v.book) && forall i :: 0 <= i < |v.rules| ==> Usable(v.rules[i])
  }

  function Tried(o: Occasion, rule: Rule): R.Attempted
    requires R.WellFormed(rule.entry)
  {
    R.Attempt(rule.entry, FilterManager.Satisfied(o.g, o.lib, rule.condition, o.ev), o.now)
  }

  /** The turn of the rule in slot i. */
  ghost function Turn(o: Occasion, v: View, i: nat): (r: View)
    requires Sound(v) && i < |v.rules|
    ensures Sound(r) && |r.rules| == |v.rules|
  {
    if v.rules[i].None? then v else
      var t := Tried(o, v.rules[i].value);
      View(v.rules[i := Some(v.rules[i].value.(entry := t.entry))],
           if t.outcome.Triggered? then H.Raised(v.book) else v.book,
           if t.outcome.RateLimited? then v.rateLimited + 1 else v.rateLimited,
           v.nextId)
  }

  /** The turns of the first n slots. */
  ghost function Turns(o: Occasion, v: View, n: nat): (r: View)
    requires Sound(v) && n <= |v.rules|
    ensures Sound(r) && |r.rules| == |v.rules|
  {
    if n == 0 then v else Turn(o, Turns(o, v, n - 1), n - 1)
  }

  predicate Fires(o: Occasion, rule: Option<Rule>)
    requires Usable(rule)
  {
    rule.Some? && Tried(o, rule.value).outcome.Triggered?
  }

  /** How many of the first n rules the event triggers. */
  ghost function Fired(o: Occasion, v: View, n: nat): nat
    requires Sound(v) && n <= |v.rules|
  {
    if n == 0 then 0 else Fired(o, v, n - 1) + if Fires(o, v.rules[n - 1]) then 1 else 0
  }

  function RaisedTimes(b: H.Book, k: nat): (r: H.Book)
    requires H.WellFormed(b)
    ensures H.WellFormed(r)
  {
    if k == 0 then b else H.Do(RaisedTimes(b, k - 1), H.Raise).book
  }

  /** Each rule is tried once, on its own state as it was before the event, whatever the other
      rules do, and the history changes by raising one alert for each that triggers. */
  lemma {:induction false} TurnsIndependent(o: Occasion, v: View, n: nat)
    requires Sound(v) && n <= |v.rules|
    ensures var w := Turns(o, v, n);
            && (forall i :: 0 <= i < n && v.rules[i].Some? ==> w.rules[i] == Some(v.rules[i].value.(entry := Tried(o, v.rules[i].value).entry)))
            && (forall i :: 0 <= i < |v.rules| && (i >= n || v.rules[i].None?) ==> w.rules[i] == v.rules[i])
            && w.book == RaisedTimes(v.book, Fired(o, v, n))
  {
    hide Tried, H.Raised;
    if n > 0 {
      TurnsIndependent(o, v, n - 1);
    }
  }

  ghost predicate HasRule(rules: seq<Option<Rule>>, id: nat) {
    exists i :: 0 <= i < |rules| && rules[i].Some? && rules[i].value.id == id
  }

  /** Slot i is the first free one. */
  predicate FirstFree(rules: seq<Option<Rule>>, i: nat) {
    i < |rules| && rules[i].None? && forall j :: 0 <= j < i ==> rules[j].Some?
  }

  /** The calls of the manager, with what they did. */
  datatype Call =
    | Added(rule: Rule)
    | NotAdded
    | Removed(id: nat)
    | Adjusted(id: nat, act: R.Act)
    | Evaluated(o: Occasion)
    | Told(deed: H.Deed)

  predicate Is(rule: Option<Rule>, id: nat) {
    rule.Some? && rule.value.id == id
  }

  /** The rule after one of the calls that act on a single rule. */
  function Adjusting(rule: Option<Rule>, id: nat, act: R.Act): Option<Rule>
    requires Usable(rule)
  {
    if Is(rule, id) then Some(rule.value.(entry := R.Perform(rule.value.entry, act).entry)) else rule
  }

  ghost predicate Step(v: View, c: Call, v': View)
    requires Sound(v)
  {
    match c
    case Added(rule) =>
      && rule.id == v.nextId && rule.entry == R.Fresh(rule.entry.enabled, rule.entry.limit, rule.entry.window, rule.entry.quiet)
      && exists i: nat :: FirstFree(v.rules, i) && v' == v.(rules := v.rules[i := Some(rule)], nextId := v.nextId + 1)
    case NotAdded => v' == v || v' == v.(nextId := v.nextId + 1)
    case Removed(id) =>
      && |v'.rules| == |v.rules| && v' == v.(rules := v'.rules)
      && forall i :: 0 <= i < |v.rules| ==> v'.rules[i] == if Is(v.rules[i], id) then None else v.rules[i]
    case Adjusted(id, act) =>
      && !act.Consider? && |v'.rules| == |v.rules| && v' == v.(rules := v'.rules)
      && forall i :: 0 <= i < |v.rules| ==> v'.rules[i] == Adjusting(v.rules[i], id, act)
    case Evaluated(o) => v' == Turns(o, v, |v.rules|)
    case Told(deed) => !deed.Raise? && v' == v.(book := H.Do(v.book, deed).book)
  }

  class AlertManager {
    const g: Grammar
    const lib: RegexLib
    const rules: array<Option<Rule>>
    var nextRuleId: nat
    const history: array<H.Instance>
    var historyCount: nat
    var historyIndex: nat
    var nextAlertId: nat
    var triggered: nat
    var executed: nat
    var failed: nat
    var rateLimited: nat
    var active: nat
    var acknowledged: nat

    constructor (g: Grammar, lib: RegexLib, maxRules: nat, maxHistory: nat)
      ensures this.g == g && this.lib == lib && fresh(rules) && fresh(history)
      ensures Valid() && rules.Length == (if maxRules == 0 then 32 else maxRules)
      ensures forall i :: 0 <= i < rules.Length ==> rules[i].None?
      ensures Book() == H.EmptyBook(if maxHistory == 0 then 1000 else maxHistory)
    {
      this.g := g;
      this.lib := lib;
      rules := new Option<Rule>[if maxRules == 0 then 32 else maxRules](_ => None);
      history := new H.Instance[if maxHistory == 0 then 1000 else maxHistory](_ => H.Instance(0, H.Inactive));
      nextRuleId, nextAlertId := 1, 1;
      historyCount, historyIndex := 0, 0;
      triggered, executed, failed, rateLimited, active, acknowledged := 0, 0, 0, 0, 0, 0;
      new;
      assert Book().slots == H.EmptyBook(if maxHistory == 0 then 1000 else maxHistory).slots;
    }

    ghost function Book(): H.Book
      reads this, history
    {
      H.Book(history[..], historyCount, historyIndex, nextAlertId, triggered, active, acknowledged)
    }

    ghost function Abs(): View
      reads this, rules, history
    {
      View(rules[..], Book(), rateLimited, nextRuleId)
    }

    /** A rule's condition is usable, its code is the condition's program, its limits fit. */
    ghost predicate RuleOk(rule: Rule)
      reads `nextRuleId
    {
      && 0 < rule.id < nextRuleId
      && FilterManager.Usable(g, rule.condition)
      && rule.code == FilterManager.ProgramOf(g, rule.condition)
      && R.WellFormed(rule.entry)
    }

    ghost predicate Valid()
      reads this, rules, history
      ensures Valid() ==> Sound(Abs())
    {
      && H.WellFormed(Book())
      && nextRuleId > 0
      && executed + failed == triggered
      && (forall i :: 0 <= i < rules.Length && rules[i].Some? ==> RuleOk(rules[i].value))
      && (forall i, j :: 0 <= i < j < rules.Length && rules[i].Some? && rules[j].Some? ==> rules[i].value.id != rules[j].value.id)
    }

    /** Slot of the rule with this id, if there is one. */
    method Find(id: nat) returns (i: nat)
      requires Valid()
      ensures i <= rules.Length
      ensures i < rules.Length ==> rules[i].Some? && rules[i].value.id == id
      ensures i < rules.Length <==> HasRule(rules[..], id)
    {
      hide FilterManager.Usable, FilterManager.ProgramOf, RuleOk;
      i := 0;
      while i < rules.Length
        invariant i <= rules.Length
        invariant forall j :: 0 <= j < i ==> !(rules[j].Some? && rules[j].value.id == id)
      {
        if rules[i].Some? && rules[i].value.id == id {
          assert rules[..][i] == rules[i];
          return;
        }
        i := i + 1;
      }
    }

    /** Adding takes the first free slot and a new id. It fails, and changes no rule, exactly
        when the name or the condition is empty, the condition does not parse or compile, or
        no slot is free. */
    method AddRule(name: string, condition: string, enabled: bool, limit: nat, window: nat, quiet: nat) returns (id: int)
      requires Valid()
      modifies this`nextRuleId, rules
      ensures Valid()
      ensures id == -1 <==> name == "" || condition == "" || !FilterManager.Usable(g, condition) || forall i :: 0 <= i < rules.Length ==> old(rules[i]).Some?
      ensures id == -1 ==> rules[..] == old(rules[..])
      ensures id != -1 ==>
                && id >= old(nextRuleId)
                && !HasRule(old(rules[..]), id)
                && Step(old(Abs()), Added(Rule(id, condition, FilterManager.ProgramOf(g, condition), R.Fresh(enabled, limit, window, quiet))), Abs())
      ensures id == -1 ==> Step(old(Abs()), NotAdded, Abs())
    {
      hide FilterManager.Usable, FilterManager.ProgramOf, HasRule;
      if name == "" || condition == "" {
        return -1;
      }
      var i := 0;
      while i < rules.Length && rules[i].Some?
        invariant i <= rules.Length
        invariant forall j :: 0 <= j < i ==> rules[j].Some?
      {
        i := i + 1;
      }
      if i == rules.Length {
        return -1;
      }
      var newId := nextRuleId;
      nextRuleId := nextRuleId + 1;
      var code := Compile(condition);
      if code.None? {
        return -1;
      }
      NewId(newId);
      assert FirstFree(rules[..], i);
      ghost var was := rules[..];
      rules[i] := Some(Rule(newId, condition, code.value, R.Fresh(enabled, limit, window, quiet)));
      assert rules[..] == was[i := rules[i]];
      id := newId;
    }

    /** No rule has an id that was never given out. */
    twostate lemma NewId(id: nat)
      requires old(Valid()) && id == old(nextRuleId)
      ensures !HasRule(old(rules[..]), id)
    {
      hide FilterManager.Usable, FilterManager.ProgramOf;
    }

    /** filter_parse and filter_compile on a condition. */
    method Compile(condition: string) returns (code: Option<Code>)
      ensures code.Some? <==> FilterManager.Usable(g, condition)
      ensures code.Some? ==> code.value == FilterManager.ProgramOf(g, condition)
    {
      var parsed := FilterParse(g, condition);
      var bc := FilterCompile(parsed);
      if bc == null {
        return None;
      }
      code := Some(Code(bc.instructions, bc.strings));
    }

    /** Removing frees the slot of the rule and touches no other. */
    method RemoveRule(id: nat) returns (ok: bool)
      requires Valid()
      modifies rules
      ensures Valid() && !HasRule(rules[..], id)
      ensures ok <==> HasRule(old(rules[..]), id)
      ensures Step(old(Abs()), Removed(id), Abs())
    {
      hide FilterManager.Usable, FilterManager.ProgramOf;
      var i := Find(id);
      if i == rules.Length {
        return false;
      }
      rules[i] := None;
      ok := true;
    }

    /** One of the calls that act on a single rule: enable, disable, suppress, unsuppress. */
    method Adjust(id: nat, act: R.Act) returns (ok: bool)
      requires Valid() && !act.Consider?
      modifies rules
      ensures Valid()
      ensures ok <==> !(act.Suppress? && act.seconds == 0) && HasRule(old(rules[..]), id)
      ensures Step(old(Abs()), Adjusted(id, act), Abs())
    {
      hide FilterManager.Usable, FilterManager.ProgramOf, R.Attempt;
      if act.Suppress? && act.seconds == 0 {
        return false;
      }
      var i := Find(id);
      if i == rules.Length {
        return false;
      }
      var e := rules[i].value.entry;
      match act {
        case Suppress(now, seconds) => e := e.(suppressed := true, until := now + seconds);
        case Unsuppress(_) => e := e.(suppressed := false, until := 0);
        case SetEnabled(_, on) => e := e.(enabled := on);
      }
      rules[i] := Some(rules[i].value.(entry := e));
      ok := true;
    }

    /** How many recorded trigger times are in the window. */
    method TriggersInWindow(e: R.Entry, start: int) returns (n: nat)
      requires e.count <= |e.times|
      ensures n == R.Since(e.times[..e.count], start)
    {
      n := 0;
      var j := 0;
      while j < e.count
        invariant j <= e.count
        invariant n == R.Since(e.times[..j], start)
      {
        assert e.times[..j + 1][..j] == e.times[..j];
        if e.times[j] >= start {
          n := n + 1;
        }
        j := j + 1;
      }
    }

    /** The turn of one rule, up to the alert it raises. */
    method TryRule(rule: Rule, ev: Event, now: int) returns (t: R.Attempted)
      requires RuleOk(rule)
      ensures t == Tried(Occasion(g, lib, ev, now), rule)
    {
      hide R.Since;
      var e := rule.entry;
      if !e.enabled {
        return R.Attempted(e, R.Passed);
      }
      if e.suppressed && now < e.until {
        return R.Attempted(e, R.Passed);
      }
      e := e.(suppressed := false);
      var matches := EvalProgram(g.Parse(rule.condition).ast.value, rule.code, ev, lib, null);
      if !matches {
        return R.Attempted(e, R.Passed);
      }
      if e.limit > 0 && e.window > 0 {
        var n := TriggersInWindow(e, now - e.window);
        if n >= e.limit {
          return R.Attempted(e, R.RateLimited);
        }
        e := e.(times := e.times[e.index := now], index := (e.index + 1) % e.limit);
        if e.count < e.limit {
          e := e.(count := e.count + 1);
        }
      }
      if e.quiet > 0 {
        e := e.(suppressed := true, until := now + e.quiet);
      }
      t := R.Attempted(e, R.Triggered);
    }

    /** A new alert, written over the oldest when the history is full. */
    method RaiseAlert(actionOk: bool)
      requires H.WellFormed(Book())
      modifies history, `historyCount, `historyIndex, `nextAlertId, `triggered, `executed, `failed, `active
      ensures Book() == H.Raised(old(Book()))
      ensures executed + failed - triggered == old(executed + failed - triggered)
      ensures executed == old(executed) + if actionOk then 1 else 0
    {
      triggered := triggered + 1;
      if actionOk {
        executed := executed + 1;
      } else {
        failed := failed + 1;
      }
      history[historyIndex] := H.Instance(nextAlertId, H.Active);
      nextAlertId := nextAlertId + 1;
      historyIndex := (historyIndex + 1) % history.Length;
      if historyCount < history.Length {
        historyCount := historyCount + 1;
      }
      active := active + 1;
    }

    /** One rule's turn. */
    method EvaluateRule(i: nat, ev: Event, now: int, actionOk: bool)
      requires Valid() && i < rules.Length
      modifies rules, history, `historyCount, `historyIndex, `nextAlertId, `triggered, `executed, `failed, `active, `rateLimited
      ensures Valid()
      ensures Abs() == Turn(Occasion(g, lib, ev, now), old(Abs()), i)
    {
      hide FilterManager.Usable, FilterManager.ProgramOf, FilterManager.Satisfied, R.Attempt, H.Raised;
      if rules[i].None? {
        return;
      }
      var t := TryRule(rules[i].value, ev, now);
      if t.outcome.RateLimited? {
        rateLimited := rateLimited + 1;
      } else if t.outcome.Triggered? {
        RaiseAlert(actionOk);
      }
      rules[i] := Some(rules[i].value.(entry := t.entry));
    }

    /** An event is put to every rule in slot order. */
    method Evaluate(ev: Event, now: int, actionOk: nat -> bool)
      requires Valid()
      modifies rules, history, `historyCount, `historyIndex, `nextAlertId, `triggered, `executed, `failed, `active, `rateLimited
      ensures Valid()
      ensures Step(old(Abs()), Evaluated(Occasion(g, lib, ev, now)), Abs())
    {
      hide Turn, RuleOk, H.WellFormed;
      var i := 0;
      while i < rules.Length
        invariant i <= rules.Length && Valid()
        invariant Abs() == Turns(Occasion(g, lib, ev, now), old(Abs()), i)
      {
        EvaluateRule(i, ev, now, actionOk(i));
        i := i + 1;
      }
    }

    /** First filled slot the deed applies to. */
    method FindInstance(d: H.Deed) returns (j: nat)
      requires H.WellFormed(Book())
      ensures H.Search(Book(), d, 0) == if j < historyCount then Some(j) else None
      ensures j <= historyCount
    {
      j := 0;
      while j < historyCount
        invariant j <= historyCount
        invariant H.Search(Book(), d, 0) == H.Search(Book(), d, j)
      {
        if H.Fits(history[j], d) {
          return;
        }
        j := j + 1;
      }
    }

    /** alert_manager_acknowledge. */
    method Acknowledge(id: nat) returns (found: bool)
      requires Valid()
      modifies history, `active, `acknowledged
      ensures Valid()
      ensures H.Done(Book(), found) == H.Do(old(Book()), H.Acknowledge(id))
      ensures Step(old(Abs()), Told(H.Acknowledge(id)), Abs())
    {
      hide H.Search, RuleOk;
      var j := FindInstance(H.Acknowledge(id));
      if j == historyCount {
        return false;
      }
      history[j] := history[j].(state := H.Acknowledged);
      if active > 0 {
        active := active - 1;
      }
      acknowledged := acknowledged + 1;
      found := true;
    }

    /** alert_manager_resolve. */
    method Resolve(id: nat) returns (found: bool)
      requires Valid()
      modifies history, `active, `acknowledged
      ensures Valid()
      ensures H.Done(Book(), found) == H.Do(old(Book()), H.Resolve(id))
      ensures Step(old(Abs()), Told(H.Resolve(id)), Abs())
    {
      hide H.Search, RuleOk;
      var j := FindInstance(H.Resolve(id));
      if j == historyCount {
        return false;
      }
      var was := history[j].state;
      history[j] := history[j].(state := H.Inactive);
      if was.Active? && active > 0 {
        active := active - 1;
      } else if was.Acknowledged? && acknowledged > 0 {
        acknowledged := acknowledged - 1;
      }
      found := true;
    }
  }
}
