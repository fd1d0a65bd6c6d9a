/**
 The alert counters of alert_manager.c between the critical sections of an evaluation: a
 trigger is counted under stats_mutex first, and its alert goes into the history, and into
 the active alerts, under history_mutex later. Acknowledging and resolving, in one section of
 history_mutex each, may come between. Evaluations exclude each other by rules_mutex.
 */
module AlertCounters {
  import opened AlertHistory

  /** counted says that an evaluation has counted a trigger and not yet stored its alert. */
  datatype State = State(book: Book, counted: bool)

  datatype Section = Count | Store | Deal(d: Deed)

  predicate Enabled(s: State, e: Section) {
    WellFormed(s.book) && match e
                          case Count => !s.counted
                          case Store => s.counted
                          case Deal(d) => !d.Raise?
  }

  function Next(s: State, e: Section): (r: State)
    requires Enabled(s, e)
    ensures WellFormed(r.book)
  {
    match e
    case Count => State(s.book.(triggered := s.book.triggered + 1), true)
    case Store => State(Raised(s.book).(triggered := s.book.triggered), false)
    case Deal(d) => s.(book := Do(s.book, d).book)
  }

  ghost predicate Run(states: seq<State>, sections: seq<Section>) {
    && |states| == |sections| + 1
    && |states[0].book.slots| > 0 && states[0] == State(EmptyBook(|states[0].book.slots|), false)
    && forall i :: 0 <= i < |sections| ==> Enabled(states[i], sections[i]) && states[i + 1] == Next(states[i], sections[i])
  }

  /** Triggers counted, alerts not stored. */
  function Ahead(s: State): nat {
    if s.counted then 1 else 0
  }

  /** How many resolutions of the run found their alert. */
  ghost function Resolves(states: seq<State>, sections: seq<Section>): nat
    requires Run(states, sections)
    decreases |sections|
  {
    if sections == [] then 0 else
      var n := |sections| - 1;
      assert Run(states[..n + 1], sections[..n]);
      Resolves(states[..n + 1], sections[..n]) +
        if sections[n].Deal? && sections[n].d.Resolve? && Do(states[n].book, sections[n].d).found then 1 else 0
  }

  /** The book but for the trigger that is ahead. */
  function Level(s: State): Book {
    s.book.(triggered := if s.book.triggered >= Ahead(s) then s.book.triggered - Ahead(s) else 0)
  }

  ghost predicate Agreed(s: State, fates: seq<AlertState>) {
    s.book.triggered >= Ahead(s) && Agrees(Level(s), fates)
  }

  /** Searching does not look at the count of triggers. */
  lemma {:induction false} SearchSame(b: Book, k: nat, d: Deed, i: nat)
    requires WellFormed(b) && i <= b.count
    ensures Search(b.(triggered := k), d, i) == Search(b, d, i)
    decreases b.count - i
  {
    if i < b.count && !Fits(b.slots[i], d) {
      SearchSame(b, k, d, i + 1);
    }
  }

  lemma DealSame(b: Book, k: nat, d: Deed)
    requires WellFormed(b) && !d.Raise?
    ensures Do(b.(triggered := k), d) == Done(Do(b, d).book.(triggered := k), Do(b, d).found)
    ensures Do(b, d).book.triggered == b.triggered
  {
    hide Search;
    SearchSame(b, k, d, 0);
  }

  lemma SectionAgrees(s: State, e: Section, fates: seq<AlertState>) returns (fates': seq<AlertState>)
    requires Enabled(s, e) && Agreed(s, fates)
    ensures Agreed(Next(s, e), fates')
    ensures AlertHistory.Count(fates', Inactive) ==
            AlertHistory.Count(fates, Inactive) + if e.Deal? && e.d.Resolve? && Do(s.book, e.d).found then 1 else 0
  {
    hide Agrees, Do, Fated, AlertHistory.Count;
    var b := Level(s);
    match e
    case Count =>
      fates' := fates;
      assert Level(Next(s, e)) == b;
    case Store =>
      fates' := Fated(fates, |b.slots|, Raise);
      StoreAgrees(s, fates);
      FatedResolves(fates, |b.slots|, Raise);
    case Deal(d) =>
      fates' := Fated(fates, |b.slots|, d);
      DealSame(s.book, b.triggered, d);
      DoAgrees(b, fates, d);
      FatedResolves(fates, |b.slots|, d);
  }

  lemma StoreAgrees(s: State, fates: seq<AlertState>)
    requires Enabled(s, Store) && Agreed(s, fates)
    ensures Agreed(Next(s, Store), Fated(fates, |s.book.slots|, Raise))
  {
    hide Agrees;
    var b := Level(s);
    DoAgrees(b, fates, Raise);
    assert Level(Next(s, Store)) == Raised(b);
  }

  lemma {:induction false} RunAgrees(states: seq<State>, sections: seq<Section>) returns (fates: seq<AlertState>)
    requires Run(states, sections)
    ensures Agreed(states[|sections|], fates) && AlertHistory.Count(fates, Inactive) == Resolves(states, sections)
    decreases |sections|
  {
    hide Next, Enabled, Agreed, AlertHistory.Count, Do;
    if sections == [] {
      fates := [];
      StartAgrees(states[0]);
    } else {
      var n := |sections| - 1;
      assert Run(states[..n + 1], sections[..n]);
      var before := RunAgrees(states[..n + 1], sections[..n]);
      fates := SectionAgrees(states[n], sections[n], before);
    }
  }

  lemma StartAgrees(s: State)
    requires |s.book.slots| > 0 && s == State(EmptyBook(|s.book.slots|), false)
    ensures Agreed(s, []) && AlertHistory.Count([], Inactive) == 0
  {
    AlertHistory.RunAgrees(|s.book.slots|, []);
  }

  /** In every interleaving the triggers counted are the alerts counted active, those counted
      acknowledged and those resolved, and one more exactly while an evaluation is between
      counting its trigger and storing its alert. */
  lemma Conservation(states: seq<State>, sections: seq<Section>)
    requires Run(states, sections)
    ensures var s := states[|sections|];
            s.book.triggered == s.book.active + s.book.acknowledged + Resolves(states, sections) + Ahead(s)
  {
    hide Resolves, AlertHistory.Count, Enabled, Next;
    var fates := RunAgrees(states, sections);
    CountParts(fates);
  }
}
