/** From the text of an expression to the verdict of its filter, in one statement. */
module FilterPipeline {
  import opened FilterAst
  import opened FilterCode
  import opened FilterGrammar
  import opened FilterMachine
  import opened FilterManager
  import opened FilterText
  import opened FilterWriter

  /** A filter given as the text of an expression is usable, and its optimised program, run by
      the stack machine on any event, answers whether the expression accepts the event. */
  lemma WrittenFilter(g: Grammar, w: Writer, e: Node, lib: RegexLib, ev: Event)
    requires Writable(g, w, e) && Textual(w, e) && Compilable(e)
    ensures Usable(g, Text(w, e))
    ensures var c := ProgramOf(g, Text(w, e));
            Verdict(Exec(Machine(Peephole(c.instrs), c.strings, ev, lib), 0, []).outcome) <==> Accepts(e, ev, lib)
  {
    TextRoundTrip(g, w, e);
    OptimizedProgramCorrect(e, ev, lib);
  }
}
