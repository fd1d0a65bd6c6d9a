/**
 The filter language: abstract syntax (include/filter_parser.h), run-time values
 (include/filter_eval.h) and the direct meaning of an expression on an event.

 An event is what field extraction yields for each field, a missing field being None.
 The regular expression library is a pair of arbitrary functions; compiled patterns are
 handles, and handles are numbers.
 */
module FilterAst {
  import opened Common

  type FieldId = nat

  datatype CmpOp = Eq | Ne | Lt | Gt | Le | Ge | Match | NMatch

  datatype Node =
    | Field(field: FieldId)
    | Str(text: string)
    | Num(value: int)
    | Compare(op: CmpOp, left: Node, right: Node)
    | In(left: Node, right: Node)
    | And(left: Node, right: Node)
    | Or(left: Node, right: Node)
    | Not(operand: Node)
    | List(items: seq<Node>)

  datatype Value = Bool(b: bool) | Number(n: int) | String(s: string)

  type Event = FieldId -> Option<Value>

  datatype RegexLib = RegexLib(compile: string -> Option<nat>, exec: (nat, string) -> bool)

  datatype Complaint = UnexpectedToken | ExpectedOperand | TrailingInput

  datatype ParseError = ParseError(complaint: Complaint, position: nat, line: nat, column: nat)

  /** The result of parsing: an AST and its validity, or the first error seen. */
  datatype FilterExpr = FilterExpr(ast: Option<Node>, valid: bool, error: Option<ParseError>)

  // ----- comparing values -----

  /** The sign of strcmp. */
  function StrCmp(a: string, b: string): int {
    if a == [] || b == [] then |a| - |b|
    else if a[0] == b[0] then StrCmp(a[1..], b[1..])
    else if a[0] < b[0] then -1
    else 1
  }

  predicate Ordered(op: CmpOp, sign: int) {
    match op
    case Eq => sign == 0
    case Ne => sign != 0
    case Lt => sign < 0
    case Gt => sign > 0
    case Le => sign <= 0
    case Ge => sign >= 0
    case Match => false
    case NMatch => false
  }

  /** compare_values: values of different types, and booleans, never compare true. */
  predicate CompareValues(op: CmpOp, l: Value, r: Value) {
    match (l, r)
    case (String(a), String(b)) => Ordered(op, StrCmp(a, b))
    case (Number(a), Number(b)) => Ordered(op, a - b)
    case _ => false
  }

  /** A pattern that does not compile matches nothing. */
  predicate Matches(lib: RegexLib, text: string, pattern: string) {
    match lib.compile(pattern)
    case None => false
    case Some(c) => lib.exec(c, text)
  }

  predicate ApplyCmp(op: CmpOp, l: Value, r: Value, lib: RegexLib) {
    if op.Match? || op.NMatch? then
      l.String? && r.String? && Matches(lib, l.s, r.s) == op.Match?
    else
      CompareValues(op, l, r)
  }

  lemma {:induction false} StrCmpIsOrder(a: string, b: string)
    ensures StrCmp(a, b) == 0 <==> a == b
    ensures StrCmp(a, b) < 0 <==> StrCmp(b, a) > 0
  {
    if a != [] && b != [] && a[0] == b[0] {
      StrCmpIsOrder(a[1..], b[1..]);
      assert a == [a[0]] + a[1..] && b == [b[0]] + b[1..];
    }
  }

  lemma {:induction false} StrCmpTransitive(a: string, b: string, c: string)
    requires StrCmp(a, b) <= 0 && StrCmp(b, c) <= 0
    ensures StrCmp(a, c) <= 0
  {
    if a != [] && b != [] && c != [] && a[0] == b[0] == c[0] {
      StrCmpTransitive(a[1..], b[1..], c[1..]);
    }
  }

  /** Two values of the same comparable type. */
  predicate Comparable(l: Value, r: Value) {
    (l.String? && r.String?) || (l.Number? && r.Number?)
  }

  /** On comparable values the six operators are those of one total order, Eq being
      equality; on all other pairs every operator, Ne included, is false. */
  lemma CompareValuesIsOrder(l: Value, r: Value, m: Value)
    ensures Comparable(l, r) ==>
              && (CompareValues(Eq, l, r) <==> l == r)
              && (CompareValues(Ne, l, r) <==> l != r)
              && (CompareValues(Lt, l, r) <==> !CompareValues(Ge, l, r))
              && (CompareValues(Gt, l, r) <==> CompareValues(Lt, r, l))
              && (CompareValues(Le, l, r) <==> !CompareValues(Gt, l, r))
              && (CompareValues(Le, l, r) && CompareValues(Le, r, l) <==> l == r)
    ensures CompareValues(Le, l, m) && CompareValues(Le, m, r) ==> CompareValues(Le, l, r)
    ensures !Comparable(l, r) ==> forall op :: !CompareValues(op, l, r)
  {
    if l.String? && r.String? {
      StrCmpIsOrder(l.s, r.s);
      StrCmpIsOrder(r.s, l.s);
      if m.String? && CompareValues(Le, l, m) && CompareValues(Le, m, r) {
        StrCmpTransitive(l.s, m.s, r.s);
      }
    }
  }

  // ----- meaning -----

  /**
   The value of an expression on an event, or None when evaluation reaches a field the
   event does not have. AND stops only at a left value Bool(false) and OR only at
   Bool(true): any other left value is dropped and the right operand decides. NOT of
   anything but Bool(true) is Bool(true).
   */
  function Meaning(e: Node, ev: Event, lib: RegexLib): Option<Value>
    decreases e, 1
  {
    match e
    case Field(f) => ev(f)
    case Str(s) => Some(String(s))
    case Num(n) => Some(Number(n))
    case Compare(op, l, r) =>
      (match Meaning(l, ev, lib)
       case None => None
       case Some(lv) =>
         match Meaning(r, ev, lib)
         case None => None
         case Some(rv) => Some(Bool(ApplyCmp(op, lv, rv, lib))))
    case In(l, r) =>
      if !r.List? then None else
      (match Meaning(l, ev, lib)
       case None => None
       case Some(lv) =>
         match MeaningAll(r.items, ev, lib)
         case None => None
         case Some(vs) => Some(Bool(exists i :: 0 <= i < |vs| && CompareValues(Eq, lv, vs[i]))))
    case And(l, r) =>
      (match Meaning(l, ev, lib)
       case None => None
       case Some(lv) => if lv == Bool(false) then Some(lv) else Meaning(r, ev, lib))
    case Or(l, r) =>
      (match Meaning(l, ev, lib)
       case None => None
       case Some(lv) => if lv == Bool(true) then Some(lv) else Meaning(r, ev, lib))
    case Not(x) =>
      (match Meaning(x, ev, lib)
       case None => None
       case Some(v) => Some(Bool(v != Bool(true))))
    case List(_) => None
  }

  function MeaningAll(items: seq<Node>, ev: Event, lib: RegexLib): (vs: Option<seq<Value>>)
    ensures vs.Some? ==> |vs.value| == |items|
    decreases items, 0
  {
    if items == [] then Some([]) else
    match Meaning(items[0], ev, lib)
    case None => None
    case Some(v) =>
      match MeaningAll(items[1..], ev, lib)
      case None => None
      case Some(vs) => Some([v] + vs)
  }

  /** The filter accepts the event. */
  predicate Accepts(e: Node, ev: Event, lib: RegexLib) {
    Meaning(e, ev, lib) == Some(Bool(true))
  }

  /** Lists occur only as the right side of IN, and every IN has a list there. */
  predicate Compilable(e: Node) {
    match e
    case Field(_) => true
    case Str(_) => true
    case Num(_) => true
    case Compare(_, l, r) => Compilable(l) && Compilable(r)
    case In(l, r) => Compilable(l) && r.List? && forall x | x in r.items :: Compilable(x)
    case And(l, r) => Compilable(l) && Compilable(r)
    case Or(l, r) => Compilable(l) && Compilable(r)
    case Not(x) => Compilable(x)
    case List(_) => false
  }
}
