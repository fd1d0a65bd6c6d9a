/**
 The token stream of a filter text (filter_parser.c), as a function of the text. Characters
 are classified as in the C locale, and a text ends at its end or at its first NUL.
 */
module FilterLexer {
  import opened Common
  import opened FilterAst

  datatype Token =
    | Eof
    | Error
    | CmpTok(op: CmpOp)
    | InTok
    | AndTok
    | OrTok
    | NotTok
    | FieldTok(name: string)
    | StringTok(text: string)
    | NumberTok(digits: string)
    | LParen
    | RParen
    | LBracket
    | RBracket
    | Comma

  predicate Final(t: Token) {
    t.Eof? || t.Error?
  }

  // ----- characters -----

  predicate IsSpace(c: char) {
    c == ' ' || ('\t' <= c <= '\r')
  }

  predicate IsDigit(c: char) {
    '0' <= c <= '9'
  }

  predicate IsAlpha(c: char) {
    'a' <= c <= 'z' || 'A' <= c <= 'Z'
  }

  predicate IsIdent(c: char) {
    IsAlpha(c) || IsDigit(c) || c == '_' || c == '.'
  }

  function Lower(c: char): char {
    if 'A' <= c <= 'Z' then c - 'A' + 'a' else c
  }

  predicate SameIgnoringCase(a: string, b: string) {
    |a| == |b| && forall i :: 0 <= i < |a| ==> Lower(a[i]) == Lower(b[i])
  }

  // ----- scanning -----

  function Peek(input: string, pos: nat): char {
    if pos < |input| then input[pos] else '\0'
  }

  function Advance(input: string, pos: nat): (r: nat)
    ensures pos <= r <= pos + 1
    ensures pos <= |input| ==> r <= |input|
  {
    if Peek(input, pos) == '\0' then pos else pos + 1
  }

  function SpaceEnd(input: string, pos: nat): (r: nat)
    ensures pos <= r && (pos <= |input| ==> r <= |input|)
    ensures !IsSpace(Peek(input, r))
    ensures forall i :: pos <= i < r ==> IsSpace(Peek(input, i))
    decreases |input| - pos
  {
    if IsSpace(Peek(input, pos)) then SpaceEnd(input, pos + 1) else pos
  }

  function IdentEnd(input: string, pos: nat): (r: nat)
    ensures pos <= r && (pos <= |input| ==> r <= |input|)
    ensures !IsIdent(Peek(input, r))
    ensures forall i :: pos <= i < r ==> IsIdent(Peek(input, i))
    decreases |input| - pos
  {
    if IsIdent(Peek(input, pos)) then IdentEnd(input, pos + 1) else pos
  }

  function DigitsEnd(input: string, pos: nat): (r: nat)
    ensures pos <= r && (pos <= |input| ==> r <= |input|)
    ensures !IsDigit(Peek(input, r))
    ensures forall i :: pos <= i < r ==> IsDigit(Peek(input, i))
    decreases |input| - pos
  {
    if IsDigit(Peek(input, pos)) then DigitsEnd(input, pos + 1) else pos
  }

  /** A string body scanned from pos: where the scan stops, and the number of characters
      it counts. An escaped pair is passed over whole but counts once. */
  datatype Scan = Scan(stop: nat, count: nat)

  function StringScan(input: string, pos: nat, quote: char): (r: Scan)
    requires pos <= |input|
    ensures pos <= r.stop <= |input| && r.count <= r.stop - pos
    decreases |input| - pos
  {
    var c := Peek(input, pos);
    if c == quote || c == '\0' then Scan(pos, 0)
    else
      var next := if c == '\\' then Advance(input, pos + 1) else pos + 1;
      var s := StringScan(input, next, quote);
      Scan(s.stop, s.count + 1)
  }

  /** A token with where it starts and where the scan stands after it. */
  datatype Lexed = Lexed(token: Token, start: nat, end: nat)

  function Word(name: string): (t: Token)
    ensures !Final(t)
  {
    if SameIgnoringCase(name, "AND") then AndTok
    else if SameIgnoringCase(name, "OR") then OrTok
    else if SameIgnoringCase(name, "NOT") then NotTok
    else if SameIgnoringCase(name, "IN") then InTok
    else FieldTok(name)
  }

  function Lex(input: string, pos: nat): (r: Lexed)
    requires pos <= |input|
    ensures pos <= r.start <= r.end <= |input|
    ensures !Final(r.token) ==> r.start < r.end
  {
    var s := SpaceEnd(input, pos);
    var c := Peek(input, s);
    if c == '\0' then Lexed(Eof, s, s)
    else LexAt(input, s)
  }

  /** Two-character operators. */
  function Pair(c: char, d: char): Option<CmpOp> {
    if c == '=' && d == '=' then Some(Eq)
    else if c == '!' && d == '=' then Some(Ne)
    else if c == '<' && d == '=' then Some(Le)
    else if c == '>' && d == '=' then Some(Ge)
    else if c == '=' && d == '~' then Some(Match)
    else if c == '!' && d == '~' then Some(NMatch)
    else None
  }

  /** One-character operators and punctuation. */
  function Single(c: char): (t: Option<Token>)
    ensures t.Some? ==> !Final(t.value)
  {
    if c == '<' then Some(CmpTok(Lt))
    else if c == '>' then Some(CmpTok(Gt))
    else if c == '(' then Some(LParen)
    else if c == ')' then Some(RParen)
    else if c == '[' then Some(LBracket)
    else if c == ']' then Some(RBracket)
    else if c == ',' then Some(Comma)
    else None
  }

  function LexAt(input: string, s: nat): (r: Lexed)
    requires s < |input| && input[s] != '\0'
    ensures r.start == s <= r.end <= |input|
    ensures !Final(r.token) ==> s < r.end
  {
    var c := input[s];
    var d := Peek(input, s + 1);
    if Pair(c, d).Some? then Lexed(CmpTok(Pair(c, d).value), s, s + 2)
    else if Single(c).Some? then Lexed(Single(c).value, s, s + 1)
    else if c == '"' || c == '\'' then
      var scan := StringScan(input, s + 1, c);
      var end := if Peek(input, scan.stop) == c then scan.stop + 1 else scan.stop;
      Lexed(StringTok(input[s + 1..s + 1 + scan.count]), s, end)
    else if IsDigit(c) then
      var end := DigitsEnd(input, s);
      Lexed(NumberTok(input[s..end]), s, end)
    else if IsAlpha(c) || c == '_' then
      var end := IdentEnd(input, s);
      Lexed(Word(input[s..end]), s, end)
    else Lexed(Error, s, s)
  }

  datatype Lexeme = Lexeme(token: Token, position: nat)

  /** All tokens from pos on; the last one is the end of the text or the first character
      no token starts with, which the scan never passes. */
  function Stream(input: string, pos: nat): (r: seq<Lexeme>)
    requires pos <= |input|
    ensures r != [] && Final(r[|r| - 1].token)
    ensures forall i :: 0 <= i < |r| - 1 ==> !Final(r[i].token)
    ensures forall i :: 0 <= i < |r| ==> r[i].position <= |input|
    decreases |input| - pos
  {
    var l := Lex(input, pos);
    var first := Lexeme(l.token, l.start);
    if Final(l.token) then [first] else [first] + Stream(input, l.end)
  }

  function Tokens(ls: seq<Lexeme>): (r: seq<Token>)
    ensures |r| == |ls|
    ensures forall i :: 0 <= i < |ls| ==> r[i] == ls[i].token
  {
    seq(|ls|, i requires 0 <= i < |ls| => ls[i].token)
  }

  // ----- positions -----

  /** Line and column of a position, both from 1. */
  function LineAt(input: string, pos: nat): nat
    requires pos <= |input|
  {
    if pos == 0 then 1 else LineAt(input, pos - 1) + (if input[pos - 1] == '\n' then 1 else 0)
  }

  function ColumnAt(input: string, pos: nat): nat
    requires pos <= |input|
  {
    if pos == 0 || input[pos - 1] == '\n' then 1 else ColumnAt(input, pos - 1) + 1
  }

  ghost function NewlinesBefore(input: string, pos: nat): set<int>
    requires pos <= |input|
  {
    set i | 0 <= i < pos && input[i] == '\n'
  }

  /** The line counts the newlines before the position, and the column the characters
      since the last of them. */
  lemma {:induction false} LineAndColumn(input: string, pos: nat)
    requires pos <= |input|
    ensures LineAt(input, pos) == 1 + |NewlinesBefore(input, pos)|
    ensures 1 <= ColumnAt(input, pos) <= pos + 1
    ensures var start := pos + 1 - ColumnAt(input, pos);
            && (start == 0 || input[start - 1] == '\n')
            && forall i :: start <= i < pos ==> input[i] != '\n'
  {
    if pos > 0 {
      LineAndColumn(input, pos - 1);
      var before := NewlinesBefore(input, pos - 1);
      if input[pos - 1] == '\n' {
        assert NewlinesBefore(input, pos) == before + {pos - 1};
      } else {
        assert NewlinesBefore(input, pos) == before;
      }
    }
  }

  // ----- string literals -----

  /** Text that a literal in these quotes can hold. */
  predicate Quotable(text: string, quote: char) {
    forall i :: 0 <= i < |text| ==> text[i] != quote && text[i] != '\\' && text[i] != '\0'
  }

  ghost predicate Plain(input: string, from: int, to: int, quote: char) {
    0 <= from && to <= |input| &&
    forall i :: from <= i < to ==> input[i] != quote && input[i] != '\\' && input[i] != '\0'
  }

  /** A scan that counts every character has met no escaped pair, and one that counts one
      character less while ending on a passed-over quote has met exactly that pair. */
  lemma {:induction false} ScanCount(input: string, pos: nat, quote: char)
    requires pos <= |input| && quote != '\\' && quote != '\0'
    ensures var r := StringScan(input, pos, quote);
            Peek(input, r.stop) == quote || Peek(input, r.stop) == '\0'
    ensures var r := StringScan(input, pos, quote);
            r.count == r.stop - pos ==>
              && (r.stop == pos || input[r.stop - 1] != quote)
              && (Plain(input, pos, r.stop, quote) || Peek(input, r.stop) == '\0')
    ensures var r := StringScan(input, pos, quote);
            r.count == r.stop - pos - 1 && input[r.stop - 1] == quote && Peek(input, r.stop) == '\0' ==>
              r.stop >= pos + 2 && input[r.stop - 2] == '\\' && Plain(input, pos, r.stop - 2, quote)
    decreases |input| - pos
  {
    var c := Peek(input, pos);
    if c != quote && c != '\0' {
      var next := if c == '\\' then Advance(input, pos + 1) else pos + 1;
      ScanCount(input, next, quote);
      var s := StringScan(input, next, quote);
      assert StringScan(input, pos, quote) == Scan(s.stop, s.count + 1);
      assert next > pos;
    }
  }

  lemma {:induction false} ScanPlain(input: string, pos: nat, quote: char, end: nat)
    requires pos <= end < |input| && quote != '\0'
    requires Plain(input, pos, end, quote)
    ensures input[end] == quote ==> StringScan(input, pos, quote) == Scan(end, end - pos)
    ensures input[end] == '\\' && quote != '\\' && Peek(input, end + 1) == quote && Peek(input, end + 2) == '\0' ==>
              StringScan(input, pos, quote) == Scan(end + 2, end - pos + 1)
    decreases end - pos
  {
    if pos < end {
      ScanPlain(input, pos + 1, quote, end);
    } else if input[end] == '\\' && quote != '\\' && Peek(input, end + 1) == quote && Peek(input, end + 2) == '\0' {
      assert StringScan(input, end + 2, quote) == Scan(end + 2, 0);
    }
  }

  /** A scan from p that counts e - p characters and is then past the quote at e has seen
      a plain body, or one whose last character is a backslash at the end of the text. */
  lemma MisreadLiteral(input: string, p: nat, e: nat, quote: char)
    requires p <= e < |input| && input[e] == quote && quote != '\\' && quote != '\0'
    ensures var scan := StringScan(input, p, quote);
            scan.count == e - p && e + 1 == (if Peek(input, scan.stop) == quote then scan.stop + 1 else scan.stop) ==>
              || Plain(input, p, e, quote)
              || (p < e && input[e - 1] == '\\' && Plain(input, p, e - 1, quote) && Peek(input, e + 1) == '\0')
  {
    hide StringScan;
    ScanCount(input, p, quote);
  }

  lemma LexAtQuote(input: string, s: nat)
    requires s < |input| && (input[s] == '"' || input[s] == '\'')
    ensures var scan := StringScan(input, s + 1, input[s]);
            var end := if Peek(input, scan.stop) == input[s] then scan.stop + 1 else scan.stop;
            LexAt(input, s) == Lexed(StringTok(input[s + 1..s + 1 + scan.count]), s, end)
  {
  }

  /** The text stands in input at s, between two quotes of one kind. */
  ghost predicate LiteralAt(input: string, s: nat, text: string) {
    var e := s + 1 + |text|;
    e < |input| && (input[s] == '"' || input[s] == '\'') && input[e] == input[s] && input[s + 1..e] == text
  }

  /** The text is plain but for a backslash right before the closing quote, and the input
      ends there. */
  ghost predicate EscapesOwnEnd(input: string, s: nat, text: string)
    requires LiteralAt(input, s, text)
  {
    && text != [] && text[|text| - 1] == '\\'
    && Quotable(text[..|text| - 1], input[s])
    && Peek(input, s + |text| + 2) == '\0'
  }

  lemma QuotableIsPlain(input: string, p: nat, text: string, quote: char)
    requires p + |text| <= |input| && input[p..p + |text|] == text
    ensures Quotable(text, quote) <==> Plain(input, p, p + |text|, quote)
  {
    assert forall i :: 0 <= i < |text| ==> text[i] == input[p + i];
    assert forall i :: p <= i < p + |text| ==> input[i] == text[i - p];
  }

  /**
   A literal written between two quote characters, anywhere in a text, is read back whole
   and up to its closing quote exactly when it holds no such quote, no backslash and no
   NUL, or when it is the last thing in the text and its one backslash swallows the quote.
   */
  lemma LiteralReadBack(input: string, s: nat, text: string)
    requires LiteralAt(input, s, text)
    ensures LexAt(input, s) == Lexed(StringTok(text), s, s + |text| + 2)
            <==> Quotable(text, input[s]) || EscapesOwnEnd(input, s, text)
  {
    hide LexAt, StringScan;
    var quote := input[s];
    var p, e := s + 1, s + 1 + |text|;
    LexAtQuote(input, s);
    QuotableIsPlain(input, p, text, quote);
    if text != [] {
      assert input[p..e - 1] == text[..|text| - 1];
      QuotableIsPlain(input, p, text[..|text| - 1], quote);
    }
    if Quotable(text, quote) {
      ScanPlain(input, p, quote, e);
    } else if EscapesOwnEnd(input, s, text) {
      ScanPlain(input, p, quote, e - 1);
    } else {
      MisreadLiteral(input, p, e, quote);
    }
  }

  /** A literal that is cut short: of the three characters a, backslash and b between the
      quotes, the token has the first two. */
  lemma BackslashCut()
    ensures var input := "\"a\\b\"";
            && LiteralAt(input, 0, "a\\b")
            && LexAt(input, 0) == Lexed(StringTok("a\\"), 0, 5)
  {
    var input := "\"a\\b\"";
    LexAtQuote(input, 0);
    assert StringScan(input, 4, '"') == Scan(4, 0);
    assert StringScan(input, 2, '"') == Scan(4, 1);
    assert StringScan(input, 1, '"') == Scan(4, 2);
    assert input[1..3] == "a\\";
  }

  /** A literal without its closing quote is taken all the same. */
  lemma UnterminatedTaken()
    ensures LexAt("\"a", 0) == Lexed(StringTok("a"), 0, 2)
  {
    var input := "\"a";
    LexAtQuote(input, 0);
    assert StringScan(input, 2, '"') == Scan(2, 0);
    assert StringScan(input, 1, '"') == Scan(2, 1);
    assert input[1..2] == "a";
  }
}
