/**
 What one scan of the lexer (src/Lexer.cpp) finds and where it leaves off, as
 functions of the source and of the state between two scans. Literal values, lines
 and columns are not modelled.
*/
module LexerScan {
  import opened Utf8
  import opened LexerSyntax
  import opened LexerSpec

  // The fields that carry over from one scan to the next.
  datatype State = State(at: nat, brackets: nat, blocks: nat, interpolations: nat, last: TokenType)

  datatype Step = Step(scan: Scan, after: State)

  const INITIAL := State(0, 0, 0, 0, YEOF_TOKEN)

  // What a scan that only moves finds, and the position it moves to.
  datatype Ended = Ended(scan: Scan, end: nat)

  // Whether the library's conversion accepts a number's text.
  type Conversion = (TokenType, string) -> bool

  datatype Rules = Rules(source: string, keywords: map<string, TokenType>, converts: Conversion)

  // ---------------------------------------------------------------------
  // Words and numbers
  // ---------------------------------------------------------------------

  function WordFrom(r: Rules, p: nat): Ended
    requires WordAt(r.source, p)
  {
    Ended(WordScan(r.source, r.keywords, p), WordEnd(r.source, p + Size(Peek(r.source, p).ch)))
  }

  // Where the characters of a number stop, with a dot or an exponent among them.
  datatype Digits = Digits(end: nat, dot: bool, exp: bool)

  function AfterSign(src: string, i: nat): (k: nat)
    requires i <= |src|
    ensures i <= k <= |src|
  {
    if At(src, i, '+') || At(src, i, '-') then i + 1 else i
  }

  function DigitsFrom(src: string, i: nat, dot: bool, exp: bool): (d: Digits)
    requires i <= |src|
    ensures i <= d.end <= |src|
    decreases |src| - i
  {
    if i == |src| || Peek(src, i).Bad? then Digits(i, dot, exp)
    else
      var ch := Peek(src, i).ch;
      if IsDigit(ch) || Is(ch, '_') then DigitsFrom(src, i + 1, dot, exp)
      else if Is(ch, '.') && !dot && !exp && !(i + 1 < |src| && src[i + 1] == '.') then
        DigitsFrom(src, i + 1, true, exp)
      else if (Is(ch, 'e') || Is(ch, 'E')) && !exp then DigitsFrom(src, AfterSign(src, i + 1), dot, true)
      else Digits(i, dot, exp)
  }

  predicate ByteSuffix(src: string, d: Digits) {
    !d.dot && !d.exp && (At(src, d.end, 'b') || At(src, d.end, 'B'))
  }

  function NumberKind(src: string, d: Digits): TokenType {
    if ByteSuffix(src, d) then YBYTE else if d.dot || d.exp then YFLOAT else YINTEGER
  }

  function NumberEnd(src: string, d: Digits): nat { if ByteSuffix(src, d) then d.end + 1 else d.end }

  function NumberFrom(r: Rules, p: nat): (e: Ended)
    requires DigitAt(r.source, p)
  {
    var src, d := r.source, DigitsFrom(r.source, p + 1, false, false);
    if d.end < |src| && Peek(src, d.end).Bad? then Ended(Err, d.end)
    else
      var kind, end := NumberKind(src, d), NumberEnd(src, d);
      Ended(if r.converts(kind, src[p..end]) then Ok(Token(kind, p, end)) else Err, end)
  }

  // ---------------------------------------------------------------------
  // Strings, characters and symbols
  // ---------------------------------------------------------------------

  datatype Body = Closed(end: nat) | Opened(end: nat) | Broken(end: nat)

  // The text of a string from i: up to its quote, or to the brace that opens an
  // interpolation.
  function BodyFrom(src: string, i: nat): (b: Body)
    requires i <= |src|
    ensures i <= b.end
    decreases |src| - i
  {
    if i == |src| || Peek(src, i).Bad? then Broken(i)
    else
      var ch := Peek(src, i).ch;
      if Is(ch, '"') then Closed(i + 1)
      else if Is(ch, '{') then Opened(i + 1)
      else if Is(ch, '\n') then Broken(i)
      else if Is(ch, '\\') then
        match EscapeEnd(src, i + 1)
        case Done(k) => BodyFrom(src, k)
        case Wrong(k) => Broken(k)
        case Cut => Broken(|src| + 1)
      else BodyFrom(src, i + Size(ch))
  }

  // The segment of a string with the text from s.at, for a token that starts there or
  // at its quote.
  function SegmentFrom(src: string, start: nat, s: State): Step
    requires s.at <= |src|
  {
    match BodyFrom(src, s.at)
    case Closed(end) =>
      Step(Ok(Token(if s.interpolations > 0 then YSTRING_PART else YSTRING, start, end)), s.(at := end))
    case Opened(end) =>
      Step(Ok(Token(YSTRING_PART, start, end)), s.(at := end, interpolations := s.interpolations + 1))
    case Broken(end) => Step(Err, s.(at := end))
  }

  // The closing quote of a character literal, read without asking for the end.
  function QuoteFrom(src: string, p: nat, i: nat): Ended {
    match Peek(src, i)
    case Bad => Ended(Err, i)
    case Char(ch) => Ended(if Is(ch, '\'') then Ok(Token(YCHARACTER, p, i + 1)) else Err, i + Size(ch))
  }

  function CharacterFrom(src: string, p: nat): Ended
    requires p < |src|
  {
    match Peek(src, p + 1)
    case Bad => Ended(Err, p + 1)
    case Char(ch) =>
      if Is(ch, '\'') then Ended(Err, p + 1)
      else if Is(ch, '\\') then
        match EscapeEnd(src, p + 2)
        case Done(k) => QuoteFrom(src, p, k)
        case Wrong(k) => Ended(Err, k)
        case Cut => Ended(Err, |src| + 1)
      else QuoteFrom(src, p, p + 1 + Size(ch))
  }

  function SymbolEnd(src: string, i: nat, word: bool): (k: nat)
    requires i <= |src|
    ensures i <= k <= |src|
    decreases |src| - i
  {
    if i == |src| || Peek(src, i).Bad? then i
    else
      var ch := Peek(src, i).ch;
      if (if word then IsIdentifierContinue(ch) else IsOperatorChar(ch)) then SymbolEnd(src, i + Size(ch), word) else i
  }

  predicate SymbolAt(src: string, p: nat) {
    At(src, p, ':') && Peek(src, p + 1).Char? && !At(src, p + 1, '>')
    && (IsIdentifierStart(Peek(src, p + 1).ch) || IsOperatorChar(Peek(src, p + 1).ch))
  }

  function SymbolFrom(src: string, p: nat): Ended
    requires SymbolAt(src, p)
  {
    var end := SymbolEnd(src, p + 1, IsIdentifierStart(Peek(src, p + 1).ch));
    Ended(Ok(Token(YSYMBOL, p, end)), end)
  }

  // ---------------------------------------------------------------------
  // Marks and operators
  // ---------------------------------------------------------------------

  // A mark, and how many characters it has after its first.
  datatype Mark = Mark(kind: TokenType, more: nat)

  // The mark whose first character stands before i: the longest that stands there.
  function MinusFrom(src: string, i: nat): Mark {
    if At(src, i, '>') then Mark(YARROW, 1)
    else if At(src, i, '-') then Mark(YREMOVE, 1)
    else if At(src, i, '|') then Mark(YPREPEND, 1)
    else Mark(YMINUS, 0)
  }

  function EqualsFrom(src: string, i: nat): Mark {
    if At(src, i, '=') then Mark(YEQ, 1) else if At(src, i, '>') then Mark(YFAT_ARROW, 1) else Mark(YASSIGN, 0)
  }

  function LessFrom(src: string, i: nat): Mark {
    if At(src, i, '=') then Mark(YLTE, 1)
    else if At(src, i, '<') then Mark(YLEFT_SHIFT, 1)
    else if At(src, i, '|') then Mark(YPIPE_LEFT, 1)
    else Mark(YLT, 0)
  }

  function GreaterFrom(src: string, i: nat): Mark {
    if At(src, i, '=') then Mark(YGTE, 1)
    else if At(src, i, '>') then
      if At(src, i + 1, '>') then Mark(YZERO_FILL_RIGHT_SHIFT, 2) else Mark(YRIGHT_SHIFT, 1)
    else Mark(YGT, 0)
  }

  function PipeFrom(src: string, i: nat): Mark {
    if At(src, i, '|') then Mark(YOR, 1)
    else if At(src, i, '>') then Mark(YPIPE_RIGHT, 1)
    else if At(src, i, '-') then Mark(YAPPEND, 1)
    else Mark(YPIPE, 0)
  }

  function OneOrTwo(src: string, i: nat, single: TokenType, next: char, double: TokenType): Mark {
    if At(src, i, next) then Mark(double, 1) else Mark(single, 0)
  }

  function OperatorFrom(src: string, i: nat, ch: nat): Mark
    requires IsOperatorChar(ch)
  {
    if Is(ch, '+') then OneOrTwo(src, i, YPLUS, '+', YJOIN)
    else if Is(ch, '-') then MinusFrom(src, i)
    else if Is(ch, '*') then OneOrTwo(src, i, YSTAR, '*', YPOWER)
    else if Is(ch, '/') then Mark(YSLASH, 0)
    else if Is(ch, '%') then Mark(YPERCENT, 0)
    else if Is(ch, '=') then EqualsFrom(src, i)
    else if Is(ch, '!') then OneOrTwo(src, i, YNOT, '=', YNEQ)
    else if Is(ch, '<') then LessFrom(src, i)
    else if Is(ch, '>') then GreaterFrom(src, i)
    else if Is(ch, '&') then OneOrTwo(src, i, YBIT_AND, '&', YAND)
    else if Is(ch, '|') then PipeFrom(src, i)
    else if Is(ch, '^') then Mark(YBIT_XOR, 0)
    else if Is(ch, '~') then Mark(YBIT_NOT, 0)
    else Mark(YAT, 0)
  }

  predicate IsBracket(ch: nat) {
    Is(ch, '(') || Is(ch, ')') || Is(ch, '[') || Is(ch, ']') || Is(ch, '{') || Is(ch, '}') || Is(ch, ',')
  }

  function BracketKind(ch: nat): TokenType
    requires IsBracket(ch)
  {
    if Is(ch, '(') then YLPAREN
    else if Is(ch, ')') then YRPAREN
    else if Is(ch, '[') then YLBRACKET
    else if Is(ch, ']') then YRBRACKET
    else if Is(ch, '{') then YLBRACE
    else if Is(ch, '}') then YRBRACE
    else YCOMMA
  }

  // How many brackets are open after a token; an unmatched closing one is not counted.
  function Brackets(open: nat, kind: TokenType): nat {
    match kind
    case YLPAREN | YLBRACKET | YLBRACE => open + 1
    case YRPAREN | YRBRACKET | YRBRACE => if open > 0 then open - 1 else 0
    case _ => open
  }

  predicate IsMark(ch: nat) { IsBracket(ch) || Is(ch, '.') || Is(ch, '\\') || Is(ch, ':') || IsOperatorChar(ch) }

  function ColonFrom(src: string, i: nat): Mark {
    if At(src, i, ':') then Mark(YCONS, 1) else if At(src, i, '>') then Mark(YCONS_RIGHT, 1) else Mark(YCOLON, 0)
  }

  function MarkFrom(src: string, i: nat, ch: nat): Mark
    requires IsMark(ch)
  {
    if IsBracket(ch) then Mark(BracketKind(ch), 0)
    else if Is(ch, '.') then OneOrTwo(src, i, YDOT, '.', YDOTDOT)
    else if Is(ch, '\\') then Mark(YBACKSLASH, 0)
    else if Is(ch, ':') then ColonFrom(src, i)
    else OperatorFrom(src, i, ch)
  }

  // ---------------------------------------------------------------------
  // One scan
  // ---------------------------------------------------------------------

  function Moved(s: State, e: Ended): Step { Step(e.scan, s.(at := e.end)) }

  // A mark, as its token leaves.
  function TokenStep(s: State, mark: Mark): Step {
    var end := s.at + 1 + mark.more;
    Step(Ok(Token(mark.kind, s.at, end)), s.(at := end, brackets := Brackets(s.brackets, mark.kind)))
  }

  // The token at s.at, where neither blanks nor comments are left to skip.
  function ScanFrom(r: Rules, s: State): Step
    requires s.at < |r.source|
  {
    var src, p := r.source, s.at;
    match Peek(src, p)
    case Bad => Step(Err, s)
    case Char(ch) =>
      if WordAt(src, p) then Moved(s, WordFrom(r, p))
      else if Is(ch, '_') then Moved(s, Ended(Ok(Token(YUNDERSCORE, p, p + 1)), p + 1))
      else if IsDigit(ch) then Moved(s, NumberFrom(r, p))
      else PunctuationFrom(src, s, ch)
  }

  // What opens, ends or resumes a text.
  predicate IsText(s: State, ch: nat) { Is(ch, '"') || Is(ch, '\'') || (Is(ch, '}') && s.interpolations > 0) }

  function TextFrom(src: string, s: State, ch: nat): Step
    requires s.at < |src| && IsText(s, ch)
  {
    var p := s.at;
    if Is(ch, '"') then SegmentFrom(src, p, s.(at := p + 1))
    else if Is(ch, '\'') then Moved(s, CharacterFrom(src, p))
    else SegmentFrom(src, p + 1, s.(at := p + 1, interpolations := s.interpolations - 1))
  }

  function MarkStep(src: string, s: State, ch: nat): Step {
    if IsMark(ch) then TokenStep(s, MarkFrom(src, s.at + 1, ch)) else Step(Err, s.(at := s.at + Size(ch)))
  }

  function PunctuationFrom(src: string, s: State, ch: nat): Step
    requires s.at < |src| && Peek(src, s.at) == Char(ch)
  {
    var p := s.at;
    if IsText(s, ch) then TextFrom(src, s, ch)
    else if Is(ch, ';') then Moved(s, Ended(Ok(Token(YNEWLINE, p, p + 1)), p + 1))
    else if SymbolAt(src, p) then Moved(s, SymbolFrom(src, p))
    else MarkStep(src, s, ch)
  }

  function StartIn(src: string, s: State): Start
    requires s.at <= |src|
  {
    StartOf(src, s.at, s.brackets > 0 && s.blocks == 0, s.last)
  }

  // scan_token. Past the end of the source, taking the lexeme throws.
  function ScanStep(r: Rules, s: State): Step {
    if s.at > |r.source| then Step(Throw, s)
    else
      var start := StartIn(r.source, s);
      var t := s.(at := start.at);
      if start.Newline? then Step(Ok(Token(YNEWLINE, t.at, t.at)), t)
      else if t.at == |r.source| then Step(Ok(Token(YEOF_TOKEN, t.at, t.at)), t)
      else ScanFrom(r, t)
  }

  // Blocks in which newlines separate clauses.
  function Blocks(open: nat, kind: TokenType): nat {
    match kind
    case YCASE | YDO | YWITH | YHANDLE => open + 1
    case YEND => if open > 0 then open - 1 else 0
    case _ => open
  }

  // next_token.
  function NextStep(r: Rules, s: State): Step {
    var t := ScanStep(r, s);
    if t.scan.Ok? then
      t.(after := t.after.(last := t.scan.token.kind, blocks := Blocks(t.after.blocks, t.scan.token.kind)))
    else t
  }

  // Where skip_char goes: past a character, or past one byte of an invalid sequence.
  function Skipped(src: string, i: nat): (k: nat)
    ensures i <= k && (i < |src| ==> i < k <= |src|)
  {
    match Peek(src, i)
    case Bad => if i < |src| then i + 1 else i
    case Char(ch) => i + Size(ch)
  }

  // The state for the next scan: after an error, tokenize goes past one character.
  function Recovered(r: Rules, t: Step): State {
    if t.scan.Err? && t.after.at < |r.source| then t.after.(at := Skipped(r.source, t.after.at)) else t.after
  }

  function Following(r: Rules): State -> State { s => Recovered(r, NextStep(r, s)) }

  function Iterate(next: State -> State, s: State, n: nat): State {
    if n == 0 then s else next(Iterate(next, s, n - 1))
  }

  // The state before the n-th scan of tokenize.
  function StateAt(r: Rules, n: nat): State { Iterate(Following(r), INITIAL, n) }

  function ScanAt(r: Rules, n: nat): Scan { NextStep(r, StateAt(r, n)).scan }
}
