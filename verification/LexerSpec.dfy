/**
 What the lexer of src/Lexer.cpp looks for: where a token starts, how it ends, what its
 span may hold, and how the spans of a whole source follow each other.
*/
module LexerSpec {
  import opened Utf8
  import opened LexerSyntax

  // Throw: a lexeme is taken from a position past the end of the source.
  datatype Scan = Ok(token: Token) | Err | Throw

  predicate SuppressesFollowingNewline(kind: TokenType) {
    match kind
    case YPLUS | YMINUS | YSTAR | YSLASH | YPERCENT | YPOWER | YEQ | YNEQ | YLT | YGT | YLTE | YGTE
       | YAND | YOR | YBIT_AND | YPIPE | YBIT_XOR | YBIT_NOT | YLEFT_SHIFT | YRIGHT_SHIFT
       | YZERO_FILL_RIGHT_SHIFT | YPIPE_LEFT | YPIPE_RIGHT | YJOIN | YCONS | YCONS_RIGHT
       | YARROW | YFAT_ARROW | YASSIGN | YCOMMA | YBACKSLASH | YIN | YTHEN | YELSE | YOF | YDO
       | YEOF_TOKEN | YNEWLINE => true
    case _ => false
  }

  // ---------------------------------------------------------------------
  // Where the next token starts
  // ---------------------------------------------------------------------

  // skip_whitespace_and_comments; `within` brackets newlines count as blanks.
  function SkipBlanks(src: string, i: nat, within: bool): (k: nat)
    requires i <= |src|
    ensures i <= k <= |src|
    decreases |src| - i
  {
    var k := ItemEnd(src, i);
    if k == i || (Peek(src, i) == Char(Code('\n')) && !within) then i else SkipBlanks(src, k, within)
  }

  lemma {:induction false} SkipBlanksGap(src: string, i: nat, within: bool)
    requires i <= |src|
    ensures Gap(src, i, SkipBlanks(src, i, within))
    ensures var k := SkipBlanks(src, i, within);
            ItemEnd(src, k) == k || (Peek(src, k) == Char(Code('\n')) && !within)
    decreases |src| - i
  {
    var k := ItemEnd(src, i);
    if k != i && !(Peek(src, i) == Char(Code('\n')) && !within) {
      SkipBlanksGap(src, k, within);
      GapMore(src, i, i, k);
      GapJoin(src, i, k, SkipBlanks(src, k, within));
    }
  }

  // The newlines, blanks and line comments from i.
  function NewlineRun(src: string, i: nat): (k: nat)
    requires i <= |src|
    ensures i <= k <= |src|
    decreases |src| - i
  {
    var k := ItemEnd(src, i);
    if k == i || StartsComment(src, i) then i else NewlineRun(src, k)
  }

  lemma {:induction false} NewlineRunGap(src: string, i: nat)
    requires i <= |src|
    ensures Gap(src, i, NewlineRun(src, i))
    decreases |src| - i
  {
    var k := ItemEnd(src, i);
    if k != i && !StartsComment(src, i) {
      NewlineRunGap(src, k);
      GapMore(src, i, i, k);
      GapJoin(src, i, k, NewlineRun(src, k));
    }
  }

  // The look-ahead over raw bytes to the text that follows a newline run.
  function RawLineEnd(src: string, i: nat): (k: nat)
    requires i <= |src|
    ensures i <= k <= |src|
    decreases |src| - i
  {
    if i == |src| || src[i] == '\n' then i else RawLineEnd(src, i + 1)
  }

  function RawBlockEnd(src: string, i: nat, depth: nat): (k: nat)
    requires i <= |src|
    ensures i <= k <= |src|
    decreases |src| - i
  {
    if i == |src| || depth == 0 then i
    else if i + 1 < |src| && src[i] == '/' && src[i + 1] == '*' then RawBlockEnd(src, i + 2, depth + 1)
    else if i + 1 < |src| && src[i] == '*' && src[i + 1] == '/' then RawBlockEnd(src, i + 2, depth - 1)
    else RawBlockEnd(src, i + 1, depth)
  }

  function RawSkip(src: string, i: nat): (k: nat)
    requires i <= |src|
    ensures i <= k <= |src|
    decreases |src| - i
  {
    if i == |src| then i
    else if src[i] == ' ' || src[i] == '\t' then RawSkip(src, i + 1)
    else if src[i] == '#' then RawSkip(src, RawLineEnd(src, i + 1))
    else if i + 1 < |src| && src[i] == '/' && src[i + 1] == '*' then RawSkip(src, RawBlockEnd(src, i + 2, 1))
    else i
  }

  predicate ContinuationPair(c: char, d: char) {
    || (c == '|' && d == '>') || (c == '<' && d == '|') || (c == '+' && d == '+') || (c == '=' && d == '=')
    || (c == '!' && d == '=') || (c == '&' && d == '&') || (c == '|' && d == '|') || (c == ':' && d == ':')
    || (c == '<' && d == '=') || (c == '>' && d == '=')
  }

  predicate NextIsContinuation(src: string, i: nat)
    requires i <= |src|
  {
    var k := RawSkip(src, i);
    k + 1 < |src| && ContinuationPair(src[k], src[k + 1])
  }

  // What a scan begins with: the token for a newline run, or a position at which
  // neither blanks nor comments are left to skip.
  datatype Start = Newline(at: nat) | Significant(at: nat)

  function StartOf(src: string, i: nat, within: bool, last: TokenType): (s: Start)
    requires i <= |src|
    ensures i <= s.at <= |src|
    ensures s.Newline? ==> i < s.at
  {
    var a := SkipBlanks(src, i, within);
    if a < |src| && Peek(src, a) == Char(Code('\n')) then
      var b := NewlineRun(src, a);
      if !SuppressesFollowingNewline(last) && !NextIsContinuation(src, b) then Newline(b)
      else Significant(SkipBlanks(src, b, within))
    else Significant(a)
  }

  lemma StartOfGap(src: string, i: nat, within: bool, last: TokenType)
    requires i <= |src|
    ensures Gap(src, i, StartOf(src, i, within, last).at)
  {
    var a := SkipBlanks(src, i, within);
    SkipBlanksGap(src, i, within);
    if a < |src| && Peek(src, a) == Char(Code('\n')) {
      var b := NewlineRun(src, a);
      NewlineRunGap(src, a);
      GapJoin(src, i, a, b);
      SkipBlanksGap(src, b, within);
      GapJoin(src, i, b, SkipBlanks(src, b, within));
    }
  }

  // ---------------------------------------------------------------------
  // Tokens
  // ---------------------------------------------------------------------

  function WordEnd(src: string, i: nat): (k: nat)
    requires i <= |src|
    ensures i <= k <= |src|
    decreases |src| - i
  {
    if i == |src| then i
    else match Peek(src, i)
         case Bad => i
         case Char(ch) => if IsIdentifierContinue(ch) then WordEnd(src, i + Size(ch)) else i
  }

  // Where an escape that starts at i, after its backslash, ends, or where reading it
  // fails; Cut when the source ends first.
  datatype Escaped = Done(next: nat) | Wrong(at: nat) | Cut

  function HexEnd(src: string, i: nat, digits: nat): (e: Escaped)
    requires i <= |src|
    ensures e.Done? ==> i <= e.next <= |src|
    ensures e.Wrong? ==> i <= e.at <= |src|
    decreases digits
  {
    if digits == 0 then Done(i)
    else if i == |src| then Cut
    else match Peek(src, i)
         case Bad => Wrong(i)
         case Char(ch) => if IsHexDigit(ch) then HexEnd(src, i + 1, digits - 1) else Wrong(i + Size(ch))
  }

  predicate SimpleEscape(ch: nat) {
    Is(ch, 'n') || Is(ch, 'r') || Is(ch, 't') || Is(ch, '\\') || Is(ch, '"') || Is(ch, '\'') || Is(ch, '0')
  }

  function EscapeEnd(src: string, i: nat): (e: Escaped)
    requires i <= |src|
    ensures e.Done? ==> i < e.next <= |src|
    ensures e.Wrong? ==> i <= e.at <= |src|
  {
    if i == |src| then Cut
    else match Peek(src, i)
         case Bad => Wrong(i)
         case Char(ch) =>
           if SimpleEscape(ch) then Done(i + 1)
           else if Is(ch, 'u') then HexEnd(src, i + 1, 4)
           else if Is(ch, 'U') then HexEnd(src, i + 1, 8)
           else Wrong(i + Size(ch))
  }

  // A string's text from i, or a character literal from its quote at p, runs into the
  // end of the source in a place where a character is read without asking for it.
  predicate BodyCut(src: string, i: nat)
    requires i <= |src|
    decreases |src| - i
  {
    if i == |src| then false
    else match Peek(src, i)
         case Bad => false
         case Char(ch) =>
           if Is(ch, '"') || Is(ch, '{') || Is(ch, '\n') then false
           else if Is(ch, '\\') then
             match EscapeEnd(src, i + 1)
             case Done(k) => BodyCut(src, k)
             case Wrong(_) => false
             case Cut => true
           else BodyCut(src, i + Size(ch))
  }

  predicate CharacterCut(src: string, p: nat)
    requires p < |src|
  {
    if p + 1 == |src| then true
    else match Peek(src, p + 1)
         case Bad => false
         case Char(ch) =>
           if Is(ch, '\\') then
             match EscapeEnd(src, p + 2)
             case Done(k) => k == |src|
             case Wrong(_) => false
             case Cut => true
           else !Is(ch, '\'') && p + 1 + Size(ch) == |src|
  }

  // The scan of the token at p goes past the end of the source.
  predicate CutAt(src: string, p: nat, interpolations: nat)
    requires p < |src|
  {
    || (At(src, p, '\'') && CharacterCut(src, p))
    || ((At(src, p, '"') || (At(src, p, '}') && interpolations > 0)) && BodyCut(src, p + 1))
  }

  // A word starts at p; a lone underscore is not one.
  predicate WordAt(src: string, p: nat) {
    p < |src| && Peek(src, p).Char? && IsIdentifierStart(Peek(src, p).ch)
    && (Peek(src, p) == Char(Code('_')) ==>
          p + 1 < |src| && Peek(src, p + 1).Char? && IsIdentifierContinue(Peek(src, p + 1).ch))
  }

  // A mark has its spelling, and no longer mark starts where it does.
  ghost predicate Spelled(src: string, t: Token) {
    Spelling(t.kind) != NoChars ==>
      && t.end == t.start + Length(Spelling(t.kind)) && Spells(src, t.start, Spelling(t.kind))
      && NoneAt(src, t.end, Extensions(t.kind))
  }

  predicate DigitAt(src: string, i: nat) { Peek(src, i).Char? && IsDigit(Peek(src, i).ch) }

  // The delimiters and digits of the other tokens.
  ghost predicate Outlined(src: string, t: Token) {
    match t.kind
    case YSYMBOL => At(src, t.start, ':')
    case YCHARACTER => t.start + 1 < t.end && At(src, t.start, '\'') && At(src, t.end - 1, '\'')
    case YSTRING => t.start < t.end && At(src, t.end - 1, '"')
    case YSTRING_PART => t.start < t.end && (At(src, t.end - 1, '"') || At(src, t.end - 1, '{'))
    case YINTEGER => DigitAt(src, t.start) && forall k :: t.start < k < t.end ==> DigitAt(src, k) || At(src, k, '_')
    case YFLOAT => DigitAt(src, t.start)
    case YBYTE => DigitAt(src, t.start) && t.start + 1 < t.end && (At(src, t.end - 1, 'b') || At(src, t.end - 1, 'B'))
    case YNEWLINE => t.start == t.end || (At(src, t.start, ';') && t.end == t.start + 1)
    case _ => true
  }

  // Token types that are neither a word nor the end of the source.
  predicate PlainKind(kind: TokenType) {
    Spelling(kind) != NoChars || kind in {YINTEGER, YFLOAT, YBYTE, YSTRING, YSTRING_PART, YCHARACTER, YSYMBOL, YNEWLINE}
  }

  // A string that does not resume after an interpolation starts with its quote.
  predicate Fresh(src: string, t: Token) {
    t.kind in {YSTRING, YSTRING_PART} ==> At(src, t.start, '"')
  }

  // What scanning a word at p gives.
  function WordScan(src: string, keywords: map<string, TokenType>, p: nat): Scan
    requires WordAt(src, p)
  {
    var k := WordEnd(src, p + Size(Peek(src, p).ch));
    if k < |src| && Peek(src, k).Bad? then Err else Ok(Token(WordKind(keywords, src[p..k]), p, k))
  }

  // A string segment that stops at an opening brace begins an interpolation.
  function Opens(src: string, t: Token): nat {
    if t.kind == YSTRING_PART && t.start < t.end && Peek(src, t.end - 1) == Char(Code('{')) then 1 else 0
  }

  // t is the token found from a position, with so many open interpolations before and
  // after: past blanks and comments, and perhaps the brace that closes one of them.
  ghost predicate Lexed(src: string, from: nat, before: nat, t: Token, after: nat) {
    && from <= t.start <= t.end <= |src| && Spelled(src, t) && Outlined(src, t)
    && (if t.kind == YEOF_TOKEN then t.start == t.end == |src| else from < t.end)
    && ((Gap(src, from, t.start) && Fresh(src, t) && after == before + Opens(src, t))
        || Resumed(src, from, before, t, after))
  }

  ghost predicate Resumed(src: string, from: nat, before: nat, t: Token, after: nat) {
    && before > 0 && from < t.start && Peek(src, t.start - 1) == Char(Code('}'))
    && Gap(src, from, t.start - 1) && after == before - 1 + Opens(src, t)
    && (t.kind == YSTRING || t.kind == YSTRING_PART)
  }

  // A table that spells words only.
  ghost predicate WordTable(keywords: map<string, TokenType>) {
    forall w :: w in keywords ==> !PlainKind(keywords[w]) && keywords[w] != YEOF_TOKEN
  }

  lemma KeywordsAreWords()
    ensures WordTable(KEYWORDS)
  {
  }

  // The scan goes past the end of the source.
  predicate CutStart(src: string, s: Start, interpolations: nat)
    requires s.at <= |src|
  {
    s.Significant? && s.at < |src| && CutAt(src, s.at, interpolations)
  }

  /**
   A scan can begin with a newline, which no token does: exactly when newlines count, a
   newline that gives no token is skipped, and a block comment after it leads, through
   blanks and comments, to another newline.
  */
  lemma StrandedNewlineIff(src: string, i: nat, within: bool, last: TokenType)
    requires i <= |src|
    ensures var s := StartOf(src, i, within, last);
            s.Significant? && At(src, s.at, '\n') <==> !within && Strands(src, SkipBlanks(src, i, within), last)
  {
    var a := SkipBlanks(src, i, within);
    NewlineStops(src, i, within, a);
    if At(src, a, '\n') { RunStrands(src, a, within, NewlineRun(src, a)); }
  }

  lemma NewlineStops(src: string, i: nat, within: bool, a: nat)
    requires i <= |src| && a == SkipBlanks(src, i, within)
    ensures At(src, a, '\n') ==> !within
  {
    SkipBlanksGap(src, i, within);
  }

  lemma RunStrands(src: string, a: nat, within: bool, b: nat)
    requires a <= |src| && b == NewlineRun(src, a)
    ensures At(src, SkipBlanks(src, b, within), '\n')
            <==> !within && StartsComment(src, b) && At(src, SkipBlanks(src, b, false), '\n')
  {
    RunStops(src, a);
    AfterRun(src, b, within);
  }

  // Past a newline run, a newline is reached only through a block comment.
  lemma AfterRun(src: string, b: nat, within: bool)
    requires b <= |src| && (ItemEnd(src, b) == b || StartsComment(src, b))
    ensures At(src, SkipBlanks(src, b, within), '\n')
            <==> !within && StartsComment(src, b) && At(src, SkipBlanks(src, b, false), '\n')
  {
    SkipBlanksGap(src, b, within);
  }

  // The newlines from a on give no token, and are followed by a block comment with
  // another newline after it.
  predicate Strands(src: string, a: nat, last: TokenType)
    requires a <= |src|
  {
    At(src, a, '\n') &&
    var b := NewlineRun(src, a);
    && (SuppressesFollowingNewline(last) || NextIsContinuation(src, b))
    && StartsComment(src, b) && At(src, SkipBlanks(src, b, false), '\n')
  }

  lemma {:induction false} RunStops(src: string, i: nat)
    requires i <= |src|
    ensures var k := NewlineRun(src, i); ItemEnd(src, k) == k || StartsComment(src, k)
    decreases |src| - i
  {
    var k := ItemEnd(src, i);
    if k != i && !StartsComment(src, i) { RunStops(src, k); }
  }

  lemma StrandedExample()
    ensures StartOf("\n/**/\n", 0, false, YASSIGN) == Significant(5) && At("\n/**/\n", 5, '\n')
  {
    var src := "\n/**/\n";
    assert Peek(src, 0) == Char(10) && Peek(src, 1) == Char(47) && Peek(src, 3) == Char(42) && Peek(src, 5) == Char(10);
    assert SkipBlanks(src, 0, false) == 0;
    assert NewlineRun(src, 1) == 1;
    assert NewlineRun(src, 0) == 1;
    assert BlockEnd(src, 5, 0) == 5;
    assert BlockEnd(src, 3, 1) == 5;
    assert ItemEnd(src, 1) == 5;
    assert SkipBlanks(src, 5, false) == 5;
  }

  // ---------------------------------------------------------------------
  // Whole sources
  // ---------------------------------------------------------------------

  function EndOf(tokens: seq<Token>): nat {
    if tokens == [] then 0 else tokens[|tokens| - 1].end
  }

  // Each token is the next one found where the one before it ends.
  ghost predicate Chain(src: string, tokens: seq<Token>, interpolations: nat)
    decreases |tokens|
  {
    if tokens == [] then interpolations == 0
    else
      var n := |tokens| - 1;
      exists before: nat :: Chain(src, tokens[..n], before)
                            && Lexed(src, EndOf(tokens[..n]), before, tokens[n], interpolations)
  }

  lemma ChainMore(src: string, tokens: seq<Token>, before: nat, t: Token, after: nat)
    requires Chain(src, tokens, before) && Lexed(src, EndOf(tokens), before, t, after)
    ensures Chain(src, tokens + [t], after)
  {
    assert (tokens + [t])[..|tokens|] == tokens;
  }

  // Only blanks and comments separate two tokens, but for the brace that ends an
  // interpolation in front of a string segment.
  ghost predicate Separated(src: string, i: nat, t: Token) {
    i <= t.start && ((Gap(src, i, t.start) && Fresh(src, t))
                     || (&& i < t.start && At(src, t.start - 1, '}') && Gap(src, i, t.start - 1)
                         && t.kind in {YSTRING, YSTRING_PART}))
  }

  // The span of t lies in the source, after `from`, and delimits what its type says.
  ghost predicate Covers(src: string, from: nat, t: Token) {
    t.start <= t.end <= |src| && Outlined(src, t) && Spelled(src, t) && Separated(src, from, t)
  }

  lemma LexedCovers(src: string, from: nat, before: nat, t: Token, after: nat)
    requires Lexed(src, from, before, t, after)
    ensures Covers(src, from, t)
  {
  }

  // Spans are ordered and disjoint, and what lies before each of them is skippable.
  ghost predicate AllCovered(src: string, tokens: seq<Token>)
    decreases |tokens|
  {
    tokens == [] || (var n := |tokens| - 1;
                     AllCovered(src, tokens[..n]) && Covers(src, EndOf(tokens[..n]), tokens[n]))
  }

  lemma {:induction false} ChainCovers(src: string, tokens: seq<Token>, interpolations: nat)
    requires Chain(src, tokens, interpolations)
    ensures AllCovered(src, tokens)
    decreases |tokens|
  {
    if tokens != [] {
      var n := |tokens| - 1;
      var before: nat :| Chain(src, tokens[..n], before)
                         && Lexed(src, EndOf(tokens[..n]), before, tokens[n], interpolations);
      ChainCovers(src, tokens[..n], before);
      LexedCovers(src, EndOf(tokens[..n]), before, tokens[n], interpolations);
    }
  }

  // So every byte of a source that lexes lies in one token's span, or in a stretch of
  // blanks and comments, or is a brace that ends an interpolation.
  ghost predicate InGap(src: string, tokens: seq<Token>, k: nat, p: nat)
    requires k < |tokens|
  {
    EndOf(tokens[..k]) <= p < tokens[k].start && Separated(src, EndOf(tokens[..k]), tokens[k])
  }

  lemma {:induction false} EveryByte(src: string, tokens: seq<Token>, p: nat)
    requires AllCovered(src, tokens) && p < EndOf(tokens)
    ensures exists k: nat :: k < |tokens| && (tokens[k].start <= p < tokens[k].end || InGap(src, tokens, k, p))
    decreases |tokens|
  {
    var n := |tokens| - 1;
    if p < EndOf(tokens[..n]) {
      EveryByte(src, tokens[..n], p);
      var k: nat :| k < n && (tokens[..n][k].start <= p < tokens[..n][k].end || InGap(src, tokens[..n], k, p));
      assert tokens[..n][k] == tokens[k] && tokens[..n][..k] == tokens[..k];
      assert tokens[k].start <= p < tokens[k].end || InGap(src, tokens, k, p);
    } else {
      assert tokens[n].start <= p < tokens[n].end || InGap(src, tokens, n, p);
    }
  }
}
