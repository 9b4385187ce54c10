/**
 What the scans of src/Lexer.cpp find, and the runs of scans that tokenize makes.
*/
module LexerRuns {
  import opened Utf8
  import opened LexerSyntax
  import opened LexerSpec
  import opened LexerScan

  // ---------------------------------------------------------------------
  // The span of one token
  // ---------------------------------------------------------------------

  // t is the token found from s.at on, with nothing to skip.
  ghost predicate Found(src: string, s: State, t: Token, after: State) {
    && Spelled(src, t) && Outlined(src, t) && t.kind != YEOF_TOKEN && t.end == after.at && s.at < t.end <= |src|
    && ((t.start == s.at && Fresh(src, t) && after.interpolations == s.interpolations + Opens(src, t))
        || (&& s.interpolations > 0 && t.start == s.at + 1 && At(src, s.at, '}')
            && t.kind in {YSTRING, YSTRING_PART} && after.interpolations == s.interpolations - 1 + Opens(src, t)))
  }

  // What a scan promises of where it leaves off.
  ghost predicate Leaves(src: string, s: State, t: Step) {
    && !t.scan.Throw? && s.at <= t.after.at && (Peek(src, s.at).Char? ==> s.at < t.after.at)
    && (t.scan.Ok? ==> Found(src, s, t.scan.token, t.after))
  }

  lemma {:induction false} DigitsOutline(src: string, p: nat, i: nat, dot: bool, exp: bool, k: nat)
    requires p < i <= |src| && forall j :: p < j < i ==> DigitAt(src, j) || At(src, j, '_')
    requires !dot && !exp
    ensures var d := DigitsFrom(src, i, dot, exp);
            !d.dot && !d.exp && p < k < d.end ==> DigitAt(src, k) || At(src, k, '_')
    decreases |src| - i
  {
    if i < |src| && Peek(src, i).Char? {
      var ch := Peek(src, i).ch;
      if IsDigit(ch) || Is(ch, '_') {
        DigitsOutline(src, p, i + 1, dot, exp, k);
      } else {
        DigitsKeepDot(src, i + 1, true, exp);
        DigitsKeepExp(src, AfterSign(src, i + 1), dot);
      }
    }
  }

  lemma {:induction false} DigitsKeepDot(src: string, i: nat, dot: bool, exp: bool)
    requires i <= |src| && dot
    ensures DigitsFrom(src, i, dot, exp).dot
    decreases |src| - i
  {
    if i < |src| && Peek(src, i).Char? {
      DigitsKeepDot(src, i + 1, dot, exp);
      DigitsKeepDot(src, AfterSign(src, i + 1), dot, true);
    }
  }

  lemma {:induction false} DigitsKeepExp(src: string, i: nat, dot: bool)
    requires i <= |src|
    ensures DigitsFrom(src, i, dot, true).exp
    decreases |src| - i
  {
    if i < |src| && Peek(src, i).Char? { DigitsKeepExp(src, i + 1, dot); }
  }

  lemma NumberOutline(r: Rules, p: nat)
    requires DigitAt(r.source, p)
    ensures var e := NumberFrom(r, p);
            && p < e.end <= |r.source| && !e.scan.Throw?
            && (e.scan.Ok? ==>
                  && e.scan.token.kind in {YINTEGER, YFLOAT, YBYTE} && Outlined(r.source, e.scan.token)
                  && e.scan.token.start == p && e.scan.token.end == e.end)
  {
    var src, d := r.source, DigitsFrom(r.source, p + 1, false, false);
    forall k | !d.dot && !d.exp && p < k < d.end ensures DigitAt(src, k) || At(src, k, '_') {
      DigitsOutline(src, p, p + 1, false, false, k);
    }
  }

  // Every body scan ends at a quote or a brace, or fails; it goes past the end of the
  // source exactly when BodyCut says so.
  lemma {:induction false} BodyEnds(src: string, i: nat)
    requires i <= |src|
    ensures var b := BodyFrom(src, i);
            && (b.Closed? ==> i < b.end <= |src| && At(src, b.end - 1, '"'))
            && (b.Opened? ==> i < b.end <= |src| && At(src, b.end - 1, '{'))
            && (b.end > |src| <==> BodyCut(src, i))
    decreases |src| - i
  {
    if i < |src| && Peek(src, i).Char? {
      var ch := Peek(src, i).ch;
      if Is(ch, '\\') {
        if EscapeEnd(src, i + 1).Done? { BodyEnds(src, EscapeEnd(src, i + 1).next); }
      } else if !Is(ch, '"') && !Is(ch, '{') && !Is(ch, '\n') {
        BodyEnds(src, i + Size(ch));
      }
    }
  }

  // A segment ends where its body does, and its token there too.
  ghost predicate SegmentRight(src: string, start: nat, s: State, t: Step)
    requires s.at <= |src|
  {
    && !t.scan.Throw? && s.at <= t.after.at && (t.after.at > |src| <==> BodyCut(src, s.at))
    && (t.scan.Ok? ==>
          && t.scan.token.kind in {YSTRING, YSTRING_PART} && Outlined(src, t.scan.token)
          && t.scan.token.start == start && t.scan.token.end == t.after.at && s.at < t.after.at <= |src|
          && t.after.interpolations == s.interpolations + Opens(src, t.scan.token))
  }

  lemma ClosedFound(src: string, start: nat, s: State, end: nat, kind: TokenType)
    requires start <= s.at <= |src| && BodyFrom(src, s.at) == Closed(end) && (kind == YSTRING || kind == YSTRING_PART)
    ensures SegmentRight(src, start, s, Step(Ok(Token(kind, start, end)), s.(at := end)))
  {
    BodyEnds(src, s.at);
  }

  lemma OpenedFound(src: string, start: nat, s: State, end: nat)
    requires start <= s.at <= |src| && BodyFrom(src, s.at) == Opened(end)
    ensures SegmentRight(src, start, s, Step(Ok(Token(YSTRING_PART, start, end)),
                                             s.(at := end, interpolations := s.interpolations + 1)))
  {
    BodyEnds(src, s.at);
  }

  lemma SegmentFound(src: string, start: nat, s: State)
    requires start <= s.at <= |src|
    ensures SegmentRight(src, start, s, SegmentFrom(src, start, s))
  {
    match BodyFrom(src, s.at)
    case Closed(end) => ClosedFound(src, start, s, end, if s.interpolations > 0 then YSTRING_PART else YSTRING);
    case Opened(end) => OpenedFound(src, start, s, end);
    case Broken(end) => BodyEnds(src, s.at);
  }

  lemma CharacterFound(src: string, p: nat)
    requires p < |src| && At(src, p, '\'')
    ensures var e := CharacterFrom(src, p);
            && !e.scan.Throw? && p < e.end && (e.end > |src| <==> CharacterCut(src, p))
            && (e.scan.Ok? ==>
                  e.scan.token == Token(YCHARACTER, p, e.end) && e.end <= |src| && Outlined(src, e.scan.token))
  {
  }

  // A mark has its spelling, and no longer mark starts where it does.
  ghost predicate IsSpelled(src: string, p: nat, mark: Mark) {
    && Spelling(mark.kind) != NoChars && p + 1 + mark.more <= |src|
    && Spelled(src, Token(mark.kind, p, p + 1 + mark.more))
  }

  lemma MinusSpelled(src: string, p: nat, mark: Mark)
    requires p < |src| && At(src, p, '-') && mark == MinusFrom(src, p + 1)
    ensures IsSpelled(src, p, mark)
  {
  }

  lemma EqualsSpelled(src: string, p: nat, mark: Mark)
    requires p < |src| && At(src, p, '=') && mark == EqualsFrom(src, p + 1)
    ensures IsSpelled(src, p, mark)
  {
  }

  lemma LessSpelled(src: string, p: nat, mark: Mark)
    requires p < |src| && At(src, p, '<') && mark == LessFrom(src, p + 1)
    ensures IsSpelled(src, p, mark)
  {
  }

  lemma GreaterSpelled(src: string, p: nat, mark: Mark)
    requires p < |src| && At(src, p, '>') && mark == GreaterFrom(src, p + 1)
    ensures IsSpelled(src, p, mark)
  {
  }

  lemma PipeSpelled(src: string, p: nat, mark: Mark)
    requires p < |src| && At(src, p, '|') && mark == PipeFrom(src, p + 1)
    ensures IsSpelled(src, p, mark)
  {
  }

  lemma ColonSpelled(src: string, p: nat, mark: Mark)
    requires p < |src| && At(src, p, ':') && mark == ColonFrom(src, p + 1)
    ensures IsSpelled(src, p, mark)
  {
  }

  lemma OneSpelled(src: string, p: nat, c: char, mark: Mark)
    requires p < |src| && At(src, p, c) && mark.more == 0
    requires Spelling(mark.kind) == One(c) && NoneAt(src, p + 1, Extensions(mark.kind))
    ensures IsSpelled(src, p, mark)
  {
  }

  lemma TwoSpelled(src: string, p: nat, c: char, d: char, mark: Mark)
    requires p < |src| && At(src, p, c) && At(src, p + 1, d) && Code(d) != 0 && mark.more == 1
    requires Spelling(mark.kind) == Two(c, d) && Extensions(mark.kind) == NoChars
    ensures IsSpelled(src, p, mark)
  {
  }

  lemma OneOrTwoSpelled(src: string, p: nat, c: char, single: TokenType, next: char, double: TokenType, mark: Mark)
    requires p < |src| && At(src, p, c) && Code(next) != 0
    requires Spelling(single) == One(c) && Extensions(single) == One(next)
    requires Spelling(double) == Two(c, next) && Extensions(double) == NoChars
    requires mark == OneOrTwo(src, p + 1, single, next, double)
    ensures IsSpelled(src, p, mark)
  {
    if At(src, p + 1, next) { TwoSpelled(src, p, c, next, mark); } else { OneSpelled(src, p, c, mark); }
  }

  lemma SumSpelled(src: string, p: nat, ch: nat, mark: Mark)
    requires p < |src| && Peek(src, p) == Char(ch) && (Is(ch, '+') || Is(ch, '-'))
    requires IsOperatorChar(ch) && mark == OperatorFrom(src, p + 1, ch)
    ensures IsSpelled(src, p, mark)
  {
    if Is(ch, '+') { OneOrTwoSpelled(src, p, '+', YPLUS, '+', YJOIN, mark); } else { MinusSpelled(src, p, mark); }
  }

  lemma ProductSpelled(src: string, p: nat, ch: nat, mark: Mark)
    requires p < |src| && Peek(src, p) == Char(ch) && (Is(ch, '*') || Is(ch, '/') || Is(ch, '%'))
    requires IsOperatorChar(ch) && mark == OperatorFrom(src, p + 1, ch)
    ensures IsSpelled(src, p, mark)
  {
    if Is(ch, '*') { OneOrTwoSpelled(src, p, '*', YSTAR, '*', YPOWER, mark); }
    else if Is(ch, '/') { OneSpelled(src, p, '/', mark); }
    else { OneSpelled(src, p, '%', mark); }
  }

  lemma ComparisonSpelled(src: string, p: nat, ch: nat, mark: Mark)
    requires p < |src| && Peek(src, p) == Char(ch)
    requires Is(ch, '=') || Is(ch, '!') || Is(ch, '<') || Is(ch, '>')
    requires IsOperatorChar(ch) && mark == OperatorFrom(src, p + 1, ch)
    ensures IsSpelled(src, p, mark)
  {
    if Is(ch, '=') { EqualsSpelled(src, p, mark); }
    else if Is(ch, '!') { OneOrTwoSpelled(src, p, '!', YNOT, '=', YNEQ, mark); }
    else if Is(ch, '<') { LessSpelled(src, p, mark); }
    else { GreaterSpelled(src, p, mark); }
  }

  lemma BarSpelled(src: string, p: nat, ch: nat, mark: Mark)
    requires p < |src| && Peek(src, p) == Char(ch) && (Is(ch, '&') || Is(ch, '|'))
    requires IsOperatorChar(ch) && mark == OperatorFrom(src, p + 1, ch)
    ensures IsSpelled(src, p, mark)
  {
    if Is(ch, '&') { OneOrTwoSpelled(src, p, '&', YBIT_AND, '&', YAND, mark); } else { PipeSpelled(src, p, mark); }
  }

  lemma SingleSpelled(src: string, p: nat, ch: nat, mark: Mark)
    requires p < |src| && Peek(src, p) == Char(ch) && (Is(ch, '^') || Is(ch, '~') || Is(ch, '@'))
    requires IsOperatorChar(ch) && mark == OperatorFrom(src, p + 1, ch)
    ensures IsSpelled(src, p, mark)
  {
    if Is(ch, '^') { OneSpelled(src, p, '^', mark); }
    else if Is(ch, '~') { OneSpelled(src, p, '~', mark); }
    else { OneSpelled(src, p, '@', mark); }
  }

  lemma OperatorSpelled(src: string, p: nat, ch: nat, mark: Mark)
    requires p < |src| && Peek(src, p) == Char(ch) && IsOperatorChar(ch)
    requires IsOperatorChar(ch) && mark == OperatorFrom(src, p + 1, ch)
    ensures IsSpelled(src, p, mark)
  {
    if Is(ch, '+') || Is(ch, '-') {
      SumSpelled(src, p, ch, mark);
    } else if Is(ch, '*') || Is(ch, '/') || Is(ch, '%') {
      ProductSpelled(src, p, ch, mark);
    } else if Is(ch, '=') || Is(ch, '!') || Is(ch, '<') || Is(ch, '>') {
      ComparisonSpelled(src, p, ch, mark);
    } else if Is(ch, '&') || Is(ch, '|') {
      BarSpelled(src, p, ch, mark);
    } else {
      SingleSpelled(src, p, ch, mark);
    }
  }

  lemma OpeningSpelled(src: string, p: nat, ch: nat, mark: Mark)
    requires p < |src| && Peek(src, p) == Char(ch) && (Is(ch, '(') || Is(ch, '[') || Is(ch, '{') || Is(ch, ','))
    requires IsBracket(ch) && mark == Mark(BracketKind(ch), 0)
    ensures IsSpelled(src, p, mark)
  {
    if Is(ch, '(') { OneSpelled(src, p, '(', mark); }
    else if Is(ch, '[') { OneSpelled(src, p, '[', mark); }
    else if Is(ch, '{') { OneSpelled(src, p, '{', mark); }
    else { OneSpelled(src, p, ',', mark); }
  }

  lemma ClosingSpelled(src: string, p: nat, ch: nat, mark: Mark)
    requires p < |src| && Peek(src, p) == Char(ch) && (Is(ch, ')') || Is(ch, ']') || Is(ch, '}'))
    requires IsBracket(ch) && mark == Mark(BracketKind(ch), 0)
    ensures IsSpelled(src, p, mark)
  {
    if Is(ch, ')') { OneSpelled(src, p, ')', mark); }
    else if Is(ch, ']') { OneSpelled(src, p, ']', mark); }
    else { OneSpelled(src, p, '}', mark); }
  }

  lemma BracketSpelled(src: string, p: nat, ch: nat, mark: Mark)
    requires p < |src| && Peek(src, p) == Char(ch) && IsBracket(ch)
    requires IsBracket(ch) && mark == Mark(BracketKind(ch), 0)
    ensures IsSpelled(src, p, mark)
  {
    if Is(ch, ')') || Is(ch, ']') || Is(ch, '}') {
      ClosingSpelled(src, p, ch, mark);
    } else {
      OpeningSpelled(src, p, ch, mark);
    }
  }

  lemma SeparatorSpelled(src: string, p: nat, ch: nat, mark: Mark)
    requires p < |src| && Peek(src, p) == Char(ch) && (Is(ch, '.') || Is(ch, '\\') || Is(ch, ':'))
    requires mark == MarkFrom(src, p + 1, ch)
    ensures IsSpelled(src, p, mark)
  {
    if Is(ch, '.') { OneOrTwoSpelled(src, p, '.', YDOT, '.', YDOTDOT, mark); }
    else if Is(ch, '\\') { OneSpelled(src, p, '\\', mark); }
    else { ColonSpelled(src, p, mark); }
  }

  lemma MarkSpelled(src: string, p: nat, ch: nat, mark: Mark)
    requires p < |src| && Peek(src, p) == Char(ch) && IsMark(ch) && mark == MarkFrom(src, p + 1, ch)
    ensures IsSpelled(src, p, mark)
  {
    if IsBracket(ch) { BracketSpelled(src, p, ch, mark); }
    else if IsOperatorChar(ch) { OperatorSpelled(src, p, ch, mark); }
    else { SeparatorSpelled(src, p, ch, mark); }
  }

  // A token that is spelled has none of the other outlines.
  lemma SpelledOutline(src: string, t: Token)
    requires Spelling(t.kind) != NoChars
    ensures Outlined(src, t) && Fresh(src, t) && Opens(src, t) == 0 && t.kind != YEOF_TOKEN
    ensures Length(Spelling(t.kind)) > 0
  {
  }

  // A step that leaves off where the cut condition says.
  ghost predicate Right(src: string, s: State, t: Step)
    requires s.at < |src|
  {
    Leaves(src, s, t) && (t.after.at > |src| <==> CutAt(src, s.at, s.interpolations))
  }

  lemma StringFound(src: string, s: State, t: Step)
    requires s.at < |src| && At(src, s.at, '"') && t == SegmentFrom(src, s.at, s.(at := s.at + 1))
    ensures Right(src, s, t)
  {
    SegmentFound(src, s.at, s.(at := s.at + 1));
    assert CutAt(src, s.at, s.interpolations) == BodyCut(src, s.at + 1);
  }

  lemma ResumedFound(src: string, s: State, t: Step)
    requires s.at < |src| && At(src, s.at, '}') && s.interpolations > 0
    requires t == SegmentFrom(src, s.at + 1, s.(at := s.at + 1, interpolations := s.interpolations - 1))
    ensures Right(src, s, t)
  {
    SegmentFound(src, s.at + 1, s.(at := s.at + 1, interpolations := s.interpolations - 1));
  }

  lemma QuotedFound(src: string, s: State, t: Step)
    requires s.at < |src| && At(src, s.at, '\'')
    requires t == Moved(s, CharacterFrom(src, s.at))
    ensures Right(src, s, t)
  {
    CharacterFound(src, s.at);
  }

  lemma TextFound(src: string, s: State, ch: nat, t: Step)
    requires s.at < |src| && Peek(src, s.at) == Char(ch) && IsText(s, ch)
    requires t == TextFrom(src, s, ch)
    ensures Right(src, s, t)
  {
    if Is(ch, '"') {
      StringFound(src, s, t);
    } else if Is(ch, '\'') {
      QuotedFound(src, s, t);
    } else {
      ResumedFound(src, s, t);
    }
  }

  lemma SemicolonFound(src: string, s: State, t: Step)
    requires s.at < |src| && At(src, s.at, ';')
    requires t == Moved(s, Ended(Ok(Token(YNEWLINE, s.at, s.at + 1)), s.at + 1))
    ensures Right(src, s, t)
  {
  }

  lemma SymbolFound(src: string, s: State, t: Step)
    requires s.at < |src| && SymbolAt(src, s.at)
    requires t == Moved(s, SymbolFrom(src, s.at))
    ensures Right(src, s, t)
  {
  }

  lemma FoundSpelled(src: string, s: State, t: Token, after: State)
    requires Spelling(t.kind) != NoChars && Spelled(src, t)
    requires t.start == s.at < t.end == after.at <= |src| && after.interpolations == s.interpolations
    ensures Found(src, s, t, after)
  {
    SpelledOutline(src, t);
  }

  lemma MarkFound(src: string, s: State, mark: Mark, t: Step)
    requires s.at < |src| && IsSpelled(src, s.at, mark) && !CutAt(src, s.at, s.interpolations)
    requires t == TokenStep(s, mark)
    ensures Right(src, s, t)
  {
    FoundSpelled(src, s, t.scan.token, t.after);
  }

  lemma NoneFound(src: string, s: State, ch: nat, t: Step)
    requires s.at < |src| && Peek(src, s.at) == Char(ch) && !IsText(s, ch) && !IsMark(ch)
    requires t == MarkStep(src, s, ch)
    ensures Right(src, s, t)
  {
  }

  lemma NoCut(src: string, s: State, ch: nat)
    requires s.at < |src| && Peek(src, s.at) == Char(ch) && !IsText(s, ch)
    ensures !CutAt(src, s.at, s.interpolations)
  {
  }

  lemma BracketFound(src: string, s: State, ch: nat, t: Step)
    requires s.at < |src| && Peek(src, s.at) == Char(ch) && !IsText(s, ch) && IsBracket(ch)
    requires t == TokenStep(s, Mark(BracketKind(ch), 0))
    ensures Right(src, s, t)
  {
    NoCut(src, s, ch);
    BracketSpelled(src, s.at, ch, Mark(BracketKind(ch), 0));
    MarkFound(src, s, Mark(BracketKind(ch), 0), t);
  }

  lemma SeparatorFound(src: string, s: State, ch: nat, t: Step)
    requires s.at < |src| && Peek(src, s.at) == Char(ch) && !IsText(s, ch)
    requires (Is(ch, '.') || Is(ch, '\\') || Is(ch, ':')) && t == TokenStep(s, MarkFrom(src, s.at + 1, ch))
    ensures Right(src, s, t)
  {
    NoCut(src, s, ch);
    SeparatorSpelled(src, s.at, ch, MarkFrom(src, s.at + 1, ch));
    MarkFound(src, s, MarkFrom(src, s.at + 1, ch), t);
  }

  lemma OperatorFound(src: string, s: State, ch: nat, mark: Mark, t: Step)
    requires s.at < |src| && Peek(src, s.at) == Char(ch) && !IsText(s, ch) && IsOperatorChar(ch)
    requires mark == OperatorFrom(src, s.at + 1, ch) && t == TokenStep(s, mark)
    ensures Right(src, s, t)
  {
    NoCut(src, s, ch);
    OperatorSpelled(src, s.at, ch, mark);
    MarkFound(src, s, mark, t);
  }

  lemma MarkCase(src: string, s: State, ch: nat, t: Step)
    requires s.at < |src| && Peek(src, s.at) == Char(ch) && !IsText(s, ch) && IsMark(ch)
    requires t == MarkStep(src, s, ch)
    ensures Right(src, s, t)
  {
    if IsBracket(ch) {
      BracketFound(src, s, ch, t);
    } else if IsOperatorChar(ch) {
      OperatorFound(src, s, ch, OperatorFrom(src, s.at + 1, ch), t);
    } else {
      SeparatorFound(src, s, ch, t);
    }
  }

  lemma PunctuationFound(src: string, s: State, ch: nat, t: Step)
    requires s.at < |src| && Peek(src, s.at) == Char(ch)
    requires t == PunctuationFrom(src, s, ch)
    ensures Right(src, s, t)
  {
    if IsText(s, ch) {
      TextFound(src, s, ch, t);
    } else if Is(ch, ';') {
      SemicolonFound(src, s, t);
    } else if SymbolAt(src, s.at) {
      SymbolFound(src, s, t);
    } else if IsMark(ch) {
      MarkCase(src, s, ch, t);
    } else {
      NoneFound(src, s, ch, t);
    }
  }

  lemma WordFound(r: Rules, s: State)
    requires WordTable(r.keywords) && WordAt(r.source, s.at)
    ensures Leaves(r.source, s, Moved(s, WordFrom(r, s.at))) && WordFrom(r, s.at).end <= |r.source|
    ensures !CutAt(r.source, s.at, s.interpolations)
  {
    var kind := WordKind(r.keywords, r.source[s.at..WordFrom(r, s.at).end]);
    assert !PlainKind(kind) && kind != YEOF_TOKEN;
  }

  lemma NumberFound(r: Rules, s: State)
    requires DigitAt(r.source, s.at) && s.at < |r.source|
    ensures Right(r.source, s, Moved(s, NumberFrom(r, s.at)))
  {
    NumberOutline(r, s.at);
  }

  lemma ScanRight(r: Rules, s: State)
    requires WordTable(r.keywords) && s.at < |r.source|
    ensures Right(r.source, s, ScanFrom(r, s))
  {
    var src, p := r.source, s.at;
    if Peek(src, p).Char? {
      var ch := Peek(src, p).ch;
      if WordAt(src, p) {
        WordFound(r, s);
      } else if Is(ch, '_') {
        OneSpelled(src, p, '_', Mark(YUNDERSCORE, 0));
      } else if IsDigit(ch) {
        NumberFound(r, s);
      } else {
        PunctuationFound(src, s, ch, ScanFrom(r, s));
      }
    }
  }

  lemma FoundLexed(src: string, i: nat, s: State, t: Token, after: State)
    requires i <= s.at && Gap(src, i, s.at) && Found(src, s, t, after)
    ensures Lexed(src, i, s.interpolations, t, after.interpolations)
  {
    if t.start == s.at && Fresh(src, t) && after.interpolations == s.interpolations + Opens(src, t) {
      assert Gap(src, i, t.start);
    } else {
      assert Resumed(src, i, s.interpolations, t, after.interpolations);
    }
  }

  // What StepLexed says of scan_token.
  ghost predicate StepRight(r: Rules, s: State, t: Step)
    requires s.at <= |r.source|
  {
    && !t.scan.Throw? && (t.after.at > |r.source| <==> CutStart(r.source, StartIn(r.source, s), s.interpolations))
    && (t.scan.Ok? ==> Lexed(r.source, s.at, s.interpolations, t.scan.token, t.after.interpolations)
                       && t.after.at == t.scan.token.end)
    && (t.scan.Err? ==> s.at < |r.source| && s.at <= t.after.at)
  }

  lemma SignificantRight(r: Rules, s: State)
    requires WordTable(r.keywords) && s.at <= |r.source|
    requires StartIn(r.source, s).Significant? && StartIn(r.source, s).at < |r.source|
    ensures StepRight(r, s, ScanStep(r, s))
  {
    var src, from := r.source, s.(at := StartIn(r.source, s).at);
    StartOfGap(src, s.at, s.brackets > 0 && s.blocks == 0, s.last);
    ScanRight(r, from);
    var t := ScanFrom(r, from);
    assert ScanStep(r, s) == t;
    if t.scan.Ok? { FoundLexed(src, s.at, from, t.scan.token, t.after); }
  }

  lemma ScanStepRight(r: Rules, s: State)
    requires WordTable(r.keywords) && s.at <= |r.source|
    ensures StepRight(r, s, ScanStep(r, s))
  {
    var src, start := r.source, StartIn(r.source, s);
    if start.Significant? && start.at < |src| {
      SignificantRight(r, s);
    } else {
      StartOfGap(src, s.at, s.brackets > 0 && s.blocks == 0, s.last);
      var kind := if start.Newline? then YNEWLINE else YEOF_TOKEN;
      EmptyLexed(src, s.at, start.at, kind, s.interpolations);
      assert ScanStep(r, s) == Step(Ok(Token(kind, start.at, start.at)), s.(at := start.at));
    }
  }

  // The tokens without text: a newline run, the end.
  lemma EmptyLexed(src: string, i: nat, p: nat, kind: TokenType, interpolations: nat)
    requires i <= p <= |src| && Gap(src, i, p)
    requires (kind == YNEWLINE && i < p) || (kind == YEOF_TOKEN && p == |src|)
    ensures Lexed(src, i, interpolations, Token(kind, p, p), interpolations)
  {
  }

  /**
   A scan from s finds the token that lies past the blanks and comments there, reports
   an error further on, or, exactly when the token is cut, goes past the end.
  */
  lemma StepLexed(r: Rules, s: State)
    requires WordTable(r.keywords) && s.at <= |r.source|
    ensures StepRight(r, s, NextStep(r, s))
  {
    ScanStepRight(r, s);
  }

  // ---------------------------------------------------------------------
  // Runs of scans
  // ---------------------------------------------------------------------

  // The n-th scan of tokenize goes past the end of the source.
  ghost predicate CutStep(r: Rules, n: nat) {
    var s := StateAt(r, n);
    s.at <= |r.source| && CutStart(r.source, StartIn(r.source, s), s.interpolations)
  }

  predicate AtEnd(r: Rules, t: Scan) { t == Ok(Token(YEOF_TOKEN, |r.source|, |r.source|)) }

  // A scan moves on, unless it is the last.
  lemma StepAdvances(r: Rules, s: State)
    requires WordTable(r.keywords) && s.at <= |r.source|
    ensures var t := NextStep(r, s);
            if t.scan.Ok? && t.scan.token.kind == YEOF_TOKEN then AtEnd(r, t.scan) && t.after.at == |r.source|
            else s.at < Recovered(r, t).at
    ensures NextStep(r, s).after.at > |r.source| ==> NextStep(r, s).scan == Err
  {
    StepLexed(r, s);
  }

  // A scan at the end of the source finds the end, and stays there.
  lemma EndStep(r: Rules, s: State)
    requires s.at == |r.source|
    ensures AtEnd(r, NextStep(r, s).scan) && Recovered(r, NextStep(r, s)).at == |r.source|
    ensures !CutStart(r.source, StartIn(r.source, s), s.interpolations)
  {
  }

  lemma EndScan(r: Rules, m: nat)
    requires StateAt(r, m).at == |r.source|
    ensures AtEnd(r, ScanAt(r, m)) && ScanAt(r, m).Ok? && !CutStep(r, m)
  {
    EndStep(r, StateAt(r, m));
  }

  lemma {:induction false} IterateKeeps(next: State -> State, s: State, n: nat, m: nat, end: nat)
    requires n <= m && Iterate(next, s, n).at == end && forall t: State :: t.at == end ==> next(t).at == end
    ensures Iterate(next, s, m).at == end
    decreases m
  {
    if n < m { IterateKeeps(next, s, n, m - 1, end); }
  }

  lemma EndStays(r: Rules, n: nat, m: nat)
    requires n <= m && StateAt(r, n).at == |r.source|
    ensures StateAt(r, m).at == |r.source|
  {
    var next := Following(r);
    forall t: State | t.at == |r.source| ensures next(t).at == |r.source| { EndStep(r, t); }
    IterateKeeps(next, INITIAL, n, m, |r.source|);
  }

  // One scan as it happened.
  datatype Record = Record(before: State, step: Step, cut: bool)

  ghost function RecordAt(r: Rules, n: nat): Record {
    Record(StateAt(r, n), NextStep(r, StateAt(r, n)), CutStep(r, n))
  }

  ghost predicate Recorded(r: Rules, log: seq<Record>)
    decreases |log|
  {
    log == [] || (var n := |log| - 1; Recorded(r, log[..n]) && log[n] == RecordAt(r, n))
  }

  lemma {:induction false} RecordedAt(r: Rules, log: seq<Record>, m: nat)
    requires Recorded(r, log) && m < |log|
    ensures log[m] == RecordAt(r, m)
    decreases |log|
  {
    if m < |log| - 1 { RecordedAt(r, log[..|log| - 1], m); }
  }

  // What tokenize has done after the scans of the log, in state s.
  ghost predicate Running(src: string, log: seq<Record>, s: State, errors: nat, tokens: seq<Token>) {
    && (s.at > |src| <==> exists m: nat :: m < |log| && log[m].cut)
    && (s.at > |src| ==> errors > 0)
    && (forall m: nat :: m < |log| ==> !EndsRun(log[m].step.scan))
    && (errors == 0 ==> Collected(src, log, s, tokens))
    && (errors > 0 ==> exists m: nat :: m < |log| && log[m].step.scan.Err?)
  }

  predicate EndsRun(t: Scan) { t.Throw? || (t.Ok? && t.token.kind == YEOF_TOKEN) }

  // No error so far: the tokens are what the scans found, one after the other.
  ghost predicate Collected(src: string, log: seq<Record>, s: State, tokens: seq<Token>) {
    && |tokens| == |log| && (forall m: nat :: m < |log| ==> log[m].step.scan == Ok(tokens[m]))
    && EndOf(tokens) == s.at && Chain(src, tokens, s.interpolations)
  }

  // What a scan adds to the log, and the state it leaves.
  ghost predicate Adds(src: string, s: State, one: Record, next: State) {
    && one.before == s && s.at <= |src| && !one.step.scan.Throw?
    && (next.at > |src| <==> one.cut) && (one.cut ==> one.step.scan == Err)
    && (one.step.scan.Ok? ==>
          && next.at == one.step.scan.token.end
          && Lexed(src, s.at, s.interpolations, one.step.scan.token, next.interpolations))
  }

  lemma RecordAdds(r: Rules, n: nat)
    requires WordTable(r.keywords) && StateAt(r, n).at <= |r.source|
    ensures Adds(r.source, StateAt(r, n), RecordAt(r, n), StateAt(r, n + 1))
  {
    var s := StateAt(r, n);
    StepLexed(r, s);
    RecoveredAdds(r, s, NextStep(r, s), CutStep(r, n));
  }

  lemma RecoveredAdds(r: Rules, s: State, t: Step, cut: bool)
    requires s.at <= |r.source| && StepRight(r, s, t)
    requires cut <==> CutStart(r.source, StartIn(r.source, s), s.interpolations)
    ensures Adds(r.source, s, Record(s, t, cut), Recovered(r, t))
  {
  }

  lemma RunError(src: string, log: seq<Record>, s: State, errors: nat, tokens: seq<Token>, one: Record, next: State)
    requires Running(src, log, s, errors, tokens) && Adds(src, s, one, next) && one.step.scan.Err?
    ensures Running(src, log + [one], next, errors + 1, tokens)
  {
    var longer := log + [one];
    assert longer[|log|] == one;
    forall m: nat | m < |log| ensures longer[m] == log[m] { }
  }

  lemma RunToken(src: string, log: seq<Record>, s: State, errors: nat, tokens: seq<Token>, one: Record, next: State)
    requires Running(src, log, s, errors, tokens) && Adds(src, s, one, next)
    requires one.step.scan.Ok? && one.step.scan.token.kind != YEOF_TOKEN
    ensures Running(src, log + [one], next, errors, tokens + [one.step.scan.token])
  {
    var longer := log + [one];
    assert longer[|log|] == one;
    forall m: nat | m < |log| ensures longer[m] == log[m] { }
    if errors == 0 { CollectMore(src, log, s, tokens, one, next); }
  }

  lemma CollectMore(src: string, log: seq<Record>, s: State, tokens: seq<Token>, one: Record, next: State)
    requires Collected(src, log, s, tokens) && Adds(src, s, one, next) && one.step.scan.Ok?
    ensures Collected(src, log + [one], next, tokens + [one.step.scan.token])
  {
    ChainMore(src, tokens, s.interpolations, one.step.scan.token, next.interpolations);
  }

  // What tokenize returns when no scan fails: what the scans found, up to the end.
  ghost predicate Stream(r: Rules, tokens: seq<Token>) {
    && tokens != [] && tokens[|tokens| - 1] == Token(YEOF_TOKEN, |r.source|, |r.source|)
    && (forall n: nat :: n < |tokens| ==> ScanAt(r, n) == Ok(tokens[n]))
    && (forall n: nat :: n + 1 < |tokens| ==> !EndsRun(Ok(tokens[n])))
    && AllCovered(r.source, tokens)
    && exists interpolations: nat :: Chain(r.source, tokens, interpolations)
  }

  // The log is what the first scans did, and s is the state they lead to.
  ghost predicate InRun(r: Rules, log: seq<Record>, s: State, errors: nat, tokens: seq<Token>) {
    s == StateAt(r, |log|) && Recorded(r, log) && Running(r.source, log, s, errors, tokens)
  }

  // What tokenize knows when a scan throws, and when one finds the end.
  ghost predicate Threw(r: Rules, errors: nat) {
    errors > 0 && (exists m: nat :: CutStep(r, m)) && exists m: nat :: !ScanAt(r, m).Ok?
  }

  ghost predicate Finished(r: Rules, errors: nat, tokens: seq<Token>) {
    && (forall m: nat :: !CutStep(r, m))
    && (errors == 0 <==> forall m: nat :: ScanAt(r, m).Ok?)
    && (errors == 0 ==> Stream(r, tokens))
  }

  // A scan past the end follows a cut and its error.
  lemma RunThrows(r: Rules, log: seq<Record>, s: State, errors: nat, tokens: seq<Token>)
    requires WordTable(r.keywords) && InRun(r, log, s, errors, tokens) && NextStep(r, s).scan.Throw?
    ensures Threw(r, errors)
  {
    PastTheEnd(r, s);
    CutBefore(r, log, s, errors, tokens);
  }

  // Only a scan past the end throws.
  lemma PastTheEnd(r: Rules, s: State)
    requires WordTable(r.keywords)
    ensures NextStep(r, s).scan.Throw? <==> s.at > |r.source|
  {
    if s.at <= |r.source| { StepLexed(r, s); }
  }

  lemma CutBefore(r: Rules, log: seq<Record>, s: State, errors: nat, tokens: seq<Token>)
    requires InRun(r, log, s, errors, tokens) && s.at > |r.source|
    ensures Threw(r, errors)
  {
    var m: nat :| m < |log| && log[m].cut;
    RecordedAt(r, log, m);
    assert CutStep(r, m);
    var k: nat :| k < |log| && log[k].step.scan.Err?;
    RecordedAt(r, log, k);
    assert !ScanAt(r, k).Ok?;
  }

  // One more scan, neither past the end nor at it.
  lemma RunGoesOn(r: Rules, log: seq<Record>, s: State, errors: nat, tokens: seq<Token>, t: Step)
    requires WordTable(r.keywords) && InRun(r, log, s, errors, tokens) && t == NextStep(r, s) && !EndsRun(t.scan)
    ensures s.at <= |r.source| && s.at < Recovered(r, t).at
    ensures t.scan.Ok? ==> InRun(r, log + [RecordAt(r, |log|)], t.after, errors, tokens + [t.scan.token])
    ensures t.scan.Err? ==> InRun(r, log + [RecordAt(r, |log|)], Recovered(r, t), errors + 1, tokens)
  {
    PastTheEnd(r, s);
    StepAdvances(r, s);
    RecordedMore(r, log);
    RecordAdds(r, |log|);
    if t.scan.Ok? {
      RunToken(r.source, log, s, errors, tokens, RecordAt(r, |log|), t.after);
    } else {
      RunError(r.source, log, s, errors, tokens, RecordAt(r, |log|), Recovered(r, t));
    }
  }

  lemma RecordedMore(r: Rules, log: seq<Record>)
    requires Recorded(r, log)
    ensures Recorded(r, log + [RecordAt(r, |log|)])
  {
    assert (log + [RecordAt(r, |log|)])[..|log|] == log;
  }

  // The scan that finds the end is the last that matters.
  lemma RunEnds(r: Rules, log: seq<Record>, s: State, errors: nat, tokens: seq<Token>)
    requires WordTable(r.keywords) && InRun(r, log, s, errors, tokens)
    requires NextStep(r, s).scan.Ok? && NextStep(r, s).scan.token.kind == YEOF_TOKEN
    ensures Finished(r, errors, tokens + [NextStep(r, s).scan.token])
  {
    PastTheEnd(r, s);
    EndsAtEnd(r, s);
    RunEndsAt(r, log, errors, tokens);
  }

  lemma EndsAtEnd(r: Rules, s: State)
    requires WordTable(r.keywords) && s.at <= |r.source|
    requires NextStep(r, s).scan.Ok? && NextStep(r, s).scan.token.kind == YEOF_TOKEN
    ensures AtEnd(r, NextStep(r, s).scan)
  {
    StepLexed(r, s);
  }

  // Only the last scan of the log found the end.
  ghost predicate EndsLast(log: seq<Record>) { forall m: nat :: m + 1 < |log| ==> !EndsRun(log[m].step.scan) }

  lemma StreamBefore(r: Rules, log: seq<Record>, tokens: seq<Token>)
    requires WordTable(r.keywords) && InRun(r, log, StateAt(r, |log|), 0, tokens)
    requires StateAt(r, |log|).at <= |r.source| && AtEnd(r, ScanAt(r, |log|))
    ensures Stream(r, tokens + [ScanAt(r, |log|).token])
  {
    var one, next := RecordAt(r, |log|), StateAt(r, |log| + 1);
    RecordAdds(r, |log|);
    RecordedMore(r, log);
    CollectMore(r.source, log, StateAt(r, |log|), tokens, one, next);
    LogEnds(log, one);
    CollectedStreams(r, log + [one], next, tokens + [one.step.scan.token]);
  }

  lemma LogEnds(log: seq<Record>, one: Record)
    requires forall m: nat :: m < |log| ==> !EndsRun(log[m].step.scan)
    ensures EndsLast(log + [one]) && (log + [one])[|log|] == one
  {
  }

  lemma RunEndsAt(r: Rules, log: seq<Record>, errors: nat, tokens: seq<Token>)
    requires WordTable(r.keywords) && Recorded(r, log) && Running(r.source, log, StateAt(r, |log|), errors, tokens)
    requires StateAt(r, |log|).at <= |r.source| && AtEnd(r, ScanAt(r, |log|))
    ensures forall m: nat :: !CutStep(r, m)
    ensures errors == 0 <==> forall m: nat :: ScanAt(r, m).Ok?
    ensures errors == 0 ==> Stream(r, tokens + [ScanAt(r, |log|).token])
  {
    forall m: nat ensures !CutStep(r, m) { NoCutBefore(r, log, errors, tokens, m); }
    if errors == 0 {
      forall m: nat ensures ScanAt(r, m).Ok? { OkBefore(r, log, tokens, m); }
      StreamBefore(r, log, tokens);
    } else {
      var k: nat :| k < |log| && log[k].step.scan.Err?;
      RecordedAt(r, log, k);
      assert !ScanAt(r, k).Ok?;
    }
  }

  lemma NoCutBefore(r: Rules, log: seq<Record>, errors: nat, tokens: seq<Token>, m: nat)
    requires WordTable(r.keywords) && Recorded(r, log) && Running(r.source, log, StateAt(r, |log|), errors, tokens)
    requires StateAt(r, |log|).at <= |r.source| && AtEnd(r, ScanAt(r, |log|))
    ensures !CutStep(r, m)
  {
    if m < |log| {
      assert !log[m].cut;
      RecordedAt(r, log, m);
    } else {
      NoCutLater(r, |log|, m);
    }
  }

  lemma NoCutLater(r: Rules, n: nat, m: nat)
    requires WordTable(r.keywords) && n <= m && StateAt(r, n).at <= |r.source| && AtEnd(r, ScanAt(r, n))
    ensures !CutStep(r, m) && ScanAt(r, m).Ok?
  {
    LastScan(r, n);
    if n < m {
      EndStays(r, n + 1, m);
      EndScan(r, m);
    }
  }

  lemma LastScan(r: Rules, n: nat)
    requires WordTable(r.keywords) && StateAt(r, n).at <= |r.source| && AtEnd(r, ScanAt(r, n))
    ensures !CutStep(r, n) && StateAt(r, n + 1).at == |r.source|
  {
    RecordAdds(r, n);
  }

  lemma OkBefore(r: Rules, log: seq<Record>, tokens: seq<Token>, m: nat)
    requires WordTable(r.keywords) && Recorded(r, log) && Collected(r.source, log, StateAt(r, |log|), tokens)
    requires StateAt(r, |log|).at <= |r.source| && AtEnd(r, ScanAt(r, |log|))
    ensures ScanAt(r, m).Ok?
  {
    if m < |log| { RecordedAt(r, log, m); } else { NoCutLater(r, |log|, m); }
  }

  lemma ScanOf(r: Rules, log: seq<Record>, n: nat)
    requires Recorded(r, log) && n < |log|
    ensures ScanAt(r, n) == log[n].step.scan
  {
    RecordedAt(r, log, n);
  }

  lemma CollectedStreams(r: Rules, log: seq<Record>, s: State, tokens: seq<Token>)
    requires Recorded(r, log) && log != [] && Collected(r.source, log, s, tokens)
    requires AtEnd(r, log[|log| - 1].step.scan) && EndsLast(log)
    ensures Stream(r, tokens)
  {
    ChainCovers(r.source, tokens, s.interpolations);
    forall n: nat | n < |tokens| ensures ScanAt(r, n) == Ok(tokens[n]) { ScanOf(r, log, n); }
  }

  // ---------------------------------------------------------------------
  // Two sources
  // ---------------------------------------------------------------------

  // A quote that ends the source, past what can be skipped, is cut.
  lemma LastQuoteIsCut(r: Rules)
    requires r.source != "" && r.source[|r.source| - 1] == '\''
    requires StartOf(r.source, 0, false, YEOF_TOKEN) == Significant(|r.source| - 1)
    ensures CutStep(r, 0)
  {
    assert StateAt(r, 0) == INITIAL;
    QuoteAtEnd(r.source);
  }

  lemma QuoteAtEnd(src: string)
    requires src != "" && src[|src| - 1] == '\''
    ensures CutAt(src, |src| - 1, 0)
  {
  }

  lemma LoneQuote()
    ensures StartOf("'", 0, false, YEOF_TOKEN) == Significant(0)
  {
    var src := "'";
    assert src[0] == '\'';
    assert ItemEnd(src, 0) == 0;
  }

  // A block comment that is never closed is no error: the source has no token but its end.
  lemma UnclosedComment(r: Rules, n: nat)
    requires StartsComment(r.source, 0) && BlockEnd(r.source, 2, 1) == |r.source|
    ensures AtEnd(r, ScanAt(r, n))
  {
    assert StateAt(r, 0) == INITIAL;
    CommentOnly(r.source);
    if n > 0 {
      FirstAtEnd(r);
      EndStays(r, 1, n);
      EndScan(r, n);
    }
  }

  lemma StreamOfEnd(r: Rules, tokens: seq<Token>)
    requires Stream(r, tokens) && AtEnd(r, ScanAt(r, 0))
    ensures tokens == [Token(YEOF_TOKEN, |r.source|, |r.source|)]
  {
    assert ScanAt(r, 0) == Ok(tokens[0]);
    assert EndsRun(Ok(tokens[0]));
  }

  lemma CommentOnly(src: string)
    requires StartsComment(src, 0) && BlockEnd(src, 2, 1) == |src|
    ensures StartOf(src, 0, false, YEOF_TOKEN) == Significant(|src|)
  {
    assert ItemEnd(src, 0) == |src|;
    assert SkipBlanks(src, |src|, false) == |src|;
  }

  lemma FirstAtEnd(r: Rules)
    requires StartOf(r.source, 0, false, YEOF_TOKEN) == Significant(|r.source|)
    ensures StateAt(r, 1).at == |r.source|
  {
    assert StateAt(r, 1) == Recovered(r, NextStep(r, INITIAL));
  }
}
