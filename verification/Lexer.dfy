/**
 The methods of the lexer (src/Lexer.cpp), over the positions and counters they move.
*/
module Lexer {
  import opened Utf8
  import opened LexerSyntax
  import opened LexerSpec
  import opened LexerScan
  import opened LexerRuns

  lemma PeekContinues(src: string, i: nat, len: nat, lead: nat)
    requires 2 <= len <= 4 && i + len <= |src| && LeadLength(Code(src[i])) == len
    requires lead == Code(src[i]) - (if len == 2 then 0xC0 else if len == 3 then 0xE0 else 0xF0)
    ensures Peek(src, i) == Continue(src, i + 1, len - 1, lead)
  {
  }

  class Lexer {
    const source: string
    const keywords: map<string, TokenType>
    const converts: Conversion

    var current: nat
    var tokenStart: nat
    var bracketDepth: nat
    var blockDepth: nat
    var interpolations: nat
    var lastEmitted: TokenType

    ghost function Rule(): Rules { Rules(source, keywords, converts) }

    ghost function Now(): State
      reads this
    {
      State(current, bracketDepth, blockDepth, interpolations, lastEmitted)
    }

    constructor (source: string, keywords: map<string, TokenType>, converts: Conversion)
      ensures this.source == source && Rule() == Rules(source, keywords, converts) && Now() == INITIAL
    {
      this.source, this.keywords, this.converts := source, keywords, converts;
      current, tokenStart, bracketDepth, blockDepth, interpolations := 0, 0, 0, 0, 0;
      lastEmitted := YEOF_TOKEN;
    }

    method PeekChar() returns (r: Peeked)
      ensures r == Peek(source, current)
    {
      if current >= |source| { return Char(0); }
      var b := Code(source[current]);
      if b < 0x80 { return Char(b); }
      var len, result;
      if 0xC0 <= b < 0xE0 { len, result := 2, b - 0xC0; }
      else if 0xE0 <= b < 0xF0 { len, result := 3, b - 0xE0; }
      else if 0xF0 <= b < 0xF8 { len, result := 4, b - 0xF0; }
      else { return Bad; }
      if current + len > |source| { return Bad; }
      PeekContinues(source, current, len, result);
      for i := 1 to len
        invariant Continue(source, current + i, len - i, result) == Peek(source, current)
      {
        var byte := Code(source[current + i]);
        if byte < 0x80 || byte >= 0xC0 { return Bad; }
        result := result * 64 + (byte - 0x80);
      }
      return Char(result);
    }

    method AdvanceChar() returns (r: Peeked)
      modifies `current
      ensures r == Peek(source, old(current))
      ensures current == old(current) + if r.Bad? then 0 else Size(r.ch)
    {
      r := PeekChar();
      if r.Char? { current := current + Size(r.ch); }
    }

    method SkipChar()
      modifies `current
      ensures current == Skipped(source, old(current))
    {
      var r := AdvanceChar();
      if r.Bad? && current < |source| { current := current + 1; }
    }

    // The rest of a line comment.
    method SkipLine()
      requires current <= |source|
      modifies `current
      ensures current == LineEnd(source, old(current))
    {
      while current < |source|
        invariant current <= |source| && LineEnd(source, current) == LineEnd(source, old(current))
        decreases |source| - current
      {
        var next := PeekChar();
        if next.Bad? || Is(next.ch, '\n') { break; }
        SkipChar();
      }
    }

    // The rest of a block comment.
    method SkipBlock()
      requires current <= |source|
      modifies `current
      ensures current == BlockEnd(source, old(current), 1)
    {
      var depth := 1;
      while current < |source| && depth > 0
        invariant current <= |source| && BlockEnd(source, current, depth) == BlockEnd(source, old(current), 1)
        decreases |source| - current
      {
        var next := PeekChar();
        if next.Bad? { break; }
        depth := SkipInBlock(next.ch, depth);
      }
    }

    // A mark that opens or closes a comment, or a character of its text.
    method SkipInBlock(ch: nat, depth: nat) returns (after: nat)
      requires current < |source| && Peek(source, current) == Char(ch) && depth > 0
      modifies `current
      ensures old(current) < current <= |source|
      ensures BlockEnd(source, current, after) == BlockEnd(source, old(current), depth)
    {
      if Is(ch, '/') && current + 1 < |source| && source[current + 1] == '*' {
        SkipChar();
        SkipChar();
        return depth + 1;
      }
      if Is(ch, '*') && current + 1 < |source| && source[current + 1] == '/' {
        SkipChar();
        SkipChar();
        return depth - 1;
      }
      SkipChar();
      return depth;
    }

    method SkipBlockComment()
      requires StartsComment(source, current)
      modifies `current
      ensures current == BlockEnd(source, old(current) + 2, 1)
    {
      SkipChar();
      SkipChar();
      SkipBlock();
    }

    method SkipWhitespaceAndComments()
      modifies `current
      ensures old(current) > |source| ==> current == old(current)
      ensures old(current) <= |source| ==>
                current == SkipBlanks(source, old(current), bracketDepth > 0 && blockDepth == 0)
    {
      if current > |source| { return; }
      ghost var within := bracketDepth > 0 && blockDepth == 0;
      while current < |source|
        invariant current <= |source|
        invariant SkipBlanks(source, current, within) == SkipBlanks(source, old(current), within)
        decreases |source| - current
      {
        var more := SkipItem();
        if !more { break; }
      }
    }

    // One blank or comment, unless it is a newline that counts.
    method SkipItem() returns (more: bool)
      requires current < |source|
      modifies `current
      ensures more <==> ItemEnd(source, old(current)) != old(current)
                        && !(At(source, old(current), '\n') && !(bracketDepth > 0 && blockDepth == 0))
      ensures current == if more then ItemEnd(source, old(current)) else old(current)
    {
      var r := PeekChar();
      if r.Bad? { return false; }
      var ch := r.ch;
      if IsWhitespace(ch) {
        SkipChar();
      } else if Is(ch, '\n') {
        if bracketDepth > 0 && blockDepth == 0 { SkipChar(); } else { return false; }
      } else if Is(ch, '#') {
        SkipChar();
        SkipLine();
      } else if Is(ch, '/') && current + 1 < |source| && source[current + 1] == '*' {
        SkipBlockComment();
      } else {
        return false;
      }
      return true;
    }

    // Consecutive newlines with the blanks and line comments among them.
    method SkipNewlines()
      requires current <= |source|
      modifies `current
      ensures current == NewlineRun(source, old(current))
    {
      while current < |source|
        invariant current <= |source| && NewlineRun(source, current) == NewlineRun(source, old(current))
        decreases |source| - current
      {
        var c := PeekChar();
        if c.Bad? { break; }
        if Is(c.ch, '\n') || Is(c.ch, ' ') || Is(c.ch, '\t') || Is(c.ch, '\r') {
          SkipChar();
        } else if Is(c.ch, '#') {
          SkipChar();
          SkipLine();
        } else {
          break;
        }
      }
    }

    method MakeToken(kind: TokenType) returns (r: Scan)
      ensures r == if tokenStart > |source| then Throw else Ok(Token(kind, tokenStart, current))
    {
      return if tokenStart > |source| then Throw else Ok(Token(kind, tokenStart, current));
    }

    method ScanIdentifier() returns (r: Scan)
      requires tokenStart <= current <= |source|
      modifies `current
      ensures current == WordEnd(source, old(current))
      ensures r == if current < |source| && Peek(source, current).Bad? then Err
                   else Ok(Token(WordKind(keywords, source[tokenStart..current]), tokenStart, current))
    {
      while current < |source|
        invariant current <= |source| && WordEnd(source, current) == WordEnd(source, old(current))
        decreases |source| - current
      {
        var c := PeekChar();
        if c.Bad? { return Err; }
        if !IsIdentifierContinue(c.ch) { break; }
        SkipChar();
      }
      r := MakeToken(WordKind(keywords, source[tokenStart..current]));
    }

    method ScanNumber() returns (r: Scan)
      requires current == tokenStart + 1 <= |source| && DigitAt(source, tokenStart)
      modifies `current
      ensures Ended(r, current) == NumberFrom(Rule(), tokenStart)
    {
      var hasDot, hasExp, more := false, false, true;
      while current < |source| && more
        invariant tokenStart < current <= |source|
        invariant (if more then DigitsFrom(source, current, hasDot, hasExp) else Digits(current, hasDot, hasExp))
                  == DigitsFrom(source, old(current), false, false)
        invariant !more ==> current < |source| && Peek(source, current).Char?
        decreases |source| - current, more
      {
        var c := PeekChar();
        if c.Bad? { return Err; }
        hasDot, hasExp, more := ScanDigit(c.ch, hasDot, hasExp);
      }
      r := FinishNumber(hasDot, hasExp);
    }

    // One character of a number, unless it ends there.
    method ScanDigit(ch: nat, hasDot: bool, hasExp: bool) returns (dot: bool, exp: bool, more: bool)
      requires current < |source| && Peek(source, current) == Char(ch)
      modifies `current
      ensures more ==> old(current) < current <= |source|
      ensures !more ==> current == old(current)
      ensures (if more then DigitsFrom(source, current, dot, exp) else Digits(current, dot, exp))
              == DigitsFrom(source, old(current), hasDot, hasExp)
    {
      dot, exp, more := hasDot, hasExp, true;
      if IsDigit(ch) {
        SkipChar();
      } else if Is(ch, '.') && !hasDot && !hasExp {
        if current + 1 < |source| && source[current + 1] == '.' {
          more := false;
        } else {
          dot := true;
          SkipChar();
        }
      } else if (Is(ch, 'e') || Is(ch, 'E')) && !hasExp {
        exp := true;
        SkipExponent();
      } else if Is(ch, '_') {
        SkipChar();
      } else {
        more := false;
      }
    }

    // The letter of an exponent and its sign.
    method SkipExponent()
      requires current < |source| && Peek(source, current).Char? && Size(Peek(source, current).ch) == 1
      modifies `current
      ensures old(current) + 1 <= |source| && current == AfterSign(source, old(current) + 1)
    {
      SkipChar();
      var next := PeekChar();
      if next.Char? && (Is(next.ch, '+') || Is(next.ch, '-')) { SkipChar(); }
    }

    // A byte suffix ends a number; then its text is converted.
    method FinishNumber(hasDot: bool, hasExp: bool) returns (r: Scan)
      requires tokenStart < current <= |source|
      modifies `current
      ensures var d := Digits(old(current), hasDot, hasExp);
              && current == NumberEnd(source, d) <= |source|
              && r == if converts(NumberKind(source, d), source[tokenStart..current])
                      then Ok(Token(NumberKind(source, d), tokenStart, current)) else Err
    {
      var hasSuffix := false;
      if current < |source| && !hasDot && !hasExp {
        var c := PeekChar();
        hasSuffix := c.Char? && (Is(c.ch, 'b') || Is(c.ch, 'B'));
      }
      if hasSuffix { SkipChar(); }
      var kind := if hasSuffix then YBYTE else if hasDot || hasExp then YFLOAT else YINTEGER;
      if !converts(kind, source[tokenStart..current]) { return Err; }
      r := MakeToken(kind);
    }

    // Where an escape leaves the lexer.
    ghost function Stop(e: Escaped): nat {
      match e
      case Done(k) => k
      case Wrong(k) => k
      case Cut => |source| + 1
    }

    method ParseEscapeSequence() returns (ok: bool)
      requires current <= |source|
      modifies `current
      ensures ok <==> EscapeEnd(source, old(current)).Done?
      ensures current == Stop(EscapeEnd(source, old(current)))
    {
      var c := AdvanceChar();
      if c.Bad? { return false; }
      var ch := c.ch;
      if Is(ch, 'n') || Is(ch, 'r') || Is(ch, 't') || Is(ch, '\\') || Is(ch, '"') || Is(ch, '\'') || Is(ch, '0') {
        return true;
      }
      if Is(ch, 'u') { ok := ParseUnicodeEscape(4); }
      else if Is(ch, 'U') { ok := ParseUnicodeEscape(8); }
      else { return false; }
    }

    method ParseUnicodeEscape(digits: nat) returns (ok: bool)
      requires current <= |source|
      modifies `current
      ensures ok <==> HexEnd(source, old(current), digits).Done?
      ensures current == Stop(HexEnd(source, old(current), digits))
    {
      for i := 0 to digits
        invariant old(current) <= current <= |source|
        invariant HexEnd(source, current, digits - i) == HexEnd(source, old(current), digits)
      {
        var c := AdvanceChar();
        if c.Bad? || !IsHexDigit(c.ch) { return false; }
      }
      return true;
    }

    // What a string segment found and changed, as a step.
    ghost function Segment(r: Scan): (Scan, nat, nat)
      reads this
    {
      (r, current, interpolations)
    }

    ghost function SegmentOf(t: Step): (Scan, nat, nat) { (t.scan, t.after.at, t.after.interpolations) }

    method ScanStringBody() returns (r: Scan)
      requires tokenStart <= current <= |source|
      modifies `current, `interpolations
      ensures Segment(r) == SegmentOf(SegmentFrom(source, tokenStart, old(Now())))
    {
      while current < |source|
        invariant old(current) <= current <= |source| && interpolations == old(interpolations)
        invariant BodyFrom(source, current) == BodyFrom(source, old(current))
        decreases |source| - current
      {
        var c := PeekChar();
        if c.Bad? { return Err; }
        var ch := c.ch;
        if Is(ch, '"') {
          SkipChar();
          r := MakeToken(if interpolations > 0 then YSTRING_PART else YSTRING);
          return;
        } else if Is(ch, '{') {
          SkipChar();
          interpolations := interpolations + 1;
          r := MakeToken(YSTRING_PART);
          return;
        }
        var ok := SkipInString(ch);
        if !ok { return Err; }
      }
      return Err;
    }

    // A character of a string's text, or an escape.
    method SkipInString(ch: nat) returns (ok: bool)
      requires current < |source| && Peek(source, current) == Char(ch) && !Is(ch, '"') && !Is(ch, '{')
      modifies `current
      ensures ok ==> old(current) < current <= |source| && BodyFrom(source, current) == BodyFrom(source, old(current))
      ensures !ok ==> BodyFrom(source, old(current)) == Broken(current)
    {
      if Is(ch, '\\') {
        SkipChar();
        ok := ParseEscapeSequence();
      } else if Is(ch, '\n') {
        return false;
      } else {
        SkipChar();
        return true;
      }
    }

    method ScanString() returns (r: Scan)
      requires tokenStart == current < |source| && At(source, current, '"')
      modifies `current, `interpolations
      ensures Segment(r) == SegmentOf(SegmentFrom(source, tokenStart, old(Now()).(at := old(current) + 1)))
    {
      SkipChar();
      r := ScanStringBody();
    }

    method ScanCharacter() returns (r: Scan)
      requires tokenStart == current < |source| && At(source, current, '\'')
      modifies `current
      ensures Ended(r, current) == CharacterFrom(source, old(current))
    {
      SkipChar();
      var c := PeekChar();
      if c.Bad? { return Err; }
      if Is(c.ch, '\\') {
        SkipChar();
        var ok := ParseEscapeSequence();
        if !ok { return Err; }
      } else if Is(c.ch, '\'') {
        return Err;
      } else {
        SkipChar();
      }
      r := CloseCharacter();
    }

    method CloseCharacter() returns (r: Scan)
      requires tokenStart <= |source|
      modifies `current
      ensures Ended(r, current) == QuoteFrom(source, tokenStart, old(current))
    {
      var close := AdvanceChar();
      if close.Bad? || !Is(close.ch, '\'') { return Err; }
      r := MakeToken(YCHARACTER);
    }

    method ScanSymbol() returns (r: Scan)
      requires tokenStart == current < |source| && SymbolAt(source, current)
      modifies `current
      ensures Ended(r, current) == SymbolFrom(source, old(current))
    {
      SkipChar();
      var c := PeekChar();
      if c.Bad? { return Err; }
      var word := IsIdentifierStart(c.ch);
      while current < |source|
        invariant current <= |source| && SymbolEnd(source, current, word) == SymbolEnd(source, old(current) + 1, word)
        decreases |source| - current
      {
        var next := PeekChar();
        if next.Bad? || !(if word then IsIdentifierContinue(next.ch) else IsOperatorChar(next.ch)) { break; }
        SkipChar();
      }
      r := MakeToken(YSYMBOL);
    }

    method Match(expected: char) returns (found: bool)
      requires Code(expected) < 0x80 && expected as int != 0
      modifies `current
      ensures found <==> At(source, old(current), expected)
      ensures current == old(current) + if found then 1 else 0
    {
      if current >= |source| { return false; }
      var c := PeekChar();
      if c.Bad? || !Is(c.ch, expected) { return false; }
      SkipChar();
      return true;
    }

    // The mark that a scan has found, moving on from i.
    ghost function Moves(kind: TokenType, i: nat): Mark
      requires i <= current
      reads this
    {
      Mark(kind, current - i)
    }

    // The longest operator that starts with the character just read.
    method AfterMinus() returns (kind: TokenType)
      modifies `current
      ensures old(current) <= current && Moves(kind, old(current)) == MinusFrom(source, old(current))
    {
      var m := Match('>');
      if m { return YARROW; }
      m := Match('-');
      if m { return YREMOVE; }
      m := Match('|');
      return if m then YPREPEND else YMINUS;
    }

    method AfterEquals() returns (kind: TokenType)
      modifies `current
      ensures old(current) <= current && Moves(kind, old(current)) == EqualsFrom(source, old(current))
    {
      var m := Match('=');
      if m { return YEQ; }
      m := Match('>');
      return if m then YFAT_ARROW else YASSIGN;
    }

    method AfterLess() returns (kind: TokenType)
      modifies `current
      ensures old(current) <= current && Moves(kind, old(current)) == LessFrom(source, old(current))
    {
      var m := Match('=');
      if m { return YLTE; }
      m := Match('<');
      if m { return YLEFT_SHIFT; }
      m := Match('|');
      return if m then YPIPE_LEFT else YLT;
    }

    method AfterGreater() returns (kind: TokenType)
      modifies `current
      ensures old(current) <= current && Moves(kind, old(current)) == GreaterFrom(source, old(current))
    {
      var m := Match('=');
      if m { return YGTE; }
      m := Match('>');
      if !m { return YGT; }
      m := Match('>');
      return if m then YZERO_FILL_RIGHT_SHIFT else YRIGHT_SHIFT;
    }

    method AfterPipe() returns (kind: TokenType)
      modifies `current
      ensures old(current) <= current && Moves(kind, old(current)) == PipeFrom(source, old(current))
    {
      var m := Match('|');
      if m { return YOR; }
      m := Match('>');
      if m { return YPIPE_RIGHT; }
      m := Match('-');
      return if m then YAPPEND else YPIPE;
    }

    method AfterColon() returns (kind: TokenType)
      modifies `current
      ensures old(current) <= current && Moves(kind, old(current)) == ColonFrom(source, old(current))
    {
      var m := Match(':');
      if m { return YCONS; }
      m := Match('>');
      return if m then YCONS_RIGHT else YCOLON;
    }

    method AfterPlus() returns (kind: TokenType)
      modifies `current
      ensures old(current) <= current && Moves(kind, old(current)) == OneOrTwo(source, old(current), YPLUS, '+', YJOIN)
    {
      var m := Match('+');
      return if m then YJOIN else YPLUS;
    }

    method AfterStar() returns (kind: TokenType)
      modifies `current
      ensures old(current) <= current && Moves(kind, old(current)) == OneOrTwo(source, old(current), YSTAR, '*', YPOWER)
    {
      var m := Match('*');
      return if m then YPOWER else YSTAR;
    }

    method AfterBang() returns (kind: TokenType)
      modifies `current
      ensures old(current) <= current && Moves(kind, old(current)) == OneOrTwo(source, old(current), YNOT, '=', YNEQ)
    {
      var m := Match('=');
      return if m then YNEQ else YNOT;
    }

    method AfterAmpersand() returns (kind: TokenType)
      modifies `current
      ensures old(current) <= current
              && Moves(kind, old(current)) == OneOrTwo(source, old(current), YBIT_AND, '&', YAND)
    {
      var m := Match('&');
      return if m then YAND else YBIT_AND;
    }

    method AfterDot() returns (kind: TokenType)
      modifies `current
      ensures old(current) <= current && Moves(kind, old(current)) == OneOrTwo(source, old(current), YDOT, '.', YDOTDOT)
    {
      var m := Match('.');
      return if m then YDOTDOT else YDOT;
    }

    // scan_operator.
    method OperatorKind(first: nat) returns (kind: TokenType)
      requires IsOperatorChar(first)
      modifies `current
      ensures old(current) <= current && Moves(kind, old(current)) == OperatorFrom(source, old(current), first)
    {
      if Is(first, '+') { kind := AfterPlus(); }
      else if Is(first, '-') { kind := AfterMinus(); }
      else if Is(first, '*') { kind := AfterStar(); }
      else if Is(first, '/') { return YSLASH; }
      else if Is(first, '%') { return YPERCENT; }
      else if Is(first, '=') { kind := AfterEquals(); }
      else if Is(first, '!') { kind := AfterBang(); }
      else if Is(first, '<') { kind := AfterLess(); }
      else if Is(first, '>') { kind := AfterGreater(); }
      else if Is(first, '&') { kind := AfterAmpersand(); }
      else if Is(first, '|') { kind := AfterPipe(); }
      else if Is(first, '^') { return YBIT_XOR; }
      else if Is(first, '~') { return YBIT_NOT; }
      else { return YAT; }
    }

    // emit: brackets are counted as their tokens leave.
    method Emit(kind: TokenType) returns (r: Scan)
      requires tokenStart <= |source|
      modifies `bracketDepth
      ensures r == Ok(Token(kind, tokenStart, current)) && bracketDepth == Brackets(old(bracketDepth), kind)
    {
      if kind.YLPAREN? || kind.YLBRACKET? || kind.YLBRACE? {
        bracketDepth := bracketDepth + 1;
      } else if (kind.YRPAREN? || kind.YRBRACKET? || kind.YRBRACE?) && bracketDepth > 0 {
        bracketDepth := bracketDepth - 1;
      }
      r := MakeToken(kind);
    }

    // The kind of a mark that starts with the character just read.
    method MarkKind(ch: nat) returns (kind: TokenType)
      requires IsMark(ch)
      modifies `current
      ensures old(current) <= current && Moves(kind, old(current)) == MarkFrom(source, old(current), ch)
    {
      if IsBracket(ch) { return BracketKind(ch); }
      else if Is(ch, '.') { kind := AfterDot(); }
      else if Is(ch, '\\') { return YBACKSLASH; }
      else if Is(ch, ':') { kind := AfterColon(); }
      else { kind := OperatorKind(ch); }
    }

    // Brackets are counted; no other mark changes how many are open.
    method ScanMark(ch: nat) returns (r: Scan)
      requires tokenStart < |source| && current == tokenStart + 1 && IsMark(ch)
      modifies `current, `bracketDepth
      ensures Step(r, Now()) == TokenStep(old(Now()).(at := tokenStart), MarkFrom(source, old(current), ch))
    {
      var kind := MarkKind(ch);
      r := Emit(kind);
    }

    // A closing brace ends an interpolation, if one is open, and resumes its string.
    method ResumeString() returns (r: Scan)
      requires interpolations > 0 && current <= |source|
      modifies `current, `tokenStart, `interpolations
      ensures Segment(r)
              == SegmentOf(SegmentFrom(source, old(current), old(Now()).(interpolations := old(interpolations) - 1)))
    {
      interpolations := interpolations - 1;
      tokenStart := current;
      r := ScanStringBody();
    }

    method IsSymbol() returns (yes: bool)
      requires tokenStart < |source| && current == tokenStart + 1
      ensures yes <==> At(source, tokenStart, ':') && SymbolAt(source, tokenStart)
    {
      if source[tokenStart] != ':' || current >= |source| { return false; }
      var next := PeekChar();
      return next.Char? && !Is(next.ch, ':') && !Is(next.ch, '>')
             && (IsIdentifierStart(next.ch) || IsOperatorChar(next.ch));
    }

    // Brackets, separators, quotes and operators.
    method ScanPunctuation(ch: nat) returns (r: Scan)
      requires tokenStart < |source| && current == tokenStart + Size(ch) && Peek(source, tokenStart) == Char(ch)
      modifies `current, `tokenStart, `bracketDepth, `interpolations
      ensures Step(r, Now()) == PunctuationFrom(source, old(Now()).(at := old(tokenStart)), ch)
    {
      if Is(ch, '"') {
        current := tokenStart;
        r := ScanString();
      } else if Is(ch, '}') && interpolations > 0 {
        r := ResumeString();
      } else if Is(ch, '\'') {
        current := tokenStart;
        r := ScanCharacter();
      } else if Is(ch, ';') {
        r := MakeToken(YNEWLINE);
      } else {
        r := ScanSymbolOrMark(ch);
      }
    }

    method ScanSymbolOrMark(ch: nat) returns (r: Scan)
      requires tokenStart < |source| && current == tokenStart + Size(ch) && Peek(source, tokenStart) == Char(ch)
      requires !Is(ch, '"') && !(Is(ch, '}') && interpolations > 0) && !Is(ch, '\'') && !Is(ch, ';')
      modifies `current, `bracketDepth
      ensures Step(r, Now()) == PunctuationFrom(source, old(Now()).(at := tokenStart), ch)
    {
      if !IsMark(ch) { return Err; }
      var symbol := IsSymbol();
      if symbol {
        current := tokenStart;
        r := ScanSymbol();
      } else {
        r := ScanMark(ch);
      }
    }

    // A word, or an underscore on its own.
    method ScanName(ch: nat) returns (r: Scan)
      requires tokenStart < |source| && current == tokenStart + Size(ch) <= |source|
      requires Peek(source, tokenStart) == Char(ch) && IsIdentifierStart(ch)
      modifies `current
      ensures Ended(r, current) == if WordAt(source, tokenStart) then WordFrom(Rule(), tokenStart)
                                   else Ended(Ok(Token(YUNDERSCORE, tokenStart, tokenStart + 1)), tokenStart + 1)
    {
      if Is(ch, '_') {
        var next := PeekChar();
        if current >= |source| || next.Bad? || !IsIdentifierContinue(next.ch) {
          r := MakeToken(YUNDERSCORE);
          return;
        }
      }
      r := ScanIdentifier();
    }

    // The rest of scan_token once blanks, comments and newlines are passed.
    method ScanSignificant() returns (r: Scan)
      requires tokenStart == current < |source|
      modifies `current, `tokenStart, `bracketDepth, `interpolations
      ensures Step(r, Now()) == ScanFrom(Rule(), old(Now()))
    {
      var c := AdvanceChar();
      if c.Bad? { return Err; }
      var ch := c.ch;
      if IsIdentifierStart(ch) {
        r := ScanName(ch);
      } else if IsDigit(ch) {
        current := tokenStart + 1;
        r := ScanNumber();
      } else {
        r := ScanPunctuation(ch);
      }
    }

    // The part of scan_token that moves to where the token starts.
    method FindStart() returns (newline: bool)
      modifies `current
      ensures old(current) > |source| ==> !newline && current == old(current)
      ensures old(current) <= |source| ==>
                StartIn(source, old(Now())) == if newline then Newline(current) else Significant(current)
    {
      SkipWhitespaceAndComments();
      if current < |source| {
        var c := PeekChar();
        if c.Char? && Is(c.ch, '\n') {
          SkipNewlines();
          if !SuppressesFollowingNewline(lastEmitted) && !(current < |source| && NextIsContinuation(source, current)) {
            return true;
          }
          SkipWhitespaceAndComments();
        }
      }
      return false;
    }

    method ScanToken() returns (r: Scan)
      modifies `current, `tokenStart, `bracketDepth, `interpolations
      ensures Step(r, Now()) == ScanStep(Rule(), old(Now()))
    {
      var newline := FindStart();
      tokenStart := current;
      if newline {
        r := MakeToken(YNEWLINE);
      } else if current >= |source| {
        r := MakeToken(YEOF_TOKEN);
      } else {
        r := ScanSignificant();
      }
    }

    // next_token: scan_token, and the state that depends on the token found.
    method NextToken() returns (r: Scan)
      modifies `current, `tokenStart, `bracketDepth, `interpolations, `blockDepth, `lastEmitted
      ensures Step(r, Now()) == NextStep(Rule(), old(Now()))
    {
      r := ScanToken();
      if r.Ok? {
        lastEmitted := r.token.kind;
        match r.token.kind
        case YCASE | YDO | YWITH | YHANDLE => blockDepth := blockDepth + 1;
        case YEND => if blockDepth > 0 { blockDepth := blockDepth - 1; }
        case _ =>
      }
    }

    // The next token, found without moving: all that a later scan depends on is restored.
    method PeekToken() returns (r: Scan)
      modifies `current, `tokenStart, `bracketDepth, `interpolations
      ensures Now() == old(Now()) && r == NextStep(Rule(), Now()).scan
    {
      var savedCurrent, savedDepth, savedInterpolations := current, bracketDepth, interpolations;
      r := ScanToken();
      current, bracketDepth, interpolations := savedCurrent, savedDepth, savedInterpolations;
    }

    // What tokenize does after an error.
    method Recover()
      modifies `current
      ensures Now() == Recovered(Rule(), Step(Err, old(Now())))
    {
      if current < |source| { SkipChar(); }
    }
  }

  // tokenize: the tokens, the number of errors, or the exception of a scan past the end.
  datatype Outcome = Tokens(tokens: seq<Token>) | Errors(count: nat) | Thrown(count: nat)

  // One scan of tokenize, and the recovery after an error.
  method ScanOnce(lexer: Lexer, ghost rules: Rules, ghost log: seq<Record>, ghost errors: nat, ghost tokens: seq<Token>)
    returns (scan: Scan)
    requires WordTable(rules.keywords) && lexer.Rule() == rules && InRun(rules, log, lexer.Now(), errors, tokens)
    modifies lexer
    ensures scan.Throw? ==> Threw(rules, errors)
    ensures EndsRun(scan) && scan.Ok? ==> Finished(rules, errors, tokens + [scan.token])
    ensures !EndsRun(scan) ==>
              && old(lexer.current) < lexer.current && old(lexer.current) <= |rules.source|
              && (scan.Ok? ==> InRun(rules, log + [RecordAt(rules, |log|)], lexer.Now(), errors, tokens + [scan.token]))
              && (scan.Err? ==> InRun(rules, log + [RecordAt(rules, |log|)], lexer.Now(), errors + 1, tokens))
  {
    ghost var s := lexer.Now();
    scan := lexer.NextToken();
    if scan.Throw? {
      RunThrows(rules, log, s, errors, tokens);
    } else if scan.Ok? && scan.token.kind == YEOF_TOKEN {
      RunEnds(rules, log, s, errors, tokens);
    } else {
      RunGoesOn(rules, log, s, errors, tokens, Step(scan, lexer.Now()));
      if scan.Err? { lexer.Recover(); }
    }
  }

  // The loop of tokenize: scans up to the end of the source, or up to an exception.
  method ScanAll(lexer: Lexer, ghost rules: Rules) returns (tokens: seq<Token>, errors: nat, thrown: bool)
    requires WordTable(rules.keywords) && lexer.Rule() == rules && lexer.Now() == INITIAL
    modifies lexer
    ensures if thrown then Threw(rules, errors) else Finished(rules, errors, tokens)
  {
    tokens, errors := [], 0;
    ghost var log := [];
    while true
      invariant InRun(rules, log, lexer.Now(), errors, tokens)
      decreases |rules.source| - lexer.current
    {
      var scan := ScanOnce(lexer, rules, log, errors, tokens);
      if scan.Throw? { return tokens, errors, true; }
      if scan.Ok? {
        tokens := tokens + [scan.token];
        if scan.token.kind == YEOF_TOKEN { return tokens, errors, false; }
      } else {
        errors := errors + 1;
      }
      log := log + [RecordAt(rules, |log|)];
    }
  }

  /**
   tokenize throws exactly when one of its scans goes past the end of the source, and
   returns tokens exactly when every scan finds one: then they are what the scans found.
  */
  method Tokenize(source: string, keywords: map<string, TokenType>, converts: Conversion) returns (r: Outcome)
    requires WordTable(keywords)
    ensures var rules := Rules(source, keywords, converts);
            && (r.Thrown? <==> exists n: nat :: CutStep(rules, n))
            && (r.Tokens? <==> forall n: nat :: ScanAt(rules, n).Ok?)
            && (r.Tokens? ==> Stream(rules, r.tokens))
    ensures !r.Tokens? ==> r.count > 0
  {
    var lexer := new Lexer(source, keywords, converts);
    var tokens, errors, thrown := ScanAll(lexer, Rules(source, keywords, converts));
    return if thrown then Thrown(errors) else if errors > 0 then Errors(errors) else Tokens(tokens);
  }

  // A lone quote throws.
  method TokenizeQuote(converts: Conversion) returns (r: Outcome)
    ensures r.Thrown?
  {
    KeywordsAreWords();
    LoneQuote();
    LastQuoteIsCut(Rules("'", KEYWORDS, converts));
    r := Tokenize("'", KEYWORDS, converts);
  }

  // A comment without an end is accepted.
  method TokenizeComment(converts: Conversion) returns (r: Outcome)
    ensures r == Tokens([Token(YEOF_TOKEN, 2, 2)])
  {
    KeywordsAreWords();
    ghost var rules := Rules("/*", KEYWORDS, converts);
    forall n: nat ensures AtEnd(rules, ScanAt(rules, n)) && ScanAt(rules, n).Ok? { OpenOnly(rules, n); }
    r := Tokenize("/*", KEYWORDS, converts);
    StreamOfEnd(rules, r.tokens);
  }

  lemma OpenOnly(r: Rules, n: nat)
    requires r.source == "/*"
    ensures AtEnd(r, ScanAt(r, n)) && ScanAt(r, n).Ok?
  {
    assert r.source[0] == '/' && r.source[1] == '*';
    assert BlockEnd(r.source, 2, 1) == 2;
    UnclosedComment(r, n);
  }
}
