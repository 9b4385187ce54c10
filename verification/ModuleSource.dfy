/**
 is_module_source (include/ModuleSource.h), the second scanner that decides whether a
 source is a module, and its agreement with the lexer's first token.
*/
module ModuleSource {
  import opened Utf8
  import opened LexerSyntax
  import opened LexerSpec
  import opened LexerScan
  import opened LexerRuns
  import opened Lexer

  // Past spaces, tabs, newlines, carriage returns and # comments.
  function RawComment(src: string, i: nat): (k: nat)
    requires i <= |src|
    ensures i <= k <= |src|
    decreases |src| - i
  {
    if i == |src| || src[i] == '\n' || src[i] == '\r' then i else RawComment(src, i + 1)
  }

  predicate IsBlank(c: char) { c == ' ' || c == '\t' || c == '\n' || c == '\r' }

  function ModuleStart(src: string, i: nat): (k: nat)
    requires i <= |src|
    ensures i <= k <= |src|
    decreases |src| - i
  {
    if i == |src| then i
    else if IsBlank(src[i]) then ModuleStart(src, i + 1)
    else if src[i] == '#' then ModuleStart(src, RawComment(src, i + 1))
    else i
  }

  // isalnum and the two marks of an identifier, on bytes.
  predicate Continues(c: char) {
    'a' <= c <= 'z' || 'A' <= c <= 'Z' || '0' <= c <= '9' || c == '_' || c == '\''
  }

  predicate SaysModule(src: string) {
    var i := ModuleStart(src, 0);
    i + 6 <= |src| && src[i..i + 6] == "module" && (i + 6 == |src| || !Continues(src[i + 6]))
  }

  method IsModuleSource(src: string) returns (yes: bool)
    ensures yes == SaysModule(src)
  {
    var i := 0;
    while i < |src|
      invariant i <= |src| && ModuleStart(src, i) == ModuleStart(src, 0)
      decreases |src| - i
    {
      var c := src[i];
      if IsBlank(c) {
        i := i + 1;
        continue;
      }
      if c == '#' {
        ghost var start := i;
        i := i + 1;
        while i < |src| && src[i] != '\n' && src[i] != '\r'
          invariant start < i <= |src| && RawComment(src, i) == RawComment(src, start + 1)
        {
          i := i + 1;
        }
        continue;
      }
      break;
    }
    if i + 6 > |src| { return false; }
    if src[i..i + 6] != "module" { return false; }
    if i + 6 >= |src| { return true; }
    return !Continues(src[i + 6]);
  }

  // ---------------------------------------------------------------------
  // Agreement
  // ---------------------------------------------------------------------

  // On the way of the second scanner from i, a comment ends at a carriage return with
  // more of the line after it.
  predicate LoneReturn(src: string, i: nat)
    requires i <= |src|
    decreases |src| - i
  {
    if i == |src| then false
    else if IsBlank(src[i]) then LoneReturn(src, i + 1)
    else if src[i] == '#' then
      var k := RawComment(src, i + 1);
      (k + 1 < |src| && src[k] == '\r' && src[k + 1] != '\n') || LoneReturn(src, k)
    else false
  }

  // Neither a lone carriage return in a comment before the first word, nor a block
  // comment at it.
  predicate Fair(src: string) { !LoneReturn(src, 0) && !StartsComment(src, ModuleStart(src, 0)) }

  // From i to j there are whole characters, each in its shortest form.
  predicate Whole(src: string, i: nat, j: nat)
    requires j <= |src|
    decreases j - i
  {
    i == j || (i < j && Sound(src, i) && i + Size(Peek(src, i).ch) <= j && Whole(src, i + Size(Peek(src, i).ch), j))
  }

  predicate Sound(src: string, i: nat)
    requires i <= |src|
  {
    i == |src| || (Peek(src, i).Char? && Size(Peek(src, i).ch) == LeadLength(Code(src[i])))
  }

  // The lexer's word ends at k.
  predicate WordEndsAt(src: string, k: nat)
    requires k <= |src|
  {
    k == |src| || (Peek(src, k).Char? && !IsIdentifierContinue(Peek(src, k).ch))
  }

  // The word `module` stands at i.
  predicate ModuleAt(src: string, i: nat) {
    i + 6 <= |src| && src[i..i + 6] == "module" && WordEndsAt(src, i + 6)
  }

  ghost predicate ModuleTable(keywords: map<string, TokenType>) {
    WordTable(keywords) && "module" in keywords
    && forall w :: w in keywords ==> (keywords[w] == YMODULE <==> w == "module")
  }

  lemma PeekAscii(src: string, i: nat)
    requires i < |src| && Code(src[i]) < 0x80
    ensures Peek(src, i) == Char(Code(src[i])) && Size(Code(src[i])) == 1 && Sound(src, i)
  {
  }

  lemma {:induction false} WholeJoin(src: string, i: nat, j: nat, k: nat)
    requires i <= j <= k <= |src| && Whole(src, i, j) && Whole(src, j, k)
    ensures Whole(src, i, k)
    decreases j - i
  {
    if i < j { WholeJoin(src, i + Size(Peek(src, i).ch), j, k); }
  }

  // Characters lie one way only.
  lemma {:induction false} WholeSplit(src: string, i: nat, j: nat, k: nat)
    requires i <= j <= k <= |src| && Whole(src, i, j) && Whole(src, i, k)
    ensures Whole(src, j, k)
    decreases j - i
  {
    if i < j { WholeSplit(src, i + Size(Peek(src, i).ch), j, k); }
  }

  // The bytes of a sequence after its first.
  lemma Trailing(src: string, i: nat, k: nat)
    requires i < k < |src| && Peek(src, i).Char? && k < i + LeadLength(Code(src[i]))
    ensures 0x80 <= Code(src[k]) < 0xC0 && Peek(src, k).Bad?
  {
  }

  // After an overlong character nothing can be read.
  lemma OverlongStops(src: string, i: nat)
    requires i < |src| && Peek(src, i).Char? && !Sound(src, i)
    ensures var k := i + Size(Peek(src, i).ch); k < |src| && Peek(src, k).Bad? && !Sound(src, k)
    ensures Code(src[i]) >= 0x80 && i + 1 < |src| && Peek(src, i + 1).Bad? && Code(src[i + 1]) >= 0x80
  {
    ReadsShortestIff(src, i);
    Trailing(src, i, i + Size(Peek(src, i).ch));
    Trailing(src, i, i + 1);
  }

  // i lies where the second scanner passes on its way to the first word.
  ghost predicate OnTheWay(src: string, i: nat) {
    i <= |src| && ModuleStart(src, i) == ModuleStart(src, 0) && !LoneReturn(src, i)
  }

  // The lexer cannot get stuck before the first word.
  ghost predicate Clear(src: string, i: nat) {
    var p := ModuleStart(src, 0);
    i <= p < |src| && Code(src[p]) < 0x80 && Whole(src, i, p)
  }

  lemma {:induction false} RawSkips(src: string, i: nat, j: nat)
    requires i <= j <= |src| && forall k :: i <= k < j ==> src[k] != '\n' && src[k] != '\r'
    ensures RawComment(src, i) == RawComment(src, j)
    decreases j - i
  {
    if i < j { RawSkips(src, i + 1, j); }
  }

  // A character of a comment other than its end is skipped whole by both scanners.
  lemma CharacterSkipped(src: string, i: nat)
    requires i < |src| && Sound(src, i) && src[i] != '\n' && src[i] != '\r'
    ensures var k := i + Size(Peek(src, i).ch);
            k <= |src| && RawComment(src, i) == RawComment(src, k) && LineEnd(src, i) == LineEnd(src, k)
  {
    var k := i + Size(Peek(src, i).ch);
    forall j | i < j < k ensures Code(src[j]) >= 0x80 { Trailing(src, i, j); }
    RawSkips(src, i, k);
  }

  // Both scanners end a comment before the same text, unless the lexer gets stuck in it.
  lemma {:induction false} CommentAgrees(src: string, i: nat)
    requires i <= |src| && OnTheWay(src, RawComment(src, i))
    requires var k := RawComment(src, i); !(k + 1 < |src| && src[k] == '\r' && src[k + 1] != '\n')
    requires Sound(src, LineEnd(src, i)) || Clear(src, i)
    ensures OnTheWay(src, LineEnd(src, i)) && Whole(src, i, LineEnd(src, i))
    decreases |src| - i
  {
    if i < |src| {
      if src[i] == '\r' {
        PeekAscii(src, i);
        if i + 1 < |src| { PeekAscii(src, i + 1); }
      } else if src[i] == '\n' {
        PeekAscii(src, i);
      } else {
        InsideComment(src, i);
        CharacterSkipped(src, i);
        CommentAgrees(src, i + Size(Peek(src, i).ch));
      }
    }
  }

  lemma InsideComment(src: string, i: nat)
    requires i < |src| && src[i] != '\n' && src[i] != '\r' && OnTheWay(src, RawComment(src, i))
    requires Sound(src, LineEnd(src, i)) || Clear(src, i)
    ensures Sound(src, i) && LineEnd(src, i) != i
    ensures Clear(src, i) ==> Clear(src, i + Size(Peek(src, i).ch))
  {
    assert i < RawComment(src, i) <= ModuleStart(src, 0);
    if Peek(src, i).Char? && !Sound(src, i) { OverlongStops(src, i); }
    if Sound(src, i) && Peek(src, i) == Char(10) { assert LeadLength(Code(src[i])) == 1; }
  }

  lemma ItemSound(src: string, i: nat)
    requires i <= |src| && (Sound(src, ItemEnd(src, i)) || Clear(src, i))
    ensures Sound(src, i) && (Clear(src, i) && i < ModuleStart(src, 0) ==> Clear(src, i + Size(Peek(src, i).ch)))
  {
    if i < |src| && Peek(src, i).Char? && !Sound(src, i) { OverlongStops(src, i); }
  }

  // So it is with every blank or comment, and none begins where the second scanner has
  // arrived.
  lemma ItemAgrees(src: string, i: nat)
    requires Fair(src) && OnTheWay(src, i)
    requires Sound(src, ItemEnd(src, i)) || Clear(src, i)
    ensures Sound(src, i) && OnTheWay(src, ItemEnd(src, i)) && Whole(src, i, ItemEnd(src, i))
    ensures ItemEnd(src, i) == i || StartsComment(src, i) ==> i == ModuleStart(src, 0)
    ensures i == ModuleStart(src, 0) ==> ItemEnd(src, i) == i
  {
    ItemSound(src, i);
    if i < |src| {
      if src[i] == '#' {
        PeekAscii(src, i);
        CommentAgrees(src, i + 1);
      } else if IsBlank(src[i]) {
        PeekAscii(src, i);
      } else {
        NoItem(src, i);
      }
    }
  }

  lemma NoItem(src: string, i: nat)
    requires i < |src| && Sound(src, i) && !IsBlank(src[i]) && src[i] != '#' && !StartsComment(src, i)
    ensures ItemEnd(src, i) == i
  {
    if Code(src[i]) < 0x80 { PeekAscii(src, i); }
  }

  lemma {:induction false} GapAgrees(src: string, j: nat)
    requires Fair(src) && Gap(src, 0, j) && (Sound(src, j) || Clear(src, 0))
    ensures OnTheWay(src, j) && Whole(src, 0, j)
    decreases j
  {
    if j > 0 {
      var k: nat :| 0 <= k < j && Gap(src, 0, k) && ItemEnd(src, k) == j;
      if Sound(src, j) { ItemSound(src, k); }
      GapAgrees(src, k);
      if Clear(src, 0) { WholeSplit(src, 0, k, ModuleStart(src, 0)); }
      ItemAgrees(src, k);
      WholeJoin(src, 0, k, j);
    }
  }

  lemma StartsSound(src: string, i: nat)
    requires i <= |src| && StartsComment(src, i)
    ensures Sound(src, i)
  {
    if !Sound(src, i) { OverlongStops(src, i); }
  }

  // The first token starts where the second scanner arrives, and the text before it is
  // whole, unless the lexer gets stuck on the way.
  lemma LexerStart(src: string, q: nat)
    requires Fair(src) && q == StartOf(src, 0, false, YEOF_TOKEN).at
    requires (Sound(src, q) && !At(src, q, '\n')) || Clear(src, 0)
    ensures StartOf(src, 0, false, YEOF_TOKEN) == Significant(ModuleStart(src, 0))
    ensures Whole(src, 0, ModuleStart(src, 0))
  {
    var a := SkipBlanks(src, 0, false);
    SkipBlanksGap(src, 0, false);
    if At(src, a, '\n') {
      NewlineStart(src, a, q);
    } else {
      Arrived(src, a);
    }
  }

  lemma Arrived(src: string, a: nat)
    requires Fair(src) && Gap(src, 0, a) && (ItemEnd(src, a) == a || StartsComment(src, a))
    requires Sound(src, a) || Clear(src, 0)
    ensures a == ModuleStart(src, 0) && Whole(src, 0, a) && ItemEnd(src, a) == a
  {
    GapAgrees(src, a);
    if StartsComment(src, a) { StartsSound(src, a); }
    if Clear(src, 0) { WholeSplit(src, 0, a, ModuleStart(src, 0)); }
    ItemAgrees(src, a);
  }

  lemma NewlineStart(src: string, a: nat, q: nat)
    requires Fair(src) && Gap(src, 0, a) && At(src, a, '\n')
    requires q == SkipBlanks(src, NewlineRun(src, a), false) && (Sound(src, q) || Clear(src, 0))
    ensures q == ModuleStart(src, 0) && Whole(src, 0, q)
  {
    var b := NewlineRun(src, a);
    NewlineRunGap(src, a);
    GapJoin(src, 0, a, b);
    RunStops(src, a);
    if StartsComment(src, b) { StartsSound(src, b); }
    Arrived(src, b);
  }

  // ---------------------------------------------------------------------
  // The first word
  // ---------------------------------------------------------------------

  lemma {:induction false} WordRuns(src: string, i: nat, k: nat)
    requires i <= k <= |src| && (forall j :: i <= j < k ==> Continues(src[j])) && WordEndsAt(src, k)
    ensures WordEnd(src, i) == k
    decreases k - i
  {
    if i < k {
      PeekAscii(src, i);
      WordRuns(src, i + 1, k);
    }
  }

  lemma {:induction false} WordStops(src: string, i: nat)
    requires i <= |src|
    ensures var k := WordEnd(src, i); WordEndsAt(src, k) || (k < |src| && Peek(src, k).Bad?)
    decreases |src| - i
  {
    if i < |src| && Peek(src, i).Char? && IsIdentifierContinue(Peek(src, i).ch) {
      WordStops(src, i + Size(Peek(src, i).ch));
    }
  }

  // Where the lexer finds a word, it is the keyword exactly when it is `module`.
  lemma WordFirst(r: Rules, p: nat)
    requires ModuleTable(r.keywords) && WordAt(r.source, p)
    ensures var e := WordFrom(r, p);
            e.scan.Ok? && e.scan.token.kind == YMODULE <==> ModuleAt(r.source, p)
  {
    var src := r.source;
    var k := WordEnd(src, p + Size(Peek(src, p).ch));
    WordStops(src, p + Size(Peek(src, p).ch));
    KindIsModule(r.keywords, src[p..k]);
    if ModuleAt(src, p) {
      assert src[p] == "module"[0];
      PeekAscii(src, p);
      forall j | p + 1 <= j < p + 6 ensures Continues(src[j]) { assert src[j] == "module"[j - p]; }
      WordRuns(src, p + 1, p + 6);
    }
    if src[p..k] == "module" { assert |src[p..k]| == 6; }
  }

  lemma KindIsModule(keywords: map<string, TokenType>, w: string)
    requires ModuleTable(keywords)
    ensures WordKind(keywords, w) == YMODULE <==> w == "module"
  {
  }

  lemma ModuleStartsWord(src: string, p: nat)
    requires p + 6 <= |src| && src[p..p + 6] == "module"
    ensures WordAt(src, p) && Sound(src, p) && Code(src[p]) < 0x80 && !At(src, p, '\n')
  {
    assert src[p] == "module"[0];
    PeekAscii(src, p);
  }

  // What starts with no letter is no word.
  lemma OtherKinds(r: Rules, s: State)
    requires s.at < |r.source| && !WordAt(r.source, s.at)
    ensures var t := ScanFrom(r, s); t.scan.Ok? ==> t.scan.token.kind != YMODULE
  {
    if Peek(r.source, s.at).Char? { PunctuationKinds(r.source, s, Peek(r.source, s.at).ch); }
  }

  lemma PunctuationKinds(src: string, s: State, ch: nat)
    requires s.at < |src| && Peek(src, s.at) == Char(ch)
    ensures var t := PunctuationFrom(src, s, ch); t.scan.Ok? ==> t.scan.token.kind != YMODULE
  {
    if !IsText(s, ch) && IsMark(ch) { MarkKinds(src, s.at, ch, MarkFrom(src, s.at + 1, ch)); }
  }

  lemma MarkKinds(src: string, p: nat, ch: nat, mark: Mark)
    requires p < |src| && Peek(src, p) == Char(ch) && IsMark(ch) && mark == MarkFrom(src, p + 1, ch)
    ensures mark.kind != YMODULE
  {
    MarkSpelled(src, p, ch, mark);
  }

  // On any source: the first token is the keyword `module` if and only if the word
  // stands where the first scan starts.
  lemma KeywordWhere(r: Rules)
    requires ModuleTable(r.keywords)
    ensures FirstIsModule(r)
            <==> StartOf(r.source, 0, false, YEOF_TOKEN).Significant?
                 && ModuleAt(r.source, StartOf(r.source, 0, false, YEOF_TOKEN).at)
  {
    var start := StartOf(r.source, 0, false, YEOF_TOKEN);
    if start.Significant? {
      if WordAt(r.source, start.at) {
        WordFirst(r, start.at);
      } else {
        if ModuleAt(r.source, start.at) { ModuleStartsWord(r.source, start.at); }
        if start.at < |r.source| { OtherKinds(r, INITIAL.(at := start.at)); }
      }
    }
  }

  // The first token of tokenize is the keyword `module`.
  ghost predicate FirstIsModule(r: Rules) {
    var t := NextStep(r, INITIAL).scan;
    t.Ok? && t.token.kind == YMODULE
  }

  lemma SaysModuleAt(src: string, p: nat)
    requires p == ModuleStart(src, 0)
    ensures ModuleAt(src, p) <==> SaysModule(src) && p + 6 <= |src| && WordEndsAt(src, p + 6)
    ensures SaysModule(src) ==> p + 6 <= |src|
  {
    if p + 6 < |src| && Continues(src[p + 6]) { PeekAscii(src, p + 6); }
  }

  /**
   On every source without a lone carriage return in a comment before its first word and
   without a block comment at it: the first token is the keyword exactly when
   is_module_source says so, the text before the word is whole characters in their
   shortest form, and what follows the word is a character that ends it.
  */
  lemma KeywordIff(r: Rules)
    requires Fair(r.source) && ModuleTable(r.keywords)
    ensures var p := ModuleStart(r.source, 0);
            FirstIsModule(r)
            <==> SaysModule(r.source) && Whole(r.source, 0, p) && p + 6 <= |r.source| && WordEndsAt(r.source, p + 6)
  {
    KeywordWhere(r);
    SaysModuleAt(r.source, ModuleStart(r.source, 0));
    StartsAlike(r.source);
  }

  // Where either scanner sees the word after whole text, both start at it.
  lemma StartsAlike(src: string)
    requires Fair(src)
    ensures var p, start := ModuleStart(src, 0), StartOf(src, 0, false, YEOF_TOKEN);
            start.Significant? && ModuleAt(src, start.at) <==> Whole(src, 0, p) && ModuleAt(src, p)
  {
    var p, q := ModuleStart(src, 0), StartOf(src, 0, false, YEOF_TOKEN).at;
    if ModuleAt(src, q) {
      ModuleStartsWord(src, q);
      LexerStart(src, q);
    } else if ModuleAt(src, p) && Whole(src, 0, p) {
      ModuleStartsWord(src, p);
      LexerStart(src, q);
    }
  }

  /**
   The two scanners agree, then, unless is_module_source says yes and the text before the
   word is not whole, or an invalid or identifier character follows it.
  */
  lemma Agrees(r: Rules)
    requires Fair(r.source) && ModuleTable(r.keywords)
    ensures (FirstIsModule(r) <==> SaysModule(r.source))
            <==> (SaysModule(r.source) ==>
                    && Whole(r.source, 0, ModuleStart(r.source, 0))
                    && WordEndsAt(r.source, ModuleStart(r.source, 0) + 6))
  {
    KeywordIff(r);
  }

  method FirstTokens(src: string, keywords: map<string, TokenType>, converts: Conversion)
    returns (first: Scan, yes: bool)
    requires Fair(src) && ModuleTable(keywords)
    ensures yes == SaysModule(src)
    ensures first.Ok? && first.token.kind == YMODULE
            <==> yes && Whole(src, 0, ModuleStart(src, 0)) && WordEndsAt(src, ModuleStart(src, 0) + 6)
  {
    var lexer := new Lexer(src, keywords, converts);
    first := lexer.NextToken();
    KeywordIff(Rules(src, keywords, converts));
    yes := IsModuleSource(src);
  }

  // The table of the source spells words, and `module` once.
  lemma KeywordsAreATable()
    ensures ModuleTable(KEYWORDS)
  {
    KeywordsAreWords();
    OnlyModule();
  }

  lemma OnlyModule()
    ensures "module" in KEYWORDS && forall w :: w in KEYWORDS ==> (KEYWORDS[w] == YMODULE <==> w == "module")
  {
  }

  // Sources on which the two differ: a lone carriage return in a comment, a block
  // comment, an invalid byte in a comment, a letter beyond ASCII after the word.
  lemma CarriageReturnDiffers()
    ensures SaysModule("#\rmodule") && StartOf("#\rmodule", 0, false, YEOF_TOKEN) == Significant(8)
  {
    var src := "#\rmodule";
    assert src[2..8] == "module" && src[0] == '#' && src[1] == '\r' && src[2] == 'm';
    LineRuns(src, 1);
    RawAfterReturn(src);
    CommentToEnd(src);
  }

  lemma RawAfterReturn(src: string)
    requires |src| > 2 && src[0] == '#' && src[1] == '\r' && !IsBlank(src[2]) && src[2] != '#'
    ensures ModuleStart(src, 0) == 2
  {
    assert RawComment(src, 1) == 1 && ModuleStart(src, 2) == 2;
  }

  lemma CommentToEnd(src: string)
    requires src != "" && src[0] == '#' && LineEnd(src, 1) == |src|
    ensures StartOf(src, 0, false, YEOF_TOKEN) == Significant(|src|)
  {
    assert ItemEnd(src, 0) == |src| && SkipBlanks(src, |src|, false) == |src|;
  }

  lemma {:induction false} LineRuns(src: string, i: nat)
    requires i <= |src| && forall k :: i <= k < |src| ==> Code(src[k]) < 0x80 && src[k] != '\n'
    ensures LineEnd(src, i) == |src|
    decreases |src| - i
  {
    if i < |src| { LineRuns(src, i + 1); }
  }

  lemma BlockCommentDiffers()
    ensures !SaysModule("/**/module") && StartOf("/**/module", 0, false, YEOF_TOKEN) == Significant(4)
    ensures WordAt("/**/module", 4)
  {
    var src := "/**/module";
    assert src[0] == '/' && src[1] == '*' && src[2] == '*' && src[3] == '/' && src[4] == 'm';
    CommentOnly(src);
  }

  lemma CommentOnly(src: string)
    requires |src| == 10 && src[0] == '/' && src[1] == '*' && src[2] == '*' && src[3] == '/' && src[4] == 'm'
    ensures !SaysModule(src) && StartOf(src, 0, false, YEOF_TOKEN) == Significant(4) && WordAt(src, 4)
  {
    assert src[0..6][0] != "module"[0];
    assert BlockEnd(src, 4, 0) == 4;
    assert BlockEnd(src, 2, 1) == 4;
    assert ItemEnd(src, 0) == 4 && ItemEnd(src, 4) == 4;
    assert SkipBlanks(src, 4, false) == 4;
    assert SkipBlanks(src, 0, false) == 4;
  }

  lemma InvalidByteDiffers(r: Rules)
    requires r.source == "#" + [0xFF as char] + "\nmodule" && ModuleTable(r.keywords)
    ensures Fair(r.source) && SaysModule(r.source) && NextStep(r, INITIAL).scan == Err
  {
    var src := r.source;
    assert src[0] == '#' && src[2] == '\n' && src[3] == 'm' && src[3..9] == "module";
    assert RawComment(src, 2) == 2 && RawComment(src, 1) == 2;
    assert ModuleStart(src, 3) == 3 && ModuleStart(src, 2) == 3 && ModuleStart(src, 0) == 3;
    assert !LoneReturn(src, 3) && !LoneReturn(src, 2);
    PeekAscii(src, 3);
    assert Peek(src, 1).Bad? && ItemEnd(src, 0) == 1 && SkipBlanks(src, 1, false) == 1;
    assert SkipBlanks(src, 0, false) == 1;
  }

  lemma LetterDiffers(r: Rules)
    requires r.source == "module" + [0xC3 as char, 0xA9 as char] && r.keywords == KEYWORDS
    ensures SaysModule(r.source) && ScanAt(r, 0) == Ok(Token(YIDENTIFIER, 0, 8))
  {
    var src := r.source;
    assert src[..6] == "module" && Peek(src, 0) == Char(109);
    assert ModuleStart(src, 0) == 0 && src[0..6] == "module";
    LongWord(src);
    assert StartOf(src, 0, false, YEOF_TOKEN) == Significant(0);
    assert |src[0..8]| == 8;
    NoLongKeyword(src[0..8]);
    assert StateAt(r, 0) == INITIAL;
  }

  lemma KeywordsAreAscii(w: string, i: nat)
    requires w in KEYWORDS && i < |w|
    ensures Code(w[i]) < 0x80
  {
  }

  lemma NoLongKeyword(w: string)
    requires |w| == 8 && w[7] == 0xA9 as char
    ensures w !in KEYWORDS
  {
    if w in KEYWORDS { KeywordsAreAscii(w, 7); }
  }

  lemma LongWord(src: string)
    requires src == "module" + [0xC3 as char, 0xA9 as char]
    ensures WordEnd(src, 1) == 8
  {
    assert Peek(src, 6) == Char(0xE9);
    assert WordEnd(src, 8) == 8;
    assert WordEnd(src, 6) == 8;
    assert src[1] == 'o' && src[2] == 'd' && src[3] == 'u' && src[4] == 'l' && src[5] == 'e';
    assert WordEnd(src, 5) == 8;
    assert WordEnd(src, 4) == 8;
    assert WordEnd(src, 3) == 8;
    assert WordEnd(src, 2) == 8;
  }
}
