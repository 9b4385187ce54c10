/**
 What the lexer of src/Lexer.cpp recognises: token types, spellings, character
 classes, and the whitespace and comments between tokens. Characters are code points.
*/
module LexerSyntax {
  import opened Utf8

  datatype TokenType =
    | YINTEGER | YFLOAT | YSTRING | YCHARACTER | YBYTE | YSYMBOL | YTRUE | YFALSE
    | YIDENTIFIER | YMODULE | YIMPORT | YFROM | YAS | YEXPORT | YLET | YIN | YIF | YTHEN | YELSE
    | YCASE | YOF | YDO | YEND | YTRY | YCATCH | YRAISE | YWITH | YFUN | YLAMBDA | YRECORD | YTYPE
    | YTRAIT | YINSTANCE | YDERIVING | YEXTERN | YFOR | YEFFECT | YPERFORM | YHANDLE
    | YPLUS | YMINUS | YSTAR | YSLASH | YPERCENT | YPOWER
    | YEQ | YNEQ | YLT | YGT | YLTE | YGTE | YAND | YOR | YNOT
    | YBIT_AND | YBIT_XOR | YBIT_NOT | YLEFT_SHIFT | YRIGHT_SHIFT | YZERO_FILL_RIGHT_SHIFT
    | YASSIGN | YARROW | YFAT_ARROW
    | YLPAREN | YRPAREN | YLBRACKET | YRBRACKET | YLBRACE | YRBRACE
    | YCOMMA | YCOLON | YDOT | YDOTDOT | YPIPE | YAT | YUNDERSCORE | YBACKSLASH
    | YCONS | YCONS_RIGHT | YPIPE_LEFT | YPIPE_RIGHT | YJOIN | YREMOVE | YPREPEND | YAPPEND
    | YEOF_TOKEN | YNEWLINE | YSTRING_PART

  datatype Token = Token(kind: TokenType, start: nat, end: nat)

  // ---------------------------------------------------------------------
  // Spelling
  // ---------------------------------------------------------------------

  datatype Chars = NoChars | One(a: char) | Two(a: char, b: char) | Three(a: char, b: char, c: char)

  // The one text of a punctuation mark or operator.
  function Spelling(kind: TokenType): Chars {
    match kind
    case YPLUS => One('+')  case YMINUS => One('-')  case YSTAR => One('*')  case YSLASH => One('/')
    case YPERCENT => One('%')
    case YPOWER => Two('*', '*')  case YEQ => Two('=', '=')  case YNEQ => Two('!', '=')  case YLT => One('<')
    case YGT => One('>')
    case YLTE => Two('<', '=')  case YGTE => Two('>', '=')  case YAND => Two('&', '&')
    case YOR => Two('|', '|')  case YNOT => One('!')
    case YBIT_AND => One('&')  case YBIT_XOR => One('^')  case YBIT_NOT => One('~')
    case YLEFT_SHIFT => Two('<', '<')  case YRIGHT_SHIFT => Two('>', '>')
    case YZERO_FILL_RIGHT_SHIFT => Three('>', '>', '>')
    case YASSIGN => One('=')  case YARROW => Two('-', '>')  case YFAT_ARROW => Two('=', '>')
    case YLPAREN => One('(')  case YRPAREN => One(')')  case YLBRACKET => One('[')  case YRBRACKET => One(']')
    case YLBRACE => One('{')  case YRBRACE => One('}')  case YCOMMA => One(',')  case YCOLON => One(':')
    case YDOT => One('.')  case YDOTDOT => Two('.', '.')  case YPIPE => One('|')  case YAT => One('@')
    case YUNDERSCORE => One('_')
    case YBACKSLASH => One('\\')  case YCONS => Two(':', ':')  case YCONS_RIGHT => Two(':', '>')
    case YPIPE_LEFT => Two('<', '|')  case YPIPE_RIGHT => Two('|', '>')  case YJOIN => Two('+', '+')
    case YREMOVE => Two('-', '-')
    case YPREPEND => Two('-', '|')  case YAPPEND => Two('|', '-')
    case _ => NoChars
  }

  // The characters that would make a longer mark of one.
  function Extensions(kind: TokenType): Chars {
    match kind
    case YPLUS => One('+')  case YMINUS => Three('>', '-', '|')  case YSTAR => One('*')
    case YASSIGN => Two('=', '>')  case YNOT => One('=')
    case YLT => Three('=', '<', '|')  case YGT => Two('=', '>')  case YRIGHT_SHIFT => One('>')
    case YBIT_AND => One('&')
    case YPIPE => Three('|', '>', '-')  case YDOT => One('.')  case YCOLON => Two(':', '>')
    case _ => NoChars
  }

  function Length(chars: Chars): nat {
    if chars.NoChars? then 0 else if chars.One? then 1 else if chars.Two? then 2 else 3
  }

  predicate At(src: string, i: nat, c: char) { Peek(src, i) == Char(Code(c)) }

  // The source has these characters from i on.
  predicate Spells(src: string, i: nat, chars: Chars) {
    match chars
    case NoChars => true
    case One(a) => At(src, i, a)
    case Two(a, b) => At(src, i, a) && At(src, i + 1, b)
    case Three(a, b, c) => At(src, i, a) && At(src, i + 1, b) && At(src, i + 2, c)
  }

  // None of these characters is at i.
  predicate NoneAt(src: string, i: nat, chars: Chars) {
    match chars
    case NoChars => true
    case One(a) => !At(src, i, a)
    case Two(a, b) => !At(src, i, a) && !At(src, i, b)
    case Three(a, b, c) => !At(src, i, a) && !At(src, i, b) && !At(src, i, c)
  }

  const KEYWORDS: map<string, TokenType> := map[
    "module" := YMODULE, "import" := YIMPORT, "from" := YFROM, "as" := YAS, "export" := YEXPORT,
    "let" := YLET, "in" := YIN, "if" := YIF, "then" := YTHEN, "else" := YELSE, "case" := YCASE,
    "of" := YOF, "do" := YDO, "end" := YEND, "try" := YTRY, "catch" := YCATCH, "raise" := YRAISE,
    "with" := YWITH, "extern" := YEXTERN, "for" := YFOR, "effect" := YEFFECT, "perform" := YPERFORM,
    "handle" := YHANDLE, "fun" := YFUN, "lambda" := YLAMBDA, "record" := YRECORD, "type" := YTYPE,
    "trait" := YTRAIT, "instance" := YINSTANCE, "deriving" := YDERIVING, "true" := YTRUE, "false" := YFALSE]

  function WordKind(keywords: map<string, TokenType>, lexeme: string): TokenType {
    if lexeme in keywords then keywords[lexeme] else YIDENTIFIER
  }

  // ---------------------------------------------------------------------
  // Character classes
  // ---------------------------------------------------------------------

  predicate Is(ch: nat, c: char) { ch == Code(c) }

  predicate IsAlpha(ch: nat) { Code('a') <= ch <= Code('z') || Code('A') <= ch <= Code('Z') }

  predicate IsDigit(ch: nat) { Code('0') <= ch <= Code('9') }

  predicate IsWhitespace(ch: nat) { Is(ch, ' ') || Is(ch, '\t') || Is(ch, '\r') }

  predicate IsIdentifierStart(ch: nat) { IsAlpha(ch) || Is(ch, '_') || ch > 127 }

  predicate IsIdentifierContinue(ch: nat) {
    IsAlpha(ch) || IsDigit(ch) || Is(ch, '_') || Is(ch, '\'') || ch > 127
  }

  predicate IsOperatorChar(ch: nat) {
    || Is(ch, '+') || Is(ch, '-') || Is(ch, '*') || Is(ch, '/') || Is(ch, '%')
    || Is(ch, '=') || Is(ch, '!') || Is(ch, '<') || Is(ch, '>') || Is(ch, '&')
    || Is(ch, '|') || Is(ch, '^') || Is(ch, '~') || Is(ch, '@')
  }

  predicate IsHexDigit(ch: nat) {
    IsDigit(ch) || Code('a') <= ch <= Code('f') || Code('A') <= ch <= Code('F')
  }

  // ---------------------------------------------------------------------
  // Between tokens
  // ---------------------------------------------------------------------

  predicate StartsComment(src: string, i: nat) {
    Peek(src, i) == Char(Code('/')) && i + 1 < |src| && src[i + 1] == '*'
  }

  predicate ClosesComment(src: string, i: nat) {
    Peek(src, i) == Char(Code('*')) && i + 1 < |src| && src[i + 1] == '/'
  }

  // Where the line comment whose text continues at i stops: at a newline, the end, or
  // an invalid sequence.
  function LineEnd(src: string, i: nat): (k: nat)
    requires i <= |src|
    ensures i <= k <= |src|
    ensures k == |src| || Peek(src, k) == Char(Code('\n')) || Peek(src, k).Bad?
    decreases |src| - i
  {
    if i == |src| then i
    else match Peek(src, i)
         case Bad => i
         case Char(ch) => if Is(ch, '\n') then i else LineEnd(src, i + Size(ch))
  }

  // Where the block comment open at i, nested to a depth, stops.
  function BlockEnd(src: string, i: nat, depth: nat): (k: nat)
    requires i <= |src|
    ensures i <= k <= |src|
    decreases |src| - i
  {
    if i == |src| || depth == 0 then i
    else if StartsComment(src, i) then BlockEnd(src, i + 2, depth + 1)
    else if ClosesComment(src, i) then BlockEnd(src, i + 2, depth - 1)
    else match Peek(src, i)
         case Bad => i
         case Char(ch) => BlockEnd(src, i + Size(ch), depth)
  }

  // A blank or a comment begins at i and ends at the result; i itself when neither does.
  function ItemEnd(src: string, i: nat): (k: nat)
    requires i <= |src|
    ensures i <= k <= |src|
  {
    if i == |src| then i
    else match Peek(src, i)
         case Bad => i
         case Char(ch) =>
           if IsWhitespace(ch) || Is(ch, '\n') then i + Size(ch)
           else if Is(ch, '#') then LineEnd(src, i + 1)
           else if StartsComment(src, i) then BlockEnd(src, i + 2, 1)
           else i
  }

  // From i to j there are only blanks and comments.
  ghost predicate Gap(src: string, i: nat, j: nat)
    decreases j
  {
    i <= j <= |src| && (i == j || exists k: nat :: i <= k < j && Gap(src, i, k) && ItemEnd(src, k) == j)
  }

  lemma GapMore(src: string, i: nat, k: nat, j: nat)
    requires Gap(src, i, k) && ItemEnd(src, k) == j
    ensures Gap(src, i, j)
  {
  }

  lemma {:induction false} GapJoin(src: string, i: nat, k: nat, j: nat)
    requires Gap(src, i, k) && Gap(src, k, j)
    ensures Gap(src, i, j)
    decreases j
  {
    if k != j {
      var l: nat :| k <= l < j && Gap(src, k, l) && ItemEnd(src, l) == j;
      GapJoin(src, i, k, l);
    }
  }

  // The first position from i at which neither a blank nor a comment begins.
  function SkipAll(src: string, i: nat): (k: nat)
    requires i <= |src|
    ensures i <= k <= |src| && ItemEnd(src, k) == k
    decreases |src| - i
  {
    var k := ItemEnd(src, i);
    if k == i then i else SkipAll(src, k)
  }

  // Gaps are unambiguous.
  lemma {:induction false} GapSkips(src: string, i: nat, j: nat)
    requires Gap(src, i, j)
    ensures SkipAll(src, i) == SkipAll(src, j)
    decreases j
  {
    if i != j {
      var k: nat :| i <= k < j && Gap(src, i, k) && ItemEnd(src, k) == j;
      GapSkips(src, i, k);
    }
  }

  ghost predicate BlockStop(src: string, i: nat, k: nat)
    requires k <= |src|
  {
    k == |src| || Peek(src, k).Bad? || (k >= i + 2 && ClosesComment(src, k - 2))
  }

  // A block comment stops right after the star and slash that bring it to depth zero,
  // at an invalid sequence, or at the end of the source: an unterminated one is no error.
  lemma {:induction false} BlockStops(src: string, i: nat, depth: nat)
    requires i <= |src| && depth > 0
    ensures BlockStop(src, i, BlockEnd(src, i, depth))
    decreases |src| - i
  {
    if i == |src| {
    } else if StartsComment(src, i) {
      BlockStops(src, i + 2, depth + 1);
    } else if ClosesComment(src, i) {
      if depth > 1 { BlockStops(src, i + 2, depth - 1); }
    } else if Peek(src, i).Char? {
      BlockStops(src, i + Size(Peek(src, i).ch), depth);
    }
  }
}
