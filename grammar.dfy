/**
 * The token-level reference definition of what the lexer produces.
 *
 * `LexFrom(name, s, i)` says, lexeme by lexeme, which tokens the state table
 * sends when dispatch starts at offset `i` of `s`, and whether the lexer then
 * stops (closing its channel) or scans forever after an unclosed quote.
 * It is written over whole lexemes (runs, closing delimiters), not over the
 * rune-by-rune moves of the state functions, which `Lexing` proves against it.
 */
module Grammar {
  import opened Tokens
  import opened Runes

  /** Everything a scanning session sends, and whether it never closes the channel. */
  datatype Scan = Scan(tokens: seq<Token>, endless: bool)

  /** The tokens `prefix` sent before the scan `rest`. */
  function Then(prefix: seq<Token>, rest: Scan): (r: Scan)
    ensures |r.tokens| == |prefix| + |rest.tokens|
    ensures r.tokens[..|prefix|] == prefix && r.tokens[|prefix|..] == rest.tokens
    ensures r.endless == rest.endless
  {
    Scan(prefix + rest.tokens, rest.endless)
  }

  /** The format strings the states pass to `errorf`, as the source spells them. */
  const UnsupportedOp: string := "unsupported op: "
  const UnknownKeyword: string := "keyword doesn't exsit: %s"

  /** The offset of the first `%s` in a format, or -1. */
  function FirstVerb(f: string): (k: int)
    ensures k < 0 ==> k == -1
    ensures k >= 0 ==> k + 1 < |f|
  {
    if |f| < 2 then -1
    else if f[0] == '%' && f[1] == 's' then 0
    else
      var k := FirstVerb(f[1..]);
      if k < 0 then -1 else k + 1
  }

  /** `FirstVerb` finds a `%s` exactly when there is one, and the earliest one. */
  lemma {:induction false} FirstVerbFinds(f: string)
    ensures FirstVerb(f) < 0 ==> forall m :: 0 <= m < |f| - 1 ==> !(f[m] == '%' && f[m + 1] == 's')
    ensures FirstVerb(f) >= 0 ==> f[FirstVerb(f)] == '%' && f[FirstVerb(f) + 1] == 's'
    ensures forall m :: 0 <= m < FirstVerb(f) ==> !(f[m] == '%' && f[m + 1] == 's')
  {
    if |f| >= 2 && !(f[0] == '%' && f[1] == 's') {
      var t := f[1..];
      FirstVerbFinds(t);
      forall m | 1 <= m < |f| - 1 ensures f[m] == t[m - 1] && f[m + 1] == t[m] {
      }
    }
  }

  /**
   * fmt.Sprintf with one string argument: the first `%s` becomes the argument;
   * with no verb at all, fmt reports the unused argument after the text.
   */
  function Sprintf(f: string, arg: string): string {
    var k := FirstVerb(f);
    if k < 0 then f + "%!(EXTRA string=" + arg + ")" else f[..k] + arg + f[k + 2..]
  }

  /** The message of an Error token: the session name prefixed to the format, then formatted. */
  function Diagnostic(name: string, format: string, arg: string): string {
    Sprintf("ERROR: " + name + ": " + format, arg)
  }

  /** A format without `%` has no verb. */
  lemma NoVerb(f: string)
    requires '%' !in f
    ensures FirstVerb(f) < 0
  {
    FirstVerbFinds(f);
    forall m | 0 <= m < |f| ensures f[m] != '%' {
      assert f[m] in f;
    }
  }

  /** A format whose only `%` is a trailing `%s`. */
  lemma VerbAtEnd(p: string)
    requires '%' !in p
    ensures FirstVerb(p + "%s") == |p|
  {
    var f := p + "%s";
    FirstVerbFinds(f);
    assert f[|p|] == '%' && f[|p| + 1] == 's';
    forall m | 0 <= m < |p| ensures f[m] != '%' {
      assert f[m] == p[m];
    }
  }

  /** Joining two texts without `%` gives none. */
  lemma NoPercent(a: string, b: string)
    requires '%' !in a && '%' !in b
    ensures '%' !in a + b
  {
    forall m | 0 <= m < |a + b| ensures (a + b)[m] != '%' {
      if m < |a| {
        assert (a + b)[m] == a[m];
      } else {
        assert (a + b)[m] == b[m - |a|];
      }
    }
  }

  /** The prefix `errorf` puts in front of every format. */
  lemma PrefixNoPercent(name: string, context: string)
    requires '%' !in name && '%' !in context
    ensures '%' !in "ERROR: " + name + ": " + context
  {
    NoPercent("ERROR: ", name);
    NoPercent("ERROR: " + name, ": ");
    NoPercent("ERROR: " + name + ": ", context);
  }

  /** A verb-less format: the unused argument is reported after the text. */
  lemma DiagnosticExtra(name: string, context: string, arg: string)
    requires '%' !in name && '%' !in context
    ensures Diagnostic(name, context, arg) == "ERROR: " + name + ": " + context + "%!(EXTRA string=" + arg + ")"
  {
    PrefixNoPercent(name, context);
    NoVerb("ERROR: " + name + ": " + context);
  }

  /** A format ending in its only verb `%s`: the argument takes its place. */
  lemma DiagnosticVerb(name: string, context: string, arg: string)
    requires '%' !in name && '%' !in context
    ensures Diagnostic(name, context + "%s", arg) == "ERROR: " + name + ": " + context + arg
  {
    var p := "ERROR: " + name + ": " + context;
    PrefixNoPercent(name, context);
    assert "ERROR: " + name + ": " + (context + "%s") == p + "%s";
    VerbAtEnd(p);
    var f := p + "%s";
    assert f[..|p|] == p && f[|p| + 2..] == [];
  }

  lemma UnknownKeywordFormat()
    ensures UnknownKeyword == "keyword doesn't exsit: " + "%s" && '%' !in "keyword doesn't exsit: "
  {
  }

  /** The complaint about a word: the word takes the place of the trailing `%s`. */
  lemma UnknownText(name: string, word: string)
    requires '%' !in name
    ensures Diagnostic(name, UnknownKeyword, word) == "ERROR: " + name + ": " + "keyword doesn't exsit: " + word
  {
    UnknownKeywordFormat();
    DiagnosticVerb(name, "keyword doesn't exsit: ", word);
  }

  /** Whether the rune after `!`, `>` or `<` completes a supported operator. */
  predicate OpLookaheadOk(c: char, next: char) {
    if c == '!' then next == '='
    else if c == '>' then next == '=' || next == ' '
    else next == '=' || next == ' ' || next == '>'
  }

  /** The end of a number lexeme: digits, an optional `.`, digits. */
  function NumberEnd(s: string, i: nat): (j: nat)
    requires i <= |s|
    ensures i <= j <= |s|
    ensures i < |s| && IsDigit(s[i]) ==> i < j
  {
    var a := RunEnd(s, i, Digits);
    if a < |s| && s[a] == '.' then RunEnd(s, a + 1, Digits) else a
  }

  /** The (single) delimiter kind a quote character opens. */
  function QuotedKind(d: char): TokenType {
    if d == '\'' then String else Literal
  }

  /** How dispatch classifies the rune it has just decoded. */
  datatype RuneClass =
    | Quote        // ' or `: a quoted form up to the matching delimiter
    | Blank        // space or newline: skipped
    | Single(kind: TokenType)  // * , = + - /: a one-rune token
    | Binary       // ! > <: an operator whose next rune is checked
    | Digit        // the start of a number
    | Letter       // the start of a keyword
    | Unknown      // anything else: scanning stops silently

  function DispatchClass(c: char): (cl: RuneClass)
    ensures cl.Single? ==> cl.kind in {Star, Sep, Op}
  {
    if c == '\'' || c == '`' then Quote
    else if c == ' ' || c == '\n' then Blank
    else if c == '*' then Single(Star)
    else if c == ',' then Single(Sep)
    else if c == '=' || c == '+' || c == '-' || c == '/' then Single(Op)
    else if c == '!' || c == '>' || c == '<' then Binary
    else if IsDigit(c) then Digit
    else if IsLetter(c) then Letter
    else Unknown
  }

  /** The tokens sent for the operator rune at `i`: an error first when the lookahead is unsupported. */
  function OperatorTokens(name: string, s: string, i: nat): seq<Token>
    requires i < |s|
  {
    var op := Token(Op, s[i..i + 1]);
    if OpLookaheadOk(s[i], RuneAt(s, i + 1)) then [op]
    else [Token(Error, Diagnostic(name, UnsupportedOp, s[i..i + 1])), op]
  }

  /** The scan of `s` when dispatch starts at offset `i` (the state expectAny). */
  function LexFrom(name: string, s: string, i: nat): Scan
    requires i <= |s|
    decreases |s| - i, 1
  {
    if i == |s| then Scan([Token(EOF, "")], false)
    else
      match DispatchClass(s[i])
      case Quote => QuotedFrom(name, s, i)
      case Blank => LexFrom(name, s, i + 1)
      case Single(kind) => Then([Token(kind, s[i..i + 1])], LexFrom(name, s, i + 1))
      case Binary => Then(OperatorTokens(name, s, i), LexFrom(name, s, i + 1))
      case Digit => NumberFrom(name, s, i)
      case Letter => WordFrom(name, s, i)
      case Unknown => Scan([], false)
  }

  /** The scan from a quote or backtick at `i` (the states expectString and expectLiteral). */
  function QuotedFrom(name: string, s: string, i: nat): Scan
    requires i < |s|
    decreases |s| - i, 0
  {
    var k := IndexRune(s[i + 1..], s[i]);
    if k < 0 then Scan([], true)
    else Then([Token(QuotedKind(s[i]), s[i..i + k + 2])], LexFrom(name, s, i + k + 2))
  }

  /** The scan from a digit at `i` (the state expectNumber). */
  function NumberFrom(name: string, s: string, i: nat): Scan
    requires i < |s| && IsDigit(s[i])
    decreases |s| - i, 0
  {
    var j := NumberEnd(s, i);
    Then([Token(Number, s[i..j])], LexFrom(name, s, j))
  }

  /** The scan from a letter at `i` (the state expectKeyword). */
  function WordFrom(name: string, s: string, i: nat): Scan
    requires i < |s| && IsLetter(s[i])
    decreases |s| - i, 0
  {
    var j := RunEnd(s, i, Letters);
    var word := s[i..j];
    match KeywordKind(ToUpper(word))
    case Some(k) => Then([Token(k, word)], LexFrom(name, s, j))
    case None => Scan([Token(Error, Diagnostic(name, UnknownKeyword, word))], false)
  }

  /** The scan of a whole input. */
  function Lex(name: string, s: string): Scan {
    LexFrom(name, s, 0)
  }

  // LexFrom at the end of the input and at each class of rune, one lemma per class.

  lemma LexEnd(name: string, s: string)
    ensures LexFrom(name, s, |s|) == Scan([Token(EOF, "")], false)
  {
  }

  lemma LexBlank(name: string, s: string, i: nat)
    requires i < |s| && DispatchClass(s[i]) == Blank
    ensures LexFrom(name, s, i) == LexFrom(name, s, i + 1)
  {
  }

  lemma LexSingle(name: string, s: string, i: nat)
    requires i < |s| && DispatchClass(s[i]).Single?
    ensures LexFrom(name, s, i) == Then([Token(DispatchClass(s[i]).kind, s[i..i + 1])], LexFrom(name, s, i + 1))
  {
  }

  lemma LexBinary(name: string, s: string, i: nat)
    requires i < |s| && DispatchClass(s[i]) == Binary
    ensures LexFrom(name, s, i) == Then(OperatorTokens(name, s, i), LexFrom(name, s, i + 1))
  {
  }

  lemma LexNumber(name: string, s: string, i: nat)
    requires i < |s| && DispatchClass(s[i]) == Digit
    ensures LexFrom(name, s, i) == Then([Token(Number, s[i..NumberEnd(s, i)])], LexFrom(name, s, NumberEnd(s, i)))
  {
  }

  lemma LexWord(name: string, s: string, i: nat)
    requires i < |s| && DispatchClass(s[i]) == Letter
    ensures var j := RunEnd(s, i, Letters);
      LexFrom(name, s, i) ==
        match KeywordKind(ToUpper(s[i..j]))
        case Some(k) => Then([Token(k, s[i..j])], LexFrom(name, s, j))
        case None => Scan([Token(Error, Diagnostic(name, UnknownKeyword, s[i..j]))], false)
  {
  }

  lemma LexUnknown(name: string, s: string, i: nat)
    requires i < |s| && DispatchClass(s[i]) == Unknown
    ensures LexFrom(name, s, i) == Scan([], false)
  {
  }

  lemma LexQuote(name: string, s: string, i: nat)
    requires i < |s| && DispatchClass(s[i]) == Quote
    ensures LexFrom(name, s, i) == QuotedFrom(name, s, i)
  {
  }

  /** The search for the closing delimiter of a quote at `i` finds the first one, at `k`. */
  lemma ClosingAt(s: string, i: nat, k: nat)
    requires i < k < |s| && s[k] == s[i]
    requires forall m :: i < m < k ==> s[m] != s[i]
    ensures IndexRune(s[i + 1..], s[i]) == k - i - 1
  {
    var c, rest := s[i], s[i + 1..];
    forall m | 0 <= m < k - i - 1 ensures rest[m] != c {
      assert rest[m] == s[i + 1 + m];
    }
    assert rest[k - i - 1] == c;
    IndexRuneAt(rest, c, k - i - 1);
  }

  /** A quote at `i` whose first matching delimiter after it is at `k` yields one quoted token. */
  lemma QuoteClosesAt(name: string, s: string, i: nat, k: nat)
    requires i < k < |s| && DispatchClass(s[i]) == Quote && s[k] == s[i]
    requires forall m :: i < m < k ==> s[m] != s[i]
    ensures LexFrom(name, s, i) == Then([Token(QuotedKind(s[i]), s[i..k + 1])], LexFrom(name, s, k + 1))
  {
    ClosingAt(s, i, k);
    QuotedFromAt(name, s, i, k + 1);
    LexQuote(name, s, i);
  }

  lemma QuotedFromAt(name: string, s: string, i: nat, j: nat)
    requires i + 1 < j <= |s| && IndexRune(s[i + 1..], s[i]) == j - i - 2
    ensures QuotedFrom(name, s, i) == Then([Token(QuotedKind(s[i]), s[i..j])], LexFrom(name, s, j))
  {
  }

  /** A quote at `i` with no matching delimiter after it makes the lexer scan forever. */
  lemma QuoteUnclosed(name: string, s: string, i: nat)
    requires i < |s| && DispatchClass(s[i]) == Quote
    requires forall m :: i < m < |s| ==> s[m] != s[i]
    ensures LexFrom(name, s, i) == Scan([], true)
  {
  }
}
