/**
 * What the lexer promises about the tokens it sends, proved of the reference
 * definition `Grammar.LexFrom` (and so, through `Lexing.Lexer.Transform` and
 * the `Sessions.Session` constructor, of what a caller receives).
 */
module Properties {
  import opened Tokens
  import opened Runes
  import opened Grammar

  // ---------------------------------------------------------------------------
  // Blank input

  lemma {:induction false} BlankFrom(name: string, s: string, i: nat)
    requires i <= |s|
    requires forall k :: i <= k < |s| ==> s[k] == ' ' || s[k] == '\n'
    ensures LexFrom(name, s, i) == Scan([Token(EOF, "")], false)
    decreases |s| - i
  {
    if i < |s| {
      LexBlank(name, s, i);
      BlankFrom(name, s, i + 1);
    }
  }

  /** Input made only of spaces and newlines yields exactly one token: EOF with an empty literal. */
  lemma BlankInput(name: string, s: string)
    requires forall k :: 0 <= k < |s| ==> s[k] == ' ' || s[k] == '\n'
    ensures Lex(name, s) == Scan([Token(EOF, "")], false)
  {
    BlankFrom(name, s, 0);
  }

  // ---------------------------------------------------------------------------
  // Keywords

  /** An upper-cased word is recognised as keyword `k` exactly when it spells `k`. */
  lemma RecognisedIff(word: string, k: TokenType)
    ensures KeywordKind(ToUpper(word)) == Some(k) <==> IsKeyword(k) && ToUpper(word) == Spelling(k)
  {
    if IsKeyword(k) {
      KeywordKindComplete(k);
    }
  }

  /** A maximal run of letters that spells keyword `k` in any letter case sends `k` with the run's own spelling. */
  lemma KeywordStep(name: string, s: string, i: nat, j: nat, k: TokenType)
    requires i < j <= |s|
    requires forall m :: i <= m < j ==> IsLetter(s[m])
    requires j < |s| ==> !IsLetter(s[j])
    requires IsKeyword(k) && ToUpper(s[i..j]) == Spelling(k)
    ensures LexFrom(name, s, i) == Then([Token(k, s[i..j])], LexFrom(name, s, j))
  {
    RunEndUnique(s, i, j, Letters);
    LexWord(name, s, i);
    KeywordKindComplete(k);
  }

  /** A maximal run of letters that spells no keyword sends one Error token, and the scan stops. */
  lemma UnknownWordStep(name: string, s: string, i: nat, j: nat)
    requires i < j <= |s|
    requires forall m :: i <= m < j ==> IsLetter(s[m])
    requires j < |s| ==> !IsLetter(s[j])
    requires KeywordKind(ToUpper(s[i..j])) == None
    ensures LexFrom(name, s, i) == Scan([Token(Error, Diagnostic(name, UnknownKeyword, s[i..j]))], false)
  {
    RunEndUnique(s, i, j, Letters);
    LexWord(name, s, i);
  }

  /**
   * A maximal run of letters at a dispatch point: a keyword of the vocabulary
   * (in any letter case) is sent with its original spelling and lexing goes
   * on after it; any other word sends one Error token and nothing follows.
   */
  lemma KeywordRun(name: string, s: string, i: nat, j: nat)
    requires i < j <= |s|
    requires forall k :: i <= k < j ==> IsLetter(s[k])
    requires j < |s| ==> !IsLetter(s[j])
    ensures forall k :: IsKeyword(k) && ToUpper(s[i..j]) == Spelling(k) ==>
      LexFrom(name, s, i) == Then([Token(k, s[i..j])], LexFrom(name, s, j))
    ensures (forall k :: IsKeyword(k) ==> ToUpper(s[i..j]) != Spelling(k)) ==>
      LexFrom(name, s, i) == Scan([Token(Error, Diagnostic(name, UnknownKeyword, s[i..j]))], false)
  {
    forall k | IsKeyword(k) && ToUpper(s[i..j]) == Spelling(k)
      ensures LexFrom(name, s, i) == Then([Token(k, s[i..j])], LexFrom(name, s, j))
    {
      KeywordStep(name, s, i, j, k);
    }
    if KeywordKind(ToUpper(s[i..j])) == None {
      UnknownWordStep(name, s, i, j);
    }
  }

  // ---------------------------------------------------------------------------
  // Numbers

  predicate AllDigits(w: string) {
    forall k :: 0 <= k < |w| ==> IsDigit(w[k])
  }

  /** Number syntax: one or more digits, then optionally a `.` and zero or more digits. */
  predicate IsNumeral(w: string) {
    |w| > 0 && IsDigit(w[0]) &&
    (AllDigits(w) || exists d :: 0 < d < |w| && w[d] == '.' && AllDigits(w[..d]) && AllDigits(w[d + 1..]))
  }

  /**
   * A digit at a dispatch point sends one Number token whose literal is a
   * numeral, and the numeral is as long as possible: it is not followed by a
   * digit, nor by a `.` when it has none.
   */
  lemma NumberLexeme(name: string, s: string, i: nat)
    requires i < |s| && IsDigit(s[i])
    ensures var j := NumberEnd(s, i);
      && LexFrom(name, s, i) == Then([Token(Number, s[i..j])], LexFrom(name, s, j))
      && IsNumeral(s[i..j])
      && (j < |s| ==> !IsDigit(s[j]))
      && (j < |s| && AllDigits(s[i..j]) ==> s[j] != '.')
  {
    LexNumber(name, s, i);
    NumeralShape(s, i);
  }

  lemma NumeralShape(s: string, i: nat)
    requires i < |s| && IsDigit(s[i])
    ensures var j := NumberEnd(s, i);
      && IsNumeral(s[i..j])
      && (j < |s| ==> !IsDigit(s[j]))
      && (j < |s| && AllDigits(s[i..j]) ==> s[j] != '.')
  {
    var a := RunEnd(s, i, Digits);
    var j := NumberEnd(s, i);
    var w := s[i..j];
    assert i < a && IsDigit(w[0]);
    var lead := s[i..a];
    forall m | 0 <= m < |lead| ensures IsDigit(lead[m]) {
      assert lead[m] == s[i + m];
    }
    if a < |s| && s[a] == '.' {
      var d := a - i;
      assert j == RunEnd(s, a + 1, Digits);
      var frac := s[a + 1..j];
      forall m | 0 <= m < |frac| ensures IsDigit(frac[m]) {
        assert frac[m] == s[a + 1 + m];
      }
      assert w[..d] == lead && w[d + 1..] == frac;
      assert 0 < d < |w| && w[d] == '.';
      assert !AllDigits(w) by {
        assert !IsDigit(w[d]);
      }
    } else {
      assert j == a && w == lead;
    }
  }

  // ---------------------------------------------------------------------------
  // Quoted forms

  /** A quoted literal of delimiter `d`: `d`, anything but `d`, `d`. */
  predicate Delimited(w: string, d: char) {
    |w| >= 2 && w[0] == d && w[|w| - 1] == d && forall k :: 0 < k < |w| - 1 ==> w[k] != d
  }

  lemma DelimitedSlice(s: string, i: nat, k: nat)
    requires i < k < |s| && s[k] == s[i]
    requires forall m :: i < m < k ==> s[m] != s[i]
    ensures Delimited(s[i..k + 1], s[i])
  {
    var w := s[i..k + 1];
    forall m | 0 < m < |w| - 1 ensures w[m] != s[i] {
      assert w[m] == s[i + m];
    }
  }

  /**
   * A quote or backtick at a dispatch point: when a matching delimiter
   * follows, the first one closes a String (quote) or Literal (backtick)
   * token that includes both delimiters; when none follows, the lexer sends
   * nothing more and scans forever.
   */
  lemma QuotedLexeme(name: string, s: string, i: nat)
    requires i < |s| && (s[i] == '\'' || s[i] == '`')
    ensures forall k :: i < k < |s| && s[k] == s[i] && (forall m :: i < m < k ==> s[m] != s[i]) ==>
      && LexFrom(name, s, i) == Then([Token(if s[i] == '\'' then String else Literal, s[i..k + 1])], LexFrom(name, s, k + 1))
      && Delimited(s[i..k + 1], s[i])
    ensures (forall m :: i < m < |s| ==> s[m] != s[i]) ==> LexFrom(name, s, i) == Scan([], true)
  {
    forall k | i < k < |s| && s[k] == s[i] && (forall m :: i < m < k ==> s[m] != s[i])
      ensures LexFrom(name, s, i) == Then([Token(QuotedKind(s[i]), s[i..k + 1])], LexFrom(name, s, k + 1))
      ensures Delimited(s[i..k + 1], s[i])
    {
      QuoteClosesAt(name, s, i, k);
      DelimitedSlice(s, i, k);
    }
    if forall m :: i < m < |s| ==> s[m] != s[i] {
      QuoteUnclosed(name, s, i);
    }
  }

  // ---------------------------------------------------------------------------
  // Operators

  /**
   * `!` not followed by `=`, `>` followed by neither `=` nor space, and `<`
   * followed by none of `=`, space, `>`, send an Error token and then still
   * the Op token for the same rune, and lexing goes on after it.
   */
  lemma UnsupportedOperator(name: string, s: string, i: nat)
    requires i < |s|
    requires var n := RuneAt(s, i + 1);
      || (s[i] == '!' && n != '=')
      || (s[i] == '>' && n != '=' && n != ' ')
      || (s[i] == '<' && n != '=' && n != ' ' && n != '>')
    ensures LexFrom(name, s, i) ==
      Then([Token(Error, Diagnostic(name, UnsupportedOp, s[i..i + 1])), Token(Op, s[i..i + 1])], LexFrom(name, s, i + 1))
  {
    LexBinary(name, s, i);
  }

  /**
   * `!=`, `>=`, `> `, `<=`, `< ` and `<>`: the first rune is sent as an Op
   * token on its own, with no complaint, and lexing goes on at the second.
   */
  lemma SupportedOperator(name: string, s: string, i: nat)
    requires i < |s|
    requires var n := RuneAt(s, i + 1);
      || (s[i] == '!' && n == '=')
      || (s[i] == '>' && (n == '=' || n == ' '))
      || (s[i] == '<' && (n == '=' || n == ' ' || n == '>'))
    ensures LexFrom(name, s, i) == Then([Token(Op, s[i..i + 1])], LexFrom(name, s, i + 1))
  {
    LexBinary(name, s, i);
  }

  // ---------------------------------------------------------------------------
  // Each dispatch step, when it does not stop, sends some tokens and resumes
  // dispatch further on.

  /** The offset where dispatch resumes after the lexeme at `i`, if it does. */
  function Resume(s: string, i: nat): (j: Option<nat>)
    requires i < |s|
    ensures j.Some? ==> i < j.value <= |s|
  {
    match DispatchClass(s[i])
    case Quote =>
      var k := IndexRune(s[i + 1..], s[i]);
      if k < 0 then None else Some(i + k + 2)
    case Digit => Some(NumberEnd(s, i))
    case Letter =>
      var j := RunEnd(s, i, Letters);
      if KeywordKind(ToUpper(s[i..j])).Some? then Some(j) else None
    case Unknown => None
    case _ => Some(i + 1)
  }

  /** The tokens the lexeme at `i` sends before dispatch resumes. */
  function Sends(name: string, s: string, i: nat): seq<Token>
    requires i < |s| && Resume(s, i).Some?
  {
    var j := Resume(s, i).value;
    match DispatchClass(s[i])
    case Quote => [Token(QuotedKind(s[i]), s[i..j])]
    case Blank => []
    case Single(kind) => [Token(kind, s[i..i + 1])]
    case Binary => OperatorTokens(name, s, i)
    case Digit => [Token(Number, s[i..j])]
    case Letter => [Token(KeywordKind(ToUpper(s[i..j])).value, s[i..j])]
  }

  /** A dispatch step that does not stop sends `Sends` and resumes at `Resume`. */
  lemma StepResumes(name: string, s: string, i: nat)
    requires i < |s| && Resume(s, i).Some?
    ensures LexFrom(name, s, i) == Then(Sends(name, s, i), LexFrom(name, s, Resume(s, i).value))
  {
    match DispatchClass(s[i])
    case Quote => QuoteResumes(name, s, i);
    case Blank => LexBlank(name, s, i);
    case Single(_) => LexSingle(name, s, i);
    case Binary => LexBinary(name, s, i);
    case Digit => LexNumber(name, s, i);
    case Letter => WordResumes(name, s, i);
  }

  lemma QuoteResumes(name: string, s: string, i: nat)
    requires i < |s| && DispatchClass(s[i]) == Quote && Resume(s, i).Some?
    ensures LexFrom(name, s, i) == Then(Sends(name, s, i), LexFrom(name, s, Resume(s, i).value))
  {
    var j := i + IndexRune(s[i + 1..], s[i]) + 2;
    assert Resume(s, i) == Some(j);
    assert Sends(name, s, i) == [Token(QuotedKind(s[i]), s[i..j])];
    QuotedFromAt(name, s, i, j);
    LexQuote(name, s, i);
  }

  lemma WordResumes(name: string, s: string, i: nat)
    requires i < |s| && DispatchClass(s[i]) == Letter && Resume(s, i).Some?
    ensures LexFrom(name, s, i) == Then(Sends(name, s, i), LexFrom(name, s, Resume(s, i).value))
  {
    var j := RunEnd(s, i, Letters);
    assert Resume(s, i).value == j;
    assert Sends(name, s, i) == [Token(KeywordKind(ToUpper(s[i..j])).value, s[i..j])];
    LexWord(name, s, i);
  }

  /** A dispatch step that stops sends nothing, or a single Error token about an unknown word, and nothing after. */
  lemma StepStops(name: string, s: string, i: nat)
    requires i < |s| && Resume(s, i).None?
    ensures
      || LexFrom(name, s, i) == Scan([], true)
      || LexFrom(name, s, i) == Scan([], false)
      || exists w :: LexFrom(name, s, i) == Scan([Token(Error, Diagnostic(name, UnknownKeyword, w))], false)
  {
    if DispatchClass(s[i]) == Letter {
      LexWord(name, s, i);
      var j := RunEnd(s, i, Letters);
      assert LexFrom(name, s, i) == Scan([Token(Error, Diagnostic(name, UnknownKeyword, s[i..j]))], false);
    }
  }

  // ---------------------------------------------------------------------------
  // Every token sent is well formed

  /** The shape of each kind of token the lexer sends. */
  predicate WellFormed(t: Token) {
    match t.kind
    case EOF => t.literal == ""
    case Error => true
    case Star => t.literal == "*"
    case Sep => t.literal == ","
    case Op => |t.literal| == 1 && t.literal[0] in "=+-/!><"
    case Number => IsNumeral(t.literal)
    case String => Delimited(t.literal, '\'')
    case Literal => Delimited(t.literal, '`')
    case _ => IsKeyword(t.kind) && ToUpper(t.literal) == Spelling(t.kind)
  }

  predicate AllWellFormed(ts: seq<Token>) {
    forall k :: 0 <= k < |ts| ==> WellFormed(ts[k])
  }

  /** A keyword token of any letter case is well formed. */
  lemma KeywordWellFormed(t: Token)
    requires IsKeyword(t.kind) && ToUpper(t.literal) == Spelling(t.kind)
    ensures WellFormed(t)
  {
  }

  lemma QuotedWellFormed(s: string, i: nat, j: nat)
    requires i < |s| && DispatchClass(s[i]) == Quote
    requires var k := IndexRune(s[i + 1..], s[i]); k >= 0 && j == i + k + 2
    ensures WellFormed(Token(QuotedKind(s[i]), s[i..j]))
  {
    var c, rest := s[i], s[i + 1..];
    var k := j - i - 2;
    forall m | i < m < j - 1 ensures s[m] != c {
      assert s[m] == rest[..k][m - i - 1];
    }
    DelimitedSlice(s, i, j - 1);
  }

  lemma WordWellFormed(s: string, i: nat, j: nat)
    requires i < j <= |s| && KeywordKind(ToUpper(s[i..j])).Some?
    ensures WellFormed(Token(KeywordKind(ToUpper(s[i..j])).value, s[i..j]))
  {
    var w := s[i..j];
    KeywordWellFormed(Token(KeywordKind(ToUpper(w)).value, w));
  }

  /** The tokens of one step are well formed. */
  lemma SendsWellFormed(name: string, s: string, i: nat)
    requires i < |s| && Resume(s, i).Some?
    ensures AllWellFormed(Sends(name, s, i))
  {
    var j := Resume(s, i).value;
    match DispatchClass(s[i])
    case Quote =>
      var t := Token(QuotedKind(s[i]), s[i..j]);
      assert Sends(name, s, i) == [t];
      QuotedWellFormed(s, i, j);
      OneWellFormed(t);
    case Blank =>
    case Single(kind) =>
      var t := Token(kind, s[i..i + 1]);
      assert Sends(name, s, i) == [t];
      SingleWellFormed(s, i);
      OneWellFormed(t);
    case Binary =>
      assert Sends(name, s, i) == OperatorTokens(name, s, i);
      OperatorWellFormed(name, s, i);
    case Digit =>
      var t := Token(Number, s[i..j]);
      assert Sends(name, s, i) == [t];
      NumeralShape(s, i);
      OneWellFormed(t);
    case Letter =>
      var t := Token(KeywordKind(ToUpper(s[i..j])).value, s[i..j]);
      assert Sends(name, s, i) == [t];
      WordWellFormed(s, i, j);
      OneWellFormed(t);
    case Unknown =>
  }

  lemma OneWellFormed(t: Token)
    requires WellFormed(t)
    ensures AllWellFormed([t])
  {
  }

  /** The one-rune token of a Star, Sep or Op rune is well formed. */
  lemma SingleWellFormed(s: string, i: nat)
    requires i < |s| && DispatchClass(s[i]).Single?
    ensures WellFormed(Token(DispatchClass(s[i]).kind, s[i..i + 1]))
  {
    assert s[i..i + 1] == [s[i]];
  }

  /** The tokens of `!`, `>` or `<` are well formed: an Error token, then an Op token. */
  lemma OperatorWellFormed(name: string, s: string, i: nat)
    requires i < |s| && DispatchClass(s[i]) == Binary
    ensures AllWellFormed(OperatorTokens(name, s, i))
  {
    assert s[i..i + 1] == [s[i]];
  }

  /** A stopping step sends nothing, or one Error token. */
  lemma StopWellFormed(name: string, s: string, i: nat)
    requires i < |s| && Resume(s, i).None?
    ensures AllWellFormed(LexFrom(name, s, i).tokens)
  {
    StepStops(name, s, i);
  }

  lemma PrependWellFormed(prefix: seq<Token>, r: Scan)
    requires AllWellFormed(prefix) && AllWellFormed(r.tokens)
    ensures AllWellFormed(Then(prefix, r).tokens)
  {
    var t := Then(prefix, r).tokens;
    forall k | 0 <= k < |t| ensures WellFormed(t[k]) {
      if k >= |prefix| {
        assert t[k] == r.tokens[k - |prefix|];
      }
    }
  }

  /** Every token sent has the shape of its kind. */
  lemma {:induction false} TokensWellFormed(name: string, s: string, i: nat)
    requires i <= |s|
    ensures AllWellFormed(LexFrom(name, s, i).tokens)
    decreases |s| - i
  {
    if i < |s| {
      var next := Resume(s, i);
      if next.Some? {
        StepResumes(name, s, i);
        TokensWellFormed(name, s, next.value);
        SendsWellFormed(name, s, i);
        PrependWellFormed(Sends(name, s, i), LexFrom(name, s, next.value));
      } else {
        StopWellFormed(name, s, i);
      }
    }
  }

  lemma WellFormedProduced(t: Token)
    requires WellFormed(t)
    ensures !NeverProduced(t.kind)
  {
  }

  /** No token sent has one of the kinds the lexer never produces. */
  lemma OnlyProducedKinds(name: string, s: string)
    ensures forall k :: 0 <= k < |Lex(name, s).tokens| ==> !NeverProduced(Lex(name, s).tokens[k].kind)
  {
    var ts := Lex(name, s).tokens;
    TokensWellFormed(name, s, 0);
    forall k | 0 <= k < |ts| ensures !NeverProduced(ts[k].kind) {
      WellFormedProduced(ts[k]);
    }
  }

  // ---------------------------------------------------------------------------
  // Where EOF and Error tokens can stand

  /**
   * EOF is only ever the last token, and only of a scan that ends; an Error
   * token is either the last token or the complaint about the operator
   * whose Op token comes right after it.
   */
  ghost predicate TerminalsInPlace(name: string, r: Scan) {
    && (forall k :: 0 <= k < |r.tokens| && r.tokens[k].kind == EOF ==> k == |r.tokens| - 1 && !r.endless)
    && (forall k :: 0 <= k < |r.tokens| - 1 && r.tokens[k].kind == Error ==>
          r.tokens[k + 1].kind == Op && r.tokens[k].literal == Diagnostic(name, UnsupportedOp, r.tokens[k + 1].literal))
  }

  lemma PrependPlain(name: string, t: Token, r: Scan)
    requires t.kind != EOF && t.kind != Error
    requires TerminalsInPlace(name, r)
    ensures TerminalsInPlace(name, Then([t], r))
  {
    var u := Then([t], r).tokens;
    forall k | 1 <= k < |u| ensures u[k] == r.tokens[k - 1] {
    }
  }

  lemma PrependComplaint(name: string, e: Token, r: Scan)
    requires e.kind == Error && |r.tokens| > 0 && r.tokens[0].kind == Op
    requires e.literal == Diagnostic(name, UnsupportedOp, r.tokens[0].literal)
    requires TerminalsInPlace(name, r)
    ensures TerminalsInPlace(name, Then([e], r))
  {
    var u := Then([e], r).tokens;
    forall k | 1 <= k < |u| ensures u[k] == r.tokens[k - 1] {
    }
  }

  /** Sending one step's tokens in front of a scan keeps EOF and Error in place. */
  lemma SendsInPlace(name: string, s: string, i: nat, r: Scan)
    requires i < |s| && Resume(s, i).Some?
    requires TerminalsInPlace(name, r)
    ensures TerminalsInPlace(name, Then(Sends(name, s, i), r))
  {
    var c := s[i];
    match DispatchClass(c)
    case Blank =>
      assert Then([], r) == r;
    case Binary => OperatorInPlace(name, s, i, r);
    case Single(kind) => PrependPlain(name, Token(kind, s[i..i + 1]), r);
    case Quote => PrependPlain(name, Sends(name, s, i)[0], r);
    case Digit => PrependPlain(name, Sends(name, s, i)[0], r);
    case Letter =>
      var j := RunEnd(s, i, Letters);
      assert KeywordKind(ToUpper(s[i..j])).Some?;
      PrependPlain(name, Sends(name, s, i)[0], r);
  }

  /** The operator tokens, with or without their complaint, keep EOF and Error in place. */
  lemma OperatorInPlace(name: string, s: string, i: nat, r: Scan)
    requires i < |s| && TerminalsInPlace(name, r)
    ensures TerminalsInPlace(name, Then(OperatorTokens(name, s, i), r))
  {
    var op := Token(Op, s[i..i + 1]);
    PrependPlain(name, op, r);
    if !OpLookaheadOk(s[i], RuneAt(s, i + 1)) {
      var e := Token(Error, Diagnostic(name, UnsupportedOp, s[i..i + 1]));
      PrependComplaint(name, e, Then([op], r));
      assert Then([e], Then([op], r)) == Then([e, op], r);
    }
  }

  lemma StopInPlace(name: string, s: string, i: nat)
    requires i < |s| && Resume(s, i).None?
    ensures TerminalsInPlace(name, LexFrom(name, s, i))
  {
    StepStops(name, s, i);
  }

  lemma {:induction false} TerminalsOrdered(name: string, s: string, i: nat)
    requires i <= |s|
    ensures TerminalsInPlace(name, LexFrom(name, s, i))
    decreases |s| - i
  {
    if i < |s| {
      var next := Resume(s, i);
      if next.Some? {
        StepResumes(name, s, i);
        TerminalsOrdered(name, s, next.value);
        SendsInPlace(name, s, i, LexFrom(name, s, next.value));
      } else {
        StopInPlace(name, s, i);
      }
    }
  }
}
