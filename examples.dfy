/**
 * Concrete scans.  The query is the input of TestLex (lex_test.go:20); the
 * short inputs show each kind of lexeme, each way scanning stops and the
 * operator complaints.
 *
 * Facts about literal text are proved apart from any scan, and each scan
 * step is stated for every input with the right text at the right place,
 * so that the solver never has to evaluate the lexer over a whole literal.
 */
module Examples {
  import opened Tokens
  import opened Runes
  import opened Grammar
  import opened Properties

  const Eof: Token := Token(EOF, "")
  const Ended: Scan := Scan([Eof], false)

  predicate AllLetters(w: string) {
    forall m :: 0 <= m < |w| ==> IsLetter(w[m])
  }

  // The words used below, upper-cased, one lemma each.

  lemma SelectSpelled()
    ensures IsKeyword(Select) && AllLetters("select") && ToUpper("select") == Spelling(Select)
  {
  }

  lemma MixedSelectSpelled()
    ensures IsKeyword(Select) && AllLetters("SeLeCt") && ToUpper("SeLeCt") == Spelling(Select)
  {
  }

  lemma FromSpelled()
    ensures IsKeyword(From) && AllLetters("from") && ToUpper("from") == Spelling(From)
  {
  }

  lemma WhereSpelled()
    ensures IsKeyword(Where) && AllLetters("where") && ToUpper("where") == Spelling(Where)
  {
  }

  lemma XyzUnknown()
    ensures AllLetters("xyz") && KeywordKind(ToUpper("xyz")) == None
  {
  }

  // ---------------------------------------------------------------------------
  // One lexeme at a known place

  /** The letters of a word `w` at offset `i` are letters of `s`. */
  lemma LettersAt(s: string, i: nat, j: nat, w: string)
    requires j == i + |w| <= |s| && s[i..j] == w && AllLetters(w)
    ensures forall m :: i <= m < j ==> IsLetter(s[m])
  {
    forall m | i <= m < j ensures IsLetter(s[m]) {
      assert s[m] == w[m - i];
    }
  }

  /** A keyword `w` at offset `i`, not followed by a letter. */
  lemma WordAt(name: string, s: string, i: nat, j: nat, w: string, k: TokenType)
    requires j == i + |w| <= |s| && s[i..j] == w
    requires |w| > 0 && AllLetters(w)
    requires j < |s| ==> !IsLetter(s[j])
    requires IsKeyword(k) && ToUpper(w) == Spelling(k)
    ensures LexFrom(name, s, i) == Then([Token(k, w)], LexFrom(name, s, j))
  {
    LettersAt(s, i, j, w);
    KeywordStep(name, s, i, j, k);
  }

  /** A word `w` outside the vocabulary at offset `i`, not followed by a letter. */
  lemma BadWordAt(name: string, s: string, i: nat, j: nat, w: string)
    requires j == i + |w| <= |s| && s[i..j] == w
    requires |w| > 0 && AllLetters(w)
    requires j < |s| ==> !IsLetter(s[j])
    requires KeywordKind(ToUpper(w)) == None
    ensures LexFrom(name, s, i) == Scan([Token(Error, Diagnostic(name, UnknownKeyword, w))], false)
  {
    LettersAt(s, i, j, w);
    UnknownWordStep(name, s, i, j);
  }

  /** A quoted form `w` at offset `i`. */
  lemma QuotedAt(name: string, s: string, i: nat, j: nat, w: string)
    requires j == i + |w| <= |s| && s[i..j] == w
    requires |w| >= 2 && (w[0] == '\'' || w[0] == '`') && w[|w| - 1] == w[0]
    requires forall m :: 0 < m < |w| - 1 ==> w[m] != w[0]
    ensures LexFrom(name, s, i) == Then([Token(QuotedKind(w[0]), w)], LexFrom(name, s, j))
  {
    DelimitedAt(s, i, j, w);
    QuoteClosesAt(name, s, i, j - 1);
  }

  /** The facts about `s` that a quoted form `w` at offset `i` gives. */
  lemma DelimitedAt(s: string, i: nat, j: nat, w: string)
    requires j == i + |w| <= |s| && s[i..j] == w
    requires |w| >= 2 && (w[0] == '\'' || w[0] == '`') && w[|w| - 1] == w[0]
    requires forall m :: 0 < m < |w| - 1 ==> w[m] != w[0]
    ensures i < j - 1 < |s| && DispatchClass(s[i]) == Quote && s[j - 1] == s[i] && w[0] == s[i]
    ensures forall m :: i < m < j - 1 ==> s[m] != s[i]
  {
    assert s[i] == w[0] && s[j - 1] == w[|w| - 1];
    forall m | i < m < j - 1 ensures s[m] != s[i] {
      assert s[m] == w[m - i];
    }
  }

  /** A one-rune token `c` at offset `i + 1` with a blank on each side. */
  lemma SpacedAt(name: string, s: string, i: nat, c: char, kind: TokenType)
    requires i + 3 <= |s| && s[i] == ' ' && s[i + 1] == c && s[i + 2] == ' '
    requires DispatchClass(c) == Single(kind)
    ensures LexFrom(name, s, i) == Then([Token(kind, [c])], LexFrom(name, s, i + 3))
  {
    assert s[i + 1..i + 2] == [c];
    LexBlank(name, s, i);
    LexSingle(name, s, i + 1);
    LexBlank(name, s, i + 2);
  }

  lemma ThenEnded(t: Token)
    ensures Then([t], Ended) == Scan([t, Eof], false)
  {
    assert [t] + [Eof] == [t, Eof];
  }

  /** An input that is a single keyword. */
  lemma OnlyWord(name: string, w: string, k: TokenType)
    requires |w| > 0 && AllLetters(w)
    requires IsKeyword(k) && ToUpper(w) == Spelling(k)
    ensures Lex(name, w) == Scan([Token(k, w), Eof], false)
  {
    assert w[0..|w|] == w;
    LexEnd(name, w);
    WordAt(name, w, 0, |w|, w, k);
    ThenEnded(Token(k, w));
  }

  /** An input that is a single quoted form. */
  lemma OnlyQuoted(name: string, w: string)
    requires |w| >= 2 && (w[0] == '\'' || w[0] == '`') && w[|w| - 1] == w[0]
    requires forall m :: 0 < m < |w| - 1 ==> w[m] != w[0]
    ensures Lex(name, w) == Scan([Token(QuotedKind(w[0]), w), Eof], false)
  {
    assert w[0..|w|] == w;
    LexEnd(name, w);
    QuotedAt(name, w, 0, |w|, w);
    ThenEnded(Token(QuotedKind(w[0]), w));
  }

  // ---------------------------------------------------------------------------
  // Keywords in any letter case keep their spelling

  lemma LowerKeyword()
    ensures Lex("t", "select") == Scan([Token(Select, "select"), Eof], false)
  {
    SelectSpelled();
    OnlyWord("t", "select", Select);
  }

  lemma MixedKeyword()
    ensures Lex("t", "SeLeCt") == Scan([Token(Select, "SeLeCt"), Eof], false)
  {
    MixedSelectSpelled();
    OnlyWord("t", "SeLeCt", Select);
  }

  /** A word outside the vocabulary stops the scan after one Error token, without EOF. */
  lemma UnknownWord()
    ensures Lex("t", "xyz 1") == Scan([Token(Error, Diagnostic("t", UnknownKeyword, "xyz"))], false)
  {
    var s := "xyz 1";
    assert s[0..3] == "xyz" && s[3] == ' ';
    XyzUnknown();
    BadWordAt("t", s, 0, 3, "xyz");
  }

  // ---------------------------------------------------------------------------
  // Numbers

  lemma Integer()
    ensures Lex("t", "123") == Scan([Token(Number, "123"), Eof], false)
  {
    var s := "123";
    assert RunEnd(s, 0, Digits) == 3;
    assert NumberEnd(s, 0) == 3;
    assert s[0..3] == s;
    LexNumber("t", s, 0);
    assert LexFrom("t", s, 3) == Ended;
  }

  lemma Decimal()
    ensures Lex("t", "12.5") == Scan([Token(Number, "12.5"), Eof], false)
  {
    var s := "12.5";
    assert RunEnd(s, 0, Digits) == 2;
    assert RunEnd(s, 3, Digits) == 4;
    assert NumberEnd(s, 0) == 4;
    assert s[0..4] == s;
    LexNumber("t", s, 0);
    assert LexFrom("t", s, 4) == Ended;
  }

  /** A trailing dot belongs to the number. */
  lemma TrailingDot()
    ensures Lex("t", "12.") == Scan([Token(Number, "12."), Eof], false)
  {
    var s := "12.";
    assert RunEnd(s, 0, Digits) == 2;
    assert RunEnd(s, 3, Digits) == 3;
    assert NumberEnd(s, 0) == 3;
    assert s[0..3] == s;
    LexNumber("t", s, 0);
    assert LexFrom("t", s, 3) == Ended;
  }

  // ---------------------------------------------------------------------------
  // Quoted forms

  lemma QuotedString()
    ensures Lex("t", "'abc'") == Scan([Token(String, "'abc'"), Eof], false)
  {
    OnlyQuoted("t", "'abc'");
  }

  lemma QuotedName()
    ensures Lex("t", "`table`") == Scan([Token(Literal, "`table`"), Eof], false)
  {
    OnlyQuoted("t", "`table`");
  }

  /** An unclosed quote sends nothing and the scan never ends. */
  lemma UnclosedString()
    ensures Lex("t", "'abc") == Scan([], true)
  {
    QuoteUnclosed("t", "'abc", 0);
  }

  lemma UnclosedName()
    ensures Lex("t", "`abc") == Scan([], true)
  {
    QuoteUnclosed("t", "`abc", 0);
  }

  // ---------------------------------------------------------------------------
  // Operators and the silent stop

  /** A lone `!` is complained about, then sent as an operator all the same. */
  lemma LoneBang()
    ensures Lex("t", "!") == Scan([Token(Error, Diagnostic("t", UnsupportedOp, "!")), Token(Op, "!"), Eof], false)
  {
    var s := "!";
    assert s[0..1] == s && RuneAt(s, 1) == RuneError;
    UnsupportedOperator("t", s, 0);
    assert LexFrom("t", s, 1) == Ended;
  }

  /** In `<>` the `<` is fine, but the `>` at the end of the input is not. */
  lemma NotEqualSign()
    ensures Lex("t", "<>") ==
      Scan([Token(Op, "<"), Token(Error, Diagnostic("t", UnsupportedOp, ">")), Token(Op, ">"), Eof], false)
  {
    var s := "<>";
    assert s[0..1] == "<" && s[1..2] == ">" && RuneAt(s, 1) == '>' && RuneAt(s, 2) == RuneError;
    assert OperatorTokens("t", s, 0) == [Token(Op, "<")];
    LexBinary("t", s, 0);
    UnsupportedOperator("t", s, 1);
    assert LexFrom("t", s, 2) == Ended;
  }

  /** A rune no state handles ends the scan, with no EOF token. */
  lemma SilentStop()
    ensures Lex("t", "* ; *") == Scan([Token(Star, "*")], false)
  {
    var s := "* ; *";
    assert s[0..1] == "*";
    LexSingle("t", s, 0);
    LexBlank("t", s, 1);
    LexUnknown("t", s, 2);
  }

  // ---------------------------------------------------------------------------
  // The TestLex query, lexeme by lexeme

  const Query: string := "select * from `table` where `a` = xyz"

  // The text of the query around each lexeme, one lemma each.

  lemma QuerySelectText()
    ensures |Query| == 37 && Query[0..6] == "select" && Query[6] == ' '
  {
    assert Query[0] == 's' && Query[1] == 'e' && Query[2] == 'l' && Query[3] == 'e' && Query[4] == 'c' && Query[5] == 't';
  }

  lemma QueryStarText()
    ensures Query[6] == ' ' && Query[7] == '*' && Query[8] == ' '
  {
  }

  lemma QueryFromText()
    ensures Query[9..13] == "from" && Query[13] == ' '
  {
    assert Query[9] == 'f' && Query[10] == 'r' && Query[11] == 'o' && Query[12] == 'm';
  }

  lemma QueryTableText()
    ensures Query[13] == ' ' && Query[14..21] == "`table`"
  {
    assert Query[14] == '`' && Query[15] == 't' && Query[16] == 'a' && Query[17] == 'b';
    assert Query[18] == 'l' && Query[19] == 'e' && Query[20] == '`';
  }

  lemma QueryWhereText()
    ensures Query[21] == ' ' && Query[22..27] == "where" && Query[27] == ' '
  {
    assert Query[22] == 'w' && Query[23] == 'h' && Query[24] == 'e' && Query[25] == 'r' && Query[26] == 'e';
  }

  lemma QueryAText()
    ensures Query[27] == ' ' && Query[28..31] == "`a`"
  {
    assert Query[28] == '`' && Query[29] == 'a' && Query[30] == '`';
  }

  lemma QueryEqualsText()
    ensures Query[31] == ' ' && Query[32] == '=' && Query[33] == ' '
  {
  }

  lemma QueryXyzText()
    ensures |Query| == 37 && Query[34..37] == "xyz"
  {
    assert Query[34] == 'x' && Query[35] == 'y' && Query[36] == 'z';
  }

  // The scan of any input with the query's text around one lexeme, one lemma each.

  lemma QuerySelect(s: string)
    requires |s| == 37 && s[0..6] == "select" && s[6] == ' '
    ensures LexFrom("test", s, 0) == Then([Token(Select, "select")], LexFrom("test", s, 6))
  {
    SelectSpelled();
    WordAt("test", s, 0, 6, "select", Select);
  }

  lemma StarIsSingle()
    ensures DispatchClass('*') == Single(Star) && DispatchClass('=') == Single(Op)
  {
  }

  lemma QueryStar(s: string)
    requires |s| == 37 && s[6] == ' ' && s[7] == '*' && s[8] == ' '
    ensures LexFrom("test", s, 6) == Then([Token(Star, "*")], LexFrom("test", s, 9))
  {
    StarIsSingle();
    SpacedAt("test", s, 6, '*', Star);
  }

  lemma QueryFrom(s: string)
    requires |s| == 37 && s[9..13] == "from" && s[13] == ' '
    ensures LexFrom("test", s, 9) == Then([Token(From, "from")], LexFrom("test", s, 13))
  {
    FromSpelled();
    WordAt("test", s, 9, 13, "from", From);
  }

  lemma QueryTable(s: string)
    requires |s| == 37 && s[13] == ' ' && s[14..21] == "`table`"
    ensures LexFrom("test", s, 13) == Then([Token(Literal, "`table`")], LexFrom("test", s, 21))
  {
    LexBlank("test", s, 13);
    QuotedAt("test", s, 14, 21, "`table`");
  }

  lemma QueryWhere(s: string)
    requires |s| == 37 && s[21] == ' ' && s[22..27] == "where" && s[27] == ' '
    ensures LexFrom("test", s, 21) == Then([Token(Where, "where")], LexFrom("test", s, 27))
  {
    WhereSpelled();
    LexBlank("test", s, 21);
    WordAt("test", s, 22, 27, "where", Where);
  }

  lemma QueryA(s: string)
    requires |s| == 37 && s[27] == ' ' && s[28..31] == "`a`"
    ensures LexFrom("test", s, 27) == Then([Token(Literal, "`a`")], LexFrom("test", s, 31))
  {
    LexBlank("test", s, 27);
    QuotedAt("test", s, 28, 31, "`a`");
  }

  lemma QueryEquals(s: string)
    requires |s| == 37 && s[31] == ' ' && s[32] == '=' && s[33] == ' '
    ensures LexFrom("test", s, 31) == Then([Token(Op, "=")], LexFrom("test", s, 34))
  {
    StarIsSingle();
    SpacedAt("test", s, 31, '=', Op);
  }

  lemma QueryXyz(s: string)
    requires |s| == 37 && s[34..37] == "xyz"
    ensures LexFrom("test", s, 34) == Scan([Token(Error, Diagnostic("test", UnknownKeyword, "xyz"))], false)
  {
    XyzUnknown();
    BadWordAt("test", s, 34, 37, "xyz");
  }

  /** The scan of any input that has the query's text at the query's offsets. */
  lemma QueryScan(s: string)
    requires |s| == 37 && s[0..6] == "select" && s[6] == ' ' && s[7] == '*' && s[8] == ' '
    requires s[9..13] == "from" && s[13] == ' ' && s[14..21] == "`table`" && s[21] == ' '
    requires s[22..27] == "where" && s[27] == ' ' && s[28..31] == "`a`" && s[31] == ' '
    requires s[32] == '=' && s[33] == ' ' && s[34..37] == "xyz"
    ensures Lex("test", s) == Scan([
      Token(Select, "select"), Token(Star, "*"), Token(From, "from"), Token(Literal, "`table`"),
      Token(Where, "where"), Token(Literal, "`a`"), Token(Op, "="),
      Token(Error, Diagnostic("test", UnknownKeyword, "xyz"))], false)
  {
    QuerySelect(s);
    QueryStar(s);
    QueryFrom(s);
    QueryTable(s);
    QueryWhere(s);
    QueryA(s);
    QueryEquals(s);
    QueryXyz(s);
  }

  /**
   * The TestLex query: seven tokens, then the Error token about `xyz`, and
   * the channel is closed with no EOF token.
   */
  lemma TestLexQuery()
    ensures Lex("test", Query) == Scan([
      Token(Select, "select"), Token(Star, "*"), Token(From, "from"), Token(Literal, "`table`"),
      Token(Where, "where"), Token(Literal, "`a`"), Token(Op, "="),
      Token(Error, Diagnostic("test", UnknownKeyword, "xyz"))], false)
  {
    QuerySelectText();
    QueryStarText();
    QueryFromText();
    QueryTableText();
    QueryWhereText();
    QueryAText();
    QueryEqualsText();
    QueryXyzText();
    QueryScan(Query);
  }
}
