# A verified model of the gps SQL lexer

This project models `lex.go` of onesuper/gps in Dafny. It is a hand-written SQL lexer built as a state
machine: a cursor (`start`, `pos`) over the input text, scanning primitives (`next`, `peek`, `accept`,
`ignore`, `backup`, `cache`, `emit`, `errorf`), the state functions `expectAny`, `expectKeyword`,
`expectString`, `expectLiteral` and `expectNumber`, the driver `transform` that runs them, the pull API
`NewLexer`/`Tokenize`, and the display function `Token.String`.

The project has seven modules:

- `Tokens` (tokens.dfy): the 39 token kinds, `Token`, the 18-keyword vocabulary and its switch, and `Token.String`.
- `Runes` (runes.dfy): decoding the next rune, the ASCII letter and digit classes, `strings.ToUpper` and `strings.IndexRune`.
- `Grammar` (grammar.dfy): the reference definition `LexFrom`. It says, lexeme by lexeme, which tokens the
  lexer sends from a dispatch point and whether it then stops (closing its channel) or scans forever.
  It also holds the error-message formatting of `errorf`, `fmt.Sprintf` included.
- `Lexing` (lexer.dfy): the imperative lexer. `Lexer` is a class whose fields are the cursor and the tokens
  sent so far. `Cache`, `Peek` and `Accept`, which only read the cursor, are functions; the other primitives
  and every state are methods. Each state method that hands over to another state is proved to keep
  `Then(tokens, LexFrom(name, input, start))` unchanged; one that returns nil is proved to have sent
  all of it, closing the scan. The driver `Transform` is proved to send
  exactly what `Lex(name, input)` predicts.
- `Sessions` (session.dfy): `NewLexer` and `Tokenize`. The goroutine's channel becomes the sequence the
  lexer sent, plus whether the channel was closed.
- `Properties` (properties.dfy): what the lexer promises about its output, proved of `LexFrom`. This covers
  whitespace, keywords in any letter case, number shape, quoted forms, unsupported operators, the shape
  of every token, the kinds never produced, and where EOF and Error tokens can stand.
- `Examples` (examples.dfy): concrete scans, including the query of `TestLex`.

Points where the model settles something the code leaves open:

- **Backtick literals.** `expectLiteral` (lex.go:293) sends `Token{t, l.cache()}` with an identifier `t`
  that is not defined there. The model sends a `Literal` token, as every other state does with its own kind.
- **Unclosed quotes.** At the end of the input `next` returns `RuneError` without moving. An unclosed quote
  therefore makes `expectString`/`expectLiteral` return themselves forever. The model keeps this
  behaviour and does not bound it. `Transform` sees that a state returned itself with nothing changed
  and reports `endless`. `LexFrom` gives `Scan(…, endless := true)`. `Tokenize` then yields `Blocked`.
- **Error messages.** These follow the code's `fmt.Sprintf("ERROR: %s: %s", name, format)` and then
  `fmt.Sprintf(prefixed, arg)`. The keyword format `"keyword doesn't exsit: %s"` (spelled as in the code)
  gets the word in place of `%s`. The operator format `"unsupported op: "` has no verb, so fmt appends
  `%!(EXTRA string=<op>)`.
- **The comma case.** `expectAny` calls itself directly after a comma (lex.go:200) instead of returning to
  the driver. `Lexing.Lexer.ExpectAny` does the same by recursion.
- **The closed channel.** Once the lexer has closed its channel, a `Tokenize` call receives Go's zero
  `Token`, whose kind is `Error`, and reports the error "Error".

## Model

| member | source | states |
|---|---|---|
| Tokens.KeywordKind | lex.go:238-278 | a word the switch recognises is a keyword kind whose upper-case spelling is that word |
| Tokens.Render | lex.go:62-70 | `Token.String`: EOF shows as the text "EOF", an Error token as its bare message, every other kind as its quoted literal |
| Runes.DecodeRune | lex.go:136 | the definition that stands in for `utf8.DecodeRuneInString` on code points: the first rune and width 1, or `RuneError` and width 0 on empty text |
| Runes.DecodeRuneSplits | lex.go:136 | the width is within the text and is 0 exactly on empty text, where the rune is `RuneError`; otherwise the decoded rune followed by the text after its width is the text again |
| Runes.RuneAt | lex.go:150 | the rune `peek` sees at an offset: the rune there, or `RuneError` at the end |
| Runes.IsLetter | lex.go:225 | the letter class of the dispatch switch and of the keyword loop (lex.go:234): the ASCII letters `a`-`z` and `A`-`Z` |
| Runes.IsDigit | lex.go:222 | the digit class of the dispatch switch and of the number loops (lex.go:302, 308): the ASCII digits `0`-`9` |
| Runes.RunEnd | lex.go:234-236 | the loop of the keyword and number states stops at the end of the maximal run: every rune before it is in the class, and the rune at it is not |
| Runes.ToUpper | lex.go:238 | `strings.ToUpper` keeps the length and upper-cases each ASCII letter in place |
| Runes.UpperRune | lex.go:238 | lower-case ASCII letters map to upper case (code point minus 32); other runes are unchanged |
| Runes.IndexRune | lex.go:157 | `strings.IndexRune`: -1 exactly when the rune is absent, otherwise the offset of its first occurrence |
| Grammar.FirstVerbFinds | lex.go:164-167 | the verb search finds a `%s` exactly when the format has one, and the earliest one |
| Grammar.DiagnosticExtra | lex.go:164-167 | with a verb-less format, `errorf`'s message is "ERROR: name: " + format + "%!(EXTRA string=" + arg + ")" |
| Grammar.DiagnosticVerb | lex.go:164-167 | with a format ending in its only `%s`, `errorf`'s message is "ERROR: name: " + format text + arg |
| Grammar.UnknownText | lex.go:276 | the unknown-word message is "ERROR: name: keyword doesn't exsit: " followed by the word |
| Grammar.Sprintf | lex.go:165-166 | `fmt.Sprintf` with one string argument: the first `%s` of the format is replaced by the argument; with none, `%!(EXTRA string=arg)` is appended |
| Grammar.Diagnostic | lex.go:164-167 | the message of `errorf`: "ERROR: ", the session name, ": " and the format, then formatted with the argument |
| Grammar.NumberEnd | lex.go:302-310 | the end of the numeral the number state consumes, within the input, and past the start when the start is a digit |
| Grammar.DispatchClass | lex.go:187-230 | the case of the dispatch switch a rune falls in; a one-rune token such a case sends is Star, Sep or Op |
| Grammar.OpLookaheadOk | lex.go:205-217 | the three lookahead tests: after `!` only `=` is supported; after `>`, `=` or a space; after `<`, `=`, a space or `>` |
| Grammar.OperatorTokens | lex.go:204-221 | the tokens a `!`, `>` or `<` sends: the complaint when the lookahead is unsupported, then the Op token |
| Grammar.LexFrom | lex.go:181-231 | the reference definition of dispatch: EOF and close at the end of the input, and one case per class of rune as the switch has them |
| Grammar.Lex | lex.go:173-178 | the whole session: `transform` starting from `expectAny` at offset 0, as `NewLexer` starts it (lex.go:86) |
| Grammar.QuotedFrom | lex.go:282-299 | the reference definition of the quoted states: the token up to the first matching delimiter, or endless without one |
| Grammar.NumberFrom | lex.go:301-313 | the reference definition of the number state: one Number token up to `NumberEnd`, then dispatch |
| Grammar.WordFrom | lex.go:233-280 | the reference definition of the keyword state: the keyword token and dispatch, or the Error token and stop |
| Grammar.QuoteClosesAt | lex.go:282-299 | a quote whose first matching delimiter after it is at offset `k` sends one String/Literal token spanning both delimiters, and lexing resumes after `k` |
| Grammar.QuoteUnclosed | lex.go:282-299 | a quote with no matching delimiter after it sends nothing more and scans forever |
| Lexing.Lexer.constructor | lex.go:80-88 | a new lexer has its cursor at offset 0 and has sent nothing |
| Lexing.Lexer.Cache | lex.go:125-127 | the pending text is the input between `start` and `pos`, rune for rune |
| Lexing.Lexer.Emit | lex.go:120-123 | sends a token of the given kind whose literal is the pending text, and sets `start` to `pos` |
| Lexing.Lexer.Ignore | lex.go:130-132 | drops the pending text (`start` becomes `pos`) without sending anything |
| Lexing.Lexer.Next | lex.go:135-140 | returns the rune at `pos` and moves past it; at the end of the input returns `RuneError` and does not move |
| Lexing.Lexer.Backup | lex.go:143-146 | moves `pos` back to `start` |
| Lexing.Lexer.Peek | lex.go:149-153 | the rune at `pos` (`RuneError` at the end), without moving |
| Lexing.Lexer.Accept | lex.go:156-161 | true exactly when the next rune is one of `valid` |
| Lexing.Lexer.Errorf | lex.go:164-167 | sends one Error token carrying the formatted message; the cursor does not move |
| Lexing.Lexer.EmitOperator | lex.go:204-221 | sends the complaint when the lookahead is unsupported, then the Op token; what the session will send is unchanged |
| Lexing.Lexer.EmitSingle | lex.go:195-203 | sends the one-rune Star, Sep or Op token just read; what the session will send is unchanged |
| Lexing.Lexer.ExpectAny | lex.go:181-231 | dispatch either hands over to a state that is ready to run and keeps what the session will send, or stops having sent all of it; per case of the switch, the state it returns, where the cursor ends and exactly the tokens it appends (EOF at the end, the one-rune token, the operator tokens, none on a quote, digit, letter or unknown rune; after a comma, its token and then dispatch from the next offset) |
| Lexing.Lexer.ExpectKeyword | lex.go:233-280 | consumes the maximal letter run (`pos` is its end); a keyword appends its token with the run's spelling and dispatch resumes, any other word appends the unknown-keyword Error token and ends the scan, exactly as `LexFrom` predicts |
| Lexing.Lexer.ExpectQuoted | lex.go:282-299 | one rune of a quoted form: at the closing delimiter appends the String/Literal token from the opening to the closing delimiter, sets `start` and `pos` past it and resumes dispatch; otherwise the rune read was not the delimiter and it stays, having moved one rune, or at the end of the input stays unchanged, where the scan is endless |
| Lexing.Lexer.ExpectString | lex.go:282-289 | `ExpectQuoted` for `'`: at the closing quote appends the String token of the quoted text and resumes dispatch; otherwise the rune read was not `'` and it stays |
| Lexing.Lexer.ExpectLiteral | lex.go:291-299 | `ExpectQuoted` for a backtick: at the closing backtick appends the Literal token of the quoted text and resumes dispatch; otherwise the rune read was not a backtick and it stays |
| Lexing.Lexer.ExpectNumber | lex.go:301-313 | consumes digits, an optional `.` and digits up to `NumberEnd`, appends exactly the Number token of that text and resumes dispatch, as `LexFrom` predicts |
| Lexing.Lexer.Step | lex.go:174-176 | one application `state(l)` keeps what the session will send, and makes progress or repeats a quoted state with nothing changed |
| Lexing.Lexer.Transform | lex.go:173-178 | running the states until one returns nil sends exactly `LexFrom`'s tokens, and reports whether the loop never ends |
| Sessions.Classify | lex.go:90-98 | the error value is "EOF" for EOF, "Error" for Error, and absent exactly for every other kind |
| Sessions.Session.constructor | lex.go:80-88 | what the session's channel carries, and whether it is closed, is `Lex(name, input)` |
| Sessions.Session.Tokenize | lex.go:90-98 | hands out the sent tokens in order, one per call; after the last one, the zero token on a closed channel or blocking forever on an open one |
| Properties.BlankInput | lex.go:181-194 | input made only of spaces and newlines yields exactly `[EOF ""]` and the channel closes |
| Properties.RecognisedIff | lex.go:238-278 | an upper-cased word is recognised as keyword `k` if and only if it spells `k` |
| Properties.KeywordStep | lex.go:233-280 | a maximal letter run spelling a keyword in any letter case sends that keyword with the run's own spelling, and lexing resumes after it |
| Properties.UnknownWordStep | lex.go:275-277 | a maximal letter run spelling no keyword sends one Error token and the scan stops, with no EOF |
| Properties.KeywordRun | lex.go:233-280 | both outcomes of a maximal letter run, stated over the vocabulary |
| Properties.NumberLexeme | lex.go:301-313 | a digit sends one Number token whose literal is digits, optionally `.` and digits, and which is maximal: no digit follows it, and no `.` when it has none |
| Properties.QuotedLexeme | lex.go:282-299 | a quote or backtick sends a String or Literal token from it to its first matching delimiter, both included, with no delimiter inside; with no matching delimiter the scan is endless |
| Properties.UnsupportedOperator | lex.go:204-221 | `!` not followed by `=`, `>` followed by neither `=` nor space, and `<` followed by none of `=`, space, `>` send an Error token and then the Op token |
| Properties.SupportedOperator | lex.go:204-221 | every other lookahead after `!`, `>`, `<` sends only the Op token |
| Properties.StepResumes | lex.go:181-231 | a dispatch step that does not stop sends its lexeme's tokens and resumes dispatch strictly further on |
| Properties.StepStops | lex.go:181-231 | a dispatch step that stops sends nothing (an unknown rune), nothing forever (an unclosed quote), or one Error token about an unknown word |
| Properties.TokensWellFormed | lex.go:181-313 | every token sent has the shape of its kind: EOF empty, Star `*`, Sep `,`, Op one operator rune, Number a numeral, String/Literal delimited, a keyword spelled in any letter case |
| Properties.OnlyProducedKinds | lex.go:12-55 | no token sent is of the declared but never produced kinds Dot, Paren, DblString, And, Or, Between, True, False, Null, Is, Not, Like, Exists |
| Properties.TerminalsOrdered | lex.go:181-231 | EOF is only ever the last token of a scan that ends; an Error token is the last token, or the complaint about the operator whose Op token follows it |
| Examples.SilentStop | lex.go:228-229 | a rune no state handles ends the scan silently, with no EOF and no error |
| Examples.LoneBang | lex.go:204-209 | a lone `!` yields the complaint, then Op `!`, then EOF |
| Examples.NotEqualSign | lex.go:216-221 | `<>` yields Op `<`, then a complaint about the trailing `>`, then Op `>`, then EOF |
| Examples.TrailingDot | lex.go:305-307 | "12." is one Number token "12." |
| Examples.MixedKeyword | lex.go:238-240 | "SeLeCt" is one Select token with literal "SeLeCt" |
| Examples.UnclosedString | lex.go:282-289 | "'abc" sends nothing and never ends |
| Examples.TestLexQuery | lex_test.go:19-23 | the TestLex query yields Select, Star, From, Literal, Where, Literal, Op "=", then the Error token about `xyz`, and nothing after |

## Left out

- The goroutine and the unbuffered channel. The lexer runs to completion inside `Sessions.Session`'s
  constructor. With one producer and one consumer the caller sees the same tokens in the same order.
  What is not modelled is a driver left blocked on a send when the caller stops pulling early.
- UTF-8 decoding. The input is a sequence of code points, so every rune has width 1. Invalid byte
  sequences, which `utf8.DecodeRuneInString` turns into `RuneError` of width 1, are not modelled.
- Grammar.Sprintf: only the `%s` verb and the `%!(EXTRA …)` report of an unused argument are modelled. The first
  `%s` anywhere in the prefixed format, the session name's included, takes the argument; every other `%` is
  copied literally, where fmt would read further verbs and report them. `DiagnosticExtra`, `DiagnosticVerb` and
  `UnknownText` therefore require a name free of `%`.
- Tokens.Render: `%q` quoting is represented as `Quoted(literal)`; Go's escaping of special characters is not spelled out.
- `debugString` (lex.go:100-116) only builds a log line; the log calls that use it are commented out.
- `TestLex` prints with `fmt.Printf`. Printing is left out; its query is `Examples.TestLexQuery`.
- Runes.ToUpper: the model upper-cases ASCII only. The keyword state calls `strings.ToUpper` only on runs of ASCII
  letters, so nothing else reaches it.
