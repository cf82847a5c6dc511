/**
 * Code-point level helpers the lexer relies on: decoding the next rune, the
 * ASCII character classes its states test, upper-casing and rune search.
 * The input is a sequence of code points, so one rune always has width 1.
 */
module Runes {

  /** The rune decoding returns when nothing is left to decode (utf8.RuneError). */
  const RuneError: char := '\U{FFFD}'

  /** Decode the first rune of `s` and its width: width 0 and RuneError for the empty text. */
  function DecodeRune(s: string): (char, nat) {
    if s == [] then (RuneError, 0) else (s[0], 1)
  }

  /** What a decoder promises: the rune followed by the text after its width is the text again. */
  lemma DecodeRuneSplits(s: string)
    ensures DecodeRune(s).1 <= |s| && (DecodeRune(s).1 == 0 <==> s == [])
    ensures s != [] ==> [DecodeRune(s).0] + s[DecodeRune(s).1..] == s
    ensures s == [] ==> DecodeRune(s).0 == RuneError
  {
  }

  /** The rune `peek` sees at offset `k` of `s`. */
  function RuneAt(s: string, k: nat): (c: char)
    requires k <= |s|
    ensures c == if k < |s| then s[k] else RuneError
  {
    DecodeRune(s[k..]).0
  }

  predicate IsLetter(c: char) {
    'a' <= c <= 'z' || 'A' <= c <= 'Z'
  }

  predicate IsDigit(c: char) {
    '0' <= c <= '9'
  }

  /** The two character classes the lexer consumes maximal runs of. */
  datatype CharClass = Letters | Digits

  predicate InClass(cl: CharClass, c: char) {
    match cl
    case Letters => IsLetter(c)
    case Digits => IsDigit(c)
  }

  /** The end of the maximal run of `cl` characters of `s` that starts at offset `i`. */
  function RunEnd(s: string, i: nat, cl: CharClass): (j: nat)
    requires i <= |s|
    ensures i <= j <= |s|
    ensures forall k :: i <= k < j ==> InClass(cl, s[k])
    ensures j < |s| ==> !InClass(cl, s[j])
    decreases |s| - i
  {
    if i < |s| && InClass(cl, s[i]) then RunEnd(s, i + 1, cl) else i
  }

  /** A run of `cl` characters ending at a character outside `cl` is the maximal run. */
  lemma RunEndUnique(s: string, i: nat, j: nat, cl: CharClass)
    requires i <= j <= |s|
    requires forall k :: i <= k < j ==> InClass(cl, s[k])
    requires j < |s| ==> !InClass(cl, s[j])
    ensures RunEnd(s, i, cl) == j
  {
  }

  /** Upper-case one rune; only ASCII letters change, the only runes the keyword state upper-cases. */
  function UpperRune(c: char): (u: char)
    ensures IsLetter(c) ==> IsLetter(u) && 'A' <= u <= 'Z'
    ensures 'A' <= c <= 'Z' || !IsLetter(c) ==> u == c
    ensures 'a' <= c <= 'z' ==> u as int == c as int - 32
  {
    if 'a' <= c <= 'z' then (c as int - 32) as char else c
  }

  /** strings.ToUpper on a word of ASCII letters. */
  function ToUpper(s: string): (u: string)
    ensures |u| == |s|
    ensures forall k :: 0 <= k < |s| ==> u[k] == UpperRune(s[k])
  {
    if s == [] then [] else [UpperRune(s[0])] + ToUpper(s[1..])
  }

  /** strings.IndexRune: the offset of the first `c` in `s`, or -1 when `c` does not occur. */
  function IndexRune(s: string, c: char): (i: int)
    ensures -1 <= i < |s|
    ensures i == -1 <==> c !in s
    ensures i >= 0 ==> s[i] == c && c !in s[..i]
  {
    if s == [] then -1
    else if s[0] == c then 0
    else
      var j := IndexRune(s[1..], c);
      if j < 0 then -1 else j + 1
  }

  /** A `c` at offset `k` with none before it is what IndexRune finds. */
  lemma IndexRuneAt(s: string, c: char, k: nat)
    requires k < |s| && s[k] == c
    requires forall m :: 0 <= m < k ==> s[m] != c
    ensures IndexRune(s, c) == k
  {
    assert s[k] == c;
  }
}
