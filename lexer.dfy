/**
 * The lexer itself (lex.go:72-313): a cursor over the input, the scanning
 * primitives that move it, the state functions and the driver that runs them.
 *
 * The channel the source sends tokens on is the sequence `tokens`, to which
 * `Emit` and `Errorf` append.  Every state method is proved against the
 * reference definition `Grammar.LexFrom`: whatever it appends, together with
 * what `LexFrom` still predicts from the new `start`, is what `LexFrom`
 * predicted from the old one.
 */
module Lexing {
  import opened Tokens
  import opened Runes
  import opened Grammar

  /** The state functions of the transition table; `None` of `Option<State>` is Go's nil. */
  datatype State = ExpectAny | ExpectKeyword | ExpectString | ExpectLiteral | ExpectNumber

  /** The driver's termination measure: dispatch ranks above the states it hands over to. */
  function Rank(st: State): nat {
    if st == State.ExpectAny then 1 else 0
  }

  /** Sending one more token, then the rest, is sending it first and then the rest. */
  lemma SendOne(sent: seq<Token>, t: Token, rest: Scan)
    ensures Then(sent + [t], rest) == Then(sent, Then([t], rest))
  {
    assert (sent + [t]) + rest.tokens == sent + ([t] + rest.tokens);
  }

  /** After `sent`, sending the one-rune token at `i` and lexing on from `i + 1` is lexing from `i`. */
  lemma SendSingle(sent: seq<Token>, name: string, s: string, i: nat)
    requires i < |s| && DispatchClass(s[i]).Single?
    ensures Then(sent + [Token(DispatchClass(s[i]).kind, s[i..i + 1])], LexFrom(name, s, i + 1)) ==
            Then(sent, LexFrom(name, s, i))
  {
    LexSingle(name, s, i);
    SendOne(sent, Token(DispatchClass(s[i]).kind, s[i..i + 1]), LexFrom(name, s, i + 1));
  }

  /** The same for the tokens of an operator rune. */
  lemma SendOperator(sent: seq<Token>, name: string, s: string, i: nat)
    requires i < |s| && DispatchClass(s[i]) == Binary
    ensures Then(sent + OperatorTokens(name, s, i), LexFrom(name, s, i + 1)) == Then(sent, LexFrom(name, s, i))
  {
    LexBinary(name, s, i);
    var rest := LexFrom(name, s, i + 1);
    assert (sent + OperatorTokens(name, s, i)) + rest.tokens == sent + (OperatorTokens(name, s, i) + rest.tokens);
  }

  /** The same for a quoted form opened at `i` whose closing delimiter ends at `j`. */
  lemma SendQuoted(sent: seq<Token>, name: string, s: string, i: nat, j: nat)
    requires i + 1 < j <= |s| && DispatchClass(s[i]) == Quote && IndexRune(s[i + 1..], s[i]) == j - i - 2
    ensures Then(sent + [Token(QuotedKind(s[i]), s[i..j])], LexFrom(name, s, j)) == Then(sent, LexFrom(name, s, i))
  {
    var t, rest := Token(QuotedKind(s[i]), s[i..j]), LexFrom(name, s, j);
    QuotedFromAt(name, s, i, j);
    LexQuote(name, s, i);
    SendOne(sent, t, rest);
  }

  /** The same for a number starting at `i`. */
  lemma SendNumber(sent: seq<Token>, name: string, s: string, i: nat)
    requires i < |s| && DispatchClass(s[i]) == Digit
    ensures Then(sent + [Token(Number, s[i..NumberEnd(s, i)])], LexFrom(name, s, NumberEnd(s, i))) ==
            Then(sent, LexFrom(name, s, i))
  {
    LexNumber(name, s, i);
    SendOne(sent, Token(Number, s[i..NumberEnd(s, i)]), LexFrom(name, s, NumberEnd(s, i)));
  }

  class Lexer {
    const name: string
    const input: string
    /** Offset where the token being assembled begins. */
    var start: nat
    /** Offset of the next rune to decode. */
    var pos: nat
    /** Every token sent so far, oldest first. */
    var tokens: seq<Token>

    /** The cursor invariant. */
    ghost predicate Valid()
      reads this
    {
      start <= pos <= |input|
    }

    /** What the whole session sends, given what has been sent and where the next token begins. */
    ghost function Pending(): Scan
      reads this`tokens, this`start
      requires start <= |input|
    {
      Then(tokens, LexFrom(name, input, start))
    }

    /** The cursor has consumed an opening delimiter `d` and no closing one yet. */
    ghost predicate Opened(d: char)
      reads this
    {
      Valid() && start < pos && input[start] == d &&
      forall k :: start < k < pos ==> input[k] != d
    }

    /** The shape of the cursor on entry to each state function. */
    ghost predicate Ready(st: State)
      reads this
    {
      Valid() &&
      match st
      case ExpectAny => start == pos
      case ExpectKeyword => start == pos < |input| && IsLetter(input[pos])
      case ExpectNumber => start == pos < |input| && IsDigit(input[pos])
      case ExpectString => Opened('\'')
      case ExpectLiteral => Opened('`')
    }

    /** NewLexer without its goroutine: a cursor at offset 0 that has sent nothing. */
    constructor (name: string, input: string)
      ensures this.name == name && this.input == input
      ensures start == 0 && pos == 0 && tokens == []
      ensures Valid() && Ready(State.ExpectAny)
    {
      this.name := name;
      this.input := input;
      start, pos, tokens := 0, 0, [];
    }

    /** The text of the token being assembled. */
    function Cache(): (c: string)
      reads this
      requires Valid()
      ensures |c| == pos - start
      ensures forall k :: 0 <= k < |c| ==> c[k] == input[start + k]
    {
      input[start..pos]
    }

    /** Send the token `t` with the pending text, and begin the next token where this one ends. */
    method Emit(t: TokenType)
      requires Valid()
      modifies this`start, this`tokens
      ensures Valid() && pos == old(pos)
      ensures tokens == old(tokens) + [Token(t, input[old(start)..pos])]
      ensures start == pos
    {
      tokens := tokens + [Token(t, Cache())];
      start := pos;
    }

    /** Drop the pending text without sending it. */
    method Ignore()
      requires Valid()
      modifies this`start
      ensures Valid() && start == pos
    {
      start := pos;
    }

    /** Decode the next rune and move past it; at the end of the input nothing moves. */
    method Next() returns (r: char)
      requires Valid()
      modifies this`pos
      ensures Valid()
      ensures r == RuneAt(input, old(pos))
      ensures pos == if old(pos) < |input| then old(pos) + 1 else old(pos)
    {
      var (rune, width) := DecodeRune(input[pos..]);
      pos := pos + width;
      r := rune;
    }

    /** Move back to the start of the pending text. */
    method Backup()
      requires Valid()
      modifies this`pos
      ensures Valid() && pos == start
    {
      pos := start;
    }

    /** The next rune, without moving. */
    function Peek(): (r: char)
      reads this
      requires Valid()
      ensures pos < |input| ==> r == input[pos]
      ensures pos == |input| ==> r == RuneError
    {
      DecodeRune(input[pos..]).0
    }

    /** Whether the next rune is one of `valid`. */
    function Accept(valid: string): (ok: bool)
      reads this
      requires Valid()
      ensures ok <==> Peek() in valid
    {
      IndexRune(valid, Peek()) >= 0
    }

    /** Send an Error token: `format`, prefixed with the session name, formatted with `arg`; the cursor does not move. */
    method Errorf(format: string, arg: string)
      requires Valid()
      modifies this`tokens
      ensures tokens == old(tokens) + [Token(Error, Diagnostic(name, format, arg))]
    {
      tokens := tokens + [Token(Error, Diagnostic(name, format, arg))];
    }

    /**
     * The common tail of the `!`, `>` and `<` cases: send an error unless the
     * rune after the operator is one it supports, then send the operator.
     */
    method EmitOperator(unsupported: bool)
      requires Valid() && start + 1 == pos && DispatchClass(input[start]) == Binary
      requires unsupported == !OpLookaheadOk(input[start], RuneAt(input, pos))
      modifies this`start, this`tokens
      ensures Valid() && start == pos && pos == old(pos)
      ensures tokens == old(tokens) + OperatorTokens(name, input, old(start))
      ensures Pending() == old(Pending())
    {
      ghost var i, t0 := start, tokens;
      if unsupported {
        Errorf(UnsupportedOp, Cache());
      }
      Emit(Op);
      SendOperator(t0, name, input, i);
    }

    /** The `*`, `,` and one-rune operator cases: send the rune just read as a token of kind `t`. */
    method EmitSingle(t: TokenType)
      requires Valid() && start + 1 == pos && DispatchClass(input[start]) == Single(t)
      modifies this`start, this`tokens
      ensures Valid() && start == pos && pos == old(pos)
      ensures tokens == old(tokens) + [Token(t, input[old(start)..pos])]
      ensures Pending() == old(Pending())
    {
      ghost var i, t0 := start, tokens;
      Emit(t);
      SendSingle(t0, name, input, i);
    }

    /**
     * What dispatch from offset `i` does, by the class of the rune there, given
     * that `t0` had been sent: the state it hands over to (`None` for nil),
     * where the cursor is left and what it sends.  After a comma it re-enters
     * itself at once, so there it is dispatch from the next offset with the
     * comma's token sent.
     */
    ghost predicate Dispatched(i: nat, t0: seq<Token>, next: Option<State>)
      reads this
      requires i <= |input|
      decreases |input| - i
    {
      if i == |input| then next == None && start == pos == i && tokens == t0 + [Token(EOF, "")]
      else
        match DispatchClass(input[i])
        case Quote =>
          next == Some(if input[i] == '\'' then State.ExpectString else State.ExpectLiteral) &&
          start == i && pos == i + 1 && tokens == t0
        case Blank => next == Some(State.ExpectAny) && start == pos == i + 1 && tokens == t0
        case Single(kind) =>
          if kind == Sep then Dispatched(i + 1, t0 + [Token(Sep, input[i..i + 1])], next)
          else next == Some(State.ExpectAny) && start == pos == i + 1 && tokens == t0 + [Token(kind, input[i..i + 1])]
        case Binary => next == Some(State.ExpectAny) && start == pos == i + 1 && tokens == t0 + OperatorTokens(name, input, i)
        case Digit => next == Some(State.ExpectNumber) && start == pos == i && tokens == t0
        case Letter => next == Some(State.ExpectKeyword) && start == pos == i && tokens == t0
        case Unknown => next == None && start == i && pos == i + 1 && tokens == t0
    }

    /** The initial state: dispatch on the next rune. */
    method ExpectAny() returns (next: Option<State>)
      requires Ready(State.ExpectAny)
      modifies this
      decreases |input| - pos
      ensures Valid() && start >= old(start) && old(tokens) <= tokens
      ensures Dispatched(old(start), old(tokens), next)
      ensures next.Some? ==> Ready(next.value) && Pending() == old(Pending())
      ensures next.Some? ==> start > old(start) || (start == old(start) && next.value != State.ExpectAny)
      ensures next.None? ==> Scan(tokens, false) == old(Pending())
    {
      if pos >= |input| {
        assert input[start..pos] == "";
        Emit(EOF);
        return None;
      }
      ghost var i, t0 := start, tokens;
      var r := Next();
      assert r == input[i] && pos == i + 1;
      // the cases of the switch, grouped as `DispatchClass` groups them
      match DispatchClass(r)
      case Quote =>
        next := Some(if r == '\'' then State.ExpectString else State.ExpectLiteral);
      case Blank =>
        LexBlank(name, input, i);
        Ignore();
        next := Some(State.ExpectAny);
      case Single(kind) =>
        EmitSingle(kind);
        if kind == Sep {
          // dispatch re-enters itself at once (lex.go:200) rather than returning to the driver
          next := ExpectAny();
        } else {
          next := Some(State.ExpectAny);
        }
      case Binary =>
        if r == '!' {
          EmitOperator(Peek() != '=');
        } else if r == '>' {
          EmitOperator(Peek() != '=' && Peek() != ' ');
        } else {
          EmitOperator(Peek() != '=' && Peek() != ' ' && Peek() != '>');
        }
        next := Some(State.ExpectAny);
      case Digit =>
        Backup();
        next := Some(State.ExpectNumber);
      case Letter =>
        Backup();
        next := Some(State.ExpectKeyword);
      case Unknown =>
        LexUnknown(name, input, i);
        next := None;
    }

    /** A maximal run of letters: a keyword of the vocabulary, or a fatal error. */
    method ExpectKeyword() returns (next: Option<State>)
      requires Ready(State.ExpectKeyword)
      modifies this
      ensures Valid()
      ensures next.Some? ==> next.value == State.ExpectAny && Ready(next.value)
      ensures next.Some? ==> start > old(start) && Pending() == old(Pending())
      ensures next.None? ==> Scan(tokens, false) == old(Pending())
      ensures pos == RunEnd(input, old(start), Letters)
      ensures var word := input[old(start)..pos];
        match KeywordKind(ToUpper(word))
        case Some(k) => next.Some? && start == pos && tokens == old(tokens) + [Token(k, word)]
        case None => next.None? && start == old(start) && tokens == old(tokens) + [Token(Error, Diagnostic(name, UnknownKeyword, word))]
    {
      ghost var i, t0 := start, tokens;
      ghost var j := RunEnd(input, i, Letters);
      while IsLetter(Peek())
        invariant Valid() && start == i && tokens == t0
        invariant pos <= j
        decreases |input| - pos
      {
        var _ := Next();
      }
      assert pos == j;
      var word := Cache();
      assert word == input[i..j];
      var k := KeywordKind(ToUpper(word));
      LexWord(name, input, i);
      if k.Some? {
        ghost var rest := LexFrom(name, input, j);
        Emit(k.value);
        SendOne(t0, Token(k.value, word), rest);
        next := Some(State.ExpectAny);
      } else {
        Errorf(UnknownKeyword, Cache());
        next := None;
      }
    }

    /** Inside a single-quoted string: stop after the closing quote. */
    method ExpectString() returns (next: Option<State>)
      requires Ready(State.ExpectString)
      modifies this
      ensures Valid() && next.Some? && Ready(next.value) && Pending() == old(Pending())
      ensures next.value == State.ExpectAny ==> start > old(start)
      ensures next.value != State.ExpectAny ==> QuoteStep(State.ExpectString, old(start), old(pos), old(tokens))
      ensures next.value == State.ExpectAny ==>
        start == pos == old(pos) + 1 && input[old(pos)] == '\'' && tokens == old(tokens) + [Token(String, input[old(start)..pos])]
      ensures next.value != State.ExpectAny && old(pos) < |input| ==> input[old(pos)] != '\''
    {
      next := ExpectQuoted('\'', State.ExpectString);
    }

    /** Inside a backtick literal: stop after the closing backtick. */
    method ExpectLiteral() returns (next: Option<State>)
      requires Ready(State.ExpectLiteral)
      modifies this
      ensures Valid() && next.Some? && Ready(next.value) && Pending() == old(Pending())
      ensures next.value == State.ExpectAny ==> start > old(start)
      ensures next.value != State.ExpectAny ==> QuoteStep(State.ExpectLiteral, old(start), old(pos), old(tokens))
      ensures next.value == State.ExpectAny ==>
        start == pos == old(pos) + 1 && input[old(pos)] == '`' && tokens == old(tokens) + [Token(Literal, input[old(start)..pos])]
      ensures next.value != State.ExpectAny && old(pos) < |input| ==> input[old(pos)] != '`'
    {
      next := ExpectQuoted('`', State.ExpectLiteral);
    }

    /**
     * A quoted state that stays in itself: it consumed one more rune, or it is
     * at the end of the input with no closing delimiter, where the source
     * calls it again forever (and `LexFrom` predicts an endless scan).
     */
    ghost predicate QuoteStep(self: State, start0: nat, pos0: nat, tokens0: seq<Token>)
      reads this
      requires Valid()
    {
      start == start0 && tokens == tokens0 &&
      (pos == pos0 + 1 || (pos == pos0 == |input| && LexFrom(name, input, start) == Scan([], true)))
    }

    /** One step of either quoted state, whose delimiter is `d`. */
    method ExpectQuoted(d: char, self: State) returns (next: Option<State>)
      requires (d == '\'' && self == State.ExpectString) || (d == '`' && self == State.ExpectLiteral)
      requires Ready(self)
      modifies this
      ensures Valid() && next.Some? && Ready(next.value) && Pending() == old(Pending())
      ensures next.value == State.ExpectAny || next.value == self
      ensures next.value == State.ExpectAny ==> start > old(start)
      ensures next.value == self ==> QuoteStep(self, old(start), old(pos), old(tokens))
      ensures next.value == State.ExpectAny ==>
        start == pos == old(pos) + 1 && input[old(pos)] == d && tokens == old(tokens) + [Token(QuotedKind(d), input[old(start)..pos])]
      ensures next.value == self && old(pos) < |input| ==> input[old(pos)] != d
    {
      ghost var i := start;
      var r := Next();
      if r == d {
        ghost var t0 := tokens;
        assert pos == old(pos) + 1 && input[i] == input[pos - 1] == d;
        ClosingAt(input, i, pos - 1);
        Emit(QuotedKind(d));
        SendQuoted(t0, name, input, i, pos);
        next := Some(State.ExpectAny);
      } else {
        if pos == old(pos) {
          QuoteUnclosed(name, input, start);
        }
        next := Some(self);
      }
    }

    /** Digits, an optional `.`, digits. */
    method ExpectNumber() returns (next: Option<State>)
      requires Ready(State.ExpectNumber)
      modifies this
      ensures Valid()
      ensures next == Some(State.ExpectAny) && Ready(next.value)
      ensures start > old(start) && Pending() == old(Pending())
      ensures start == pos == NumberEnd(input, old(start))
      ensures tokens == old(tokens) + [Token(Number, input[old(start)..pos])]
    {
      ghost var i, t0 := start, tokens;
      ghost var a := RunEnd(input, i, Digits);
      while IsDigit(Peek())
        invariant Valid() && start == i && tokens == t0
        invariant pos <= a
        decreases |input| - pos
      {
        var _ := Next();
      }
      assert pos == a;
      if Peek() == '.' {
        var _ := Next();
      }
      assert pos == if a < |input| && input[a] == '.' then a + 1 else a;
      ghost var b := RunEnd(input, pos, Digits);
      while IsDigit(Peek())
        invariant Valid() && start == i && tokens == t0
        invariant pos <= b
        decreases |input| - pos
      {
        var _ := Next();
      }
      assert pos == b == NumberEnd(input, i);
      Emit(Number);
      SendNumber(t0, name, input, i);
      next := Some(State.ExpectAny);
    }

    /** Apply the state function `st` to the lexer, as the driver's `state(l)` does. */
    method Step(st: State) returns (next: Option<State>)
      requires Ready(st)
      modifies this
      ensures Valid()
      ensures next.Some? ==> Ready(next.value) && Pending() == old(Pending())
      ensures next.None? ==> Scan(tokens, false) == old(Pending())
      ensures next.Some? ==>
        start > old(start) ||
        (start == old(start) && Rank(next.value) < Rank(st)) ||
        (next.value == st && QuoteStep(st, old(start), old(pos), old(tokens)))
    {
      match st
      case ExpectAny => next := ExpectAny();
      case ExpectKeyword => next := ExpectKeyword();
      case ExpectString => next := ExpectString();
      case ExpectLiteral => next := ExpectLiteral();
      case ExpectNumber => next := ExpectNumber();
    }

    /**
     * Run the state functions from dispatch until one returns nil.  The result
     * says whether the source's loop never ends: a state function that chose
     * itself again without changing anything (a quoted state at the end of the
     * input) repeats forever, since each state depends only on the cursor.
     */
    method Transform() returns (endless: bool)
      requires Ready(State.ExpectAny)
      modifies this
      ensures Valid()
      ensures Scan(tokens, endless) == old(Pending())
    {
      ghost var goal := Pending();
      var state := State.ExpectAny;
      while true
        invariant Ready(state) && Pending() == goal
        decreases |input| - start, Rank(state), |input| - pos
      {
        var s0, p0, n0 := start, pos, |tokens|;
        var next := Step(state);
        if next.None? {
          return false;
        }
        if next.value == state && start == s0 && pos == p0 && |tokens| == n0 {
          return true;
        }
        state := next.value;
      }
    }
  }
}
