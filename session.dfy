/**
 * The public pull API (lex.go:80-98): a session is created from a name and an
 * input, and `Tokenize` hands out the lexer's tokens one at a time.
 *
 * The source runs the lexer in a goroutine that meets the caller on an
 * unbuffered channel.  With one producer and one consumer the caller sees the
 * tokens in the order they are sent, so here the lexer runs to the end inside
 * the constructor and the channel becomes the sequence it produced, together
 * with whether the lexer closed the channel or scans forever.
 */
module Sessions {
  import opened Tokens
  import opened Grammar
  import Lexing

  /** The outcome of one call of `Tokenize`. */
  datatype Pull =
    | Delivered(token: Token, err: Option<string>)
    | Blocked  // no token is ever sent again and the channel is never closed: the call never returns

  /** The token a receive on the closed channel yields: Go's zero Token, whose kind is Error. */
  const ZeroToken: Token := Token(Error, "")

  /** How `Tokenize` reports a received token: an error value for EOF and Error, none otherwise. */
  function Classify(t: Token): (p: Pull)
    ensures p.Delivered? && p.token == t
    ensures p.err.None? <==> t.kind != EOF && t.kind != Error
    ensures t.kind == EOF ==> p.err == Some("EOF")
    ensures t.kind == Error ==> p.err == Some("Error")
  {
    if t.kind == Error then Delivered(t, Some("Error"))
    else if t.kind == EOF then Delivered(t, Some("EOF"))
    else Delivered(t, None)
  }

  class Session {
    /** Every token the lexer sends, in order. */
    const sent: seq<Token>
    /** Whether the lexer stopped and closed the channel (false when it scans forever). */
    const closed: bool
    /** How many tokens the caller has received. */
    var received: nat

    ghost predicate Valid()
      reads this
    {
      received <= |sent|
    }

    /** NewLexer: start a lexer on `input`; it sends exactly what `Lex` predicts. */
    constructor (name: string, input: string)
      ensures Valid() && received == 0
      ensures Scan(sent, !closed) == Lex(name, input)
    {
      var l := new Lexing.Lexer(name, input);
      var endless := l.Transform();
      sent := l.tokens;
      closed := !endless;
      received := 0;
    }

    /** Receive the next token and classify it. */
    method Tokenize() returns (p: Pull)
      requires Valid()
      modifies this`received
      ensures Valid()
      ensures old(received) < |sent| ==> p == Classify(sent[old(received)]) && received == old(received) + 1
      ensures old(received) == |sent| ==> received == old(received)
      ensures old(received) == |sent| ==> p == if closed then Classify(ZeroToken) else Blocked
    {
      if received < |sent| {
        p := Classify(sent[received]);
        received := received + 1;
      } else if closed {
        p := Classify(ZeroToken);
      } else {
        p := Blocked;
      }
    }
  }
}
