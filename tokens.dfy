/** Token kinds, tokens and the fixed keyword vocabulary of the SQL lexer (lex.go:12-70, 238-278). */
module Tokens {

  datatype Option<T> = None | Some(value: T)

  /** Every token kind the lexer declares, in declaration order; `Error` is the zero value. */
  datatype TokenType =
    | Error | EOF | Star | Sep | Dot | Op | Paren | Literal | Number | String | DblString
    | Select | Distinct | From | Where | Group | Order | By | Having | Limit | Join
    | Left | Right | Inner | Outer | On | As | Union | All
    | And | Or | Between | True | False | Null | Is | Not | Like | Exists

  /** A token: its kind and the exact text it was matched from (for `Error`, the diagnostic). */
  datatype Token = Token(kind: TokenType, literal: string)

  /** The kinds that are declared but that no state of the lexer ever produces. */
  predicate NeverProduced(k: TokenType) {
    k in {Dot, Paren, DblString, And, Or, Between, True, False, Null, Is, Not, Like, Exists}
  }

  /** The eighteen keyword kinds the keyword state recognises. */
  predicate IsKeyword(k: TokenType) {
    k in {Select, Distinct, From, Where, Group, Order, By, Having, Limit, Join,
          Left, Right, Inner, Outer, On, As, Union, All}
  }

  /** The upper-case spelling of a recognised keyword. */
  function Spelling(k: TokenType): string
    requires IsKeyword(k)
  {
    match k
    case Select => "SELECT"
    case Distinct => "DISTINCT"
    case From => "FROM"
    case Where => "WHERE"
    case Group => "GROUP"
    case Order => "ORDER"
    case By => "BY"
    case Having => "HAVING"
    case Limit => "LIMIT"
    case Join => "JOIN"
    case Left => "LEFT"
    case Right => "RIGHT"
    case Inner => "INNER"
    case Outer => "OUTER"
    case On => "ON"
    case As => "AS"
    case Union => "UNION"
    case All => "ALL"
  }

  /** The keyword switch of the keyword state: the kind an upper-cased word stands for, if any. */
  function KeywordKind(word: string): (k: Option<TokenType>)
    ensures k.Some? ==> IsKeyword(k.value) && Spelling(k.value) == word
  {
    match word
    case "SELECT" => Some(Select)
    case "DISTINCT" => Some(Distinct)
    case "FROM" => Some(From)
    case "WHERE" => Some(Where)
    case "GROUP" => Some(Group)
    case "ORDER" => Some(Order)
    case "BY" => Some(By)
    case "HAVING" => Some(Having)
    case "LIMIT" => Some(Limit)
    case "JOIN" => Some(Join)
    case "LEFT" => Some(Left)
    case "RIGHT" => Some(Right)
    case "INNER" => Some(Inner)
    case "OUTER" => Some(Outer)
    case "ON" => Some(On)
    case "AS" => Some(As)
    case "UNION" => Some(Union)
    case "ALL" => Some(All)
    case _ => None
  }

  /** Every recognised keyword is found again from its spelling: the switch misses none of them. */
  lemma KeywordKindComplete(k: TokenType)
    requires IsKeyword(k)
    ensures KeywordKind(Spelling(k)) == Some(k)
  {
  }

  /** How `Token.String` displays a token: quoted text, or bare text for EOF and errors. */
  datatype Display = Bare(text: string) | Quoted(text: string)

  /** `Token.String`: EOF shows as the word EOF, an error as its message, anything else quoted. */
  function Render(t: Token): (d: Display)
    ensures d.Bare? <==> t.kind == EOF || t.kind == Error
    ensures d.text == if t.kind == EOF then "EOF" else t.literal
  {
    match t.kind
    case EOF => Bare("EOF")
    case Error => Bare(t.literal)
    case _ => Quoted(t.literal)
  }
}
