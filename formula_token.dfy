/** The lexical units of a formula. */
module Tokens {

  /** The nine token kinds; End is the sentinel that closes every token list. */
  datatype TokenType = Number | Operator | Cell | Function | LParen | RParen | Comma | Colon | End

  /** An immutable token: its kind and its upper-cased source text. */
  datatype FormulaToken = FormulaToken(Type: TokenType, Text: string)

  const EndToken := FormulaToken(End, "")

  const AllTokenTypes: seq<TokenType> := [Number, Operator, Cell, Function, LParen, RParen, Comma, Colon, End]

  /** There are exactly nine token kinds: the list above holds each kind once. */
  lemma NineTokenTypes()
    ensures |AllTokenTypes| == 9
    ensures forall t: TokenType :: t in AllTokenTypes
    ensures forall i, j :: 0 <= i < j < |AllTokenTypes| ==> AllTokenTypes[i] != AllTokenTypes[j]
  {
    forall t: TokenType ensures t in AllTokenTypes {
      match t
      case Number => assert AllTokenTypes[0] == t;
      case Operator => assert AllTokenTypes[1] == t;
      case Cell => assert AllTokenTypes[2] == t;
      case Function => assert AllTokenTypes[3] == t;
      case LParen => assert AllTokenTypes[4] == t;
      case RParen => assert AllTokenTypes[5] == t;
      case Comma => assert AllTokenTypes[6] == t;
      case Colon => assert AllTokenTypes[7] == t;
      case End => assert AllTokenTypes[8] == t;
    }
  }
}
