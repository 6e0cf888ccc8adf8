/** The token kinds that the parser, the checker and the walker distinguish (bootstrap/tokens.h). */
module Tokens {
  datatype TokenKind =
    | TokUndef      // the end-of-file token
    | TokNumberL | TokStringL | TokBoolL
    | TokEcho | TokThen | TokElse | TokIf | TokId
    | TokDefine | TokAssign
    | TokNewline | TokSemicolon
    | TokLParen | TokRParen | TokLBrace | TokRBrace
    | TokPlus | TokMinus | TokStar | TokSlash
    | TokEq | TokNe | TokLt | TokGt | TokAnd | TokOr | TokBang
    | TokOther(spelling: string)  // every kind that no grammar rule mentions

  /** The four operators that expression rules produce. */
  predicate IsArithmetic(k: TokenKind) {
    k in {TokPlus, TokMinus, TokStar, TokSlash}
  }
}
