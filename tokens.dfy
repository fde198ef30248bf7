// Token kinds and tokens as the syntax analyser sees them: the token source
// (the lexical analyser) is not part of this model, so its whole output is
// given up front as a sequence that ends with the end-of-input token.
module Tokens {

  /** The symbol classification of a token. `Other` stands for every kind the
      token source can produce that the syntax analyser never names. */
  datatype Kind =
    | Begin | End | If | Then | Else | While | Loop | For | Do | Until | Call
    | Becomes
    | Equal | NotEqual | LessEqual | LessThan | GreaterEqual | GreaterThan
    | Plus | Minus | Times | Divide | Mod
    | LeftParen | RightParen | Comma | Semicolon
    | Identifier | NumberConstant | StringConstant
    | Eof
    | Other

  /** One token: its kind, its literal text and the line it was found on. */
  datatype Token = Token(kind: Kind, text: string, line: nat)

  /** The token source always ends its output with an end-of-input token. */
  predicate WellFormed(toks: seq<Token>) {
    |toks| > 0 && toks[|toks| - 1].kind == Eof
  }

  /** The six relational operators a conditional operator may be. */
  predicate IsRelational(k: Kind) {
    k == Equal || k == NotEqual || k == LessEqual || k == LessThan ||
    k == GreaterEqual || k == GreaterThan
  }

  /** Lookaheads at which a statement list stops without consuming anything. */
  predicate EndsList(k: Kind) {
    k == End || k == Eof || k == Else
  }

  /** The lookaheads that select one of the six statement productions. */
  predicate StartsStatement(k: Kind) {
    k == Call || k == Identifier || k == While || k == For || k == If || k == Do
  }

  predicate IsAdditive(k: Kind) {
    k == Plus || k == Minus
  }

  predicate IsMultiplicative(k: Kind) {
    k == Times || k == Divide || k == Mod
  }
}
