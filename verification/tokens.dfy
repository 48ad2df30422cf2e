/** The tokens the Lua lexer hands to the compiler. The lexer itself is not part of this
    model: a token sequence is an input. */
module Tokens {

  datatype Keyword = Not | And | Or | OtherKeyword

  datatype Punct = OpenParen | CloseParen | Comma | OtherPunct

  datatype Token =
    | Keyword(word: Keyword)
    | Punct(punct: Punct)
    | Name(name: string)
    | Numeral(text: string)
    | LiteralString(text: string)
    | OtherToken
}
