/** Texts, and the characters that the tools take for white space. */
module Texts {

  type Text = seq<char>

  predicate IsWhite(c: char) { c == ' ' || c == '\t' || c == '\r' || c == '\n' }
}
