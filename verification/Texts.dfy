/** Python strings: sequences of code points, surrogates included. */
module Texts {
  type CodePoint = c: int | 0 <= c < 0x110000 witness 0
  type Text = seq<CodePoint>
}
