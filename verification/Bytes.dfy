/** Bytes, and the few ASCII facts several components rely on. */
module Bytes {

  type Byte = n: int | 0 <= n < 256

  const NEWLINE: Byte := 10
  const RETURN: Byte := 13
  const SPACE: Byte := 32
  const QUOTE: Byte := 34
  const STAR: Byte := 42
  const COMMA: Byte := 44
  const SLASH: Byte := 47
  const COLON: Byte := 58
  const OPEN_BRACKET: Byte := 91
  const BACKSLASH: Byte := 92
  const CLOSE_BRACKET: Byte := 93
  const OPEN_BRACE: Byte := 123
  const CLOSE_BRACE: Byte := 125
}
