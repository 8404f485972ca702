/** The opcodes that the models name, and what the compiler reserves. */
module Opcodes {
  const ADD: int := 2
  const ASSIGN: int := 9
  const BIFF: int := 10
  const CASE: int := 12
  const DEFAULT: int := 15
  const END: int := 18
  const EQ: int := 19
  const GOTO: int := 24
  const INDXINCR: int := 30
  const LT: int := 34
  const PRINT: int := 43
  const PUSHCONST: int := 44
  const PUSHPARAM: int := 46
  const SUB: int := 53
  const SWITCH: int := 55

  /** The room that must be left between code and control stack for one more instruction. */
  const MARGIN: int := 20

  /** What the compiler returns instead of a place. */
  const ERR: int := -1
}
