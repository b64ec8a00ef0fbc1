/** Operators and the number range that every kind of tree shares. */
module Primitives {
  const LONG_MIN := -0x8000_0000_0000_0000
  const LONG_MAX := 0x7FFF_FFFF_FFFF_FFFF

  /** The value range of the C `long` that holds a PlainSpeak number. */
  type long = x: int | LONG_MIN <= x <= LONG_MAX

  datatype BinOp =
    | Add | Sub | Mul | Div | Mod | ShiftLeft | ShiftRight
    | Gt | Lt | Eq | Ne | Ge | Le
    | BitAnd | BitXor | BitOr | And | Or | Comma

  datatype UnaryOp = Not | Neg | BitNot

  datatype IncDecKind = PrefixIncrement | PrefixDecrement | PostfixIncrement | PostfixDecrement
}
