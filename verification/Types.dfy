/** The semantic C types of src/sema/type.h. */
module Types {
  import opened Options

  datatype Qualifiers = Qualifiers(isConst: bool, isVolatile: bool, isRestrict: bool, isAtomic: bool)

  const PLAIN := Qualifiers(false, false, false, false)

  datatype CharSign = PlainChar | SignedChar | UnsignedChar

  datatype IntegerRank = Short | Int | Long | LongLong

  datatype FloatingRank = Float | Double | LongDouble

  /** The types that C spells with specifiers alone. */
  datatype Base =
    | Void
    | Boolean
    | Character(sign: CharSign)
    | Integer(rank: IntegerRank, isUnsigned: bool)
    | Floating(precision: FloatingRank)
    | Complex
    | BitInt(width: nat, isUnsigned: bool)
    | Structure(tag: string)
    | Union(tag: string)
    | Enumeration(tag: string)
    | Nullptr

  /** Derived types.  An array with no bound is incomplete. */
  datatype Type =
    | Plain(q: Qualifiers, base: Base)
    | Pointer(q: Qualifiers, to: Type)
    | Array(element: Type, bound: Option<nat>)
    | Function(result: Type, params: seq<Type>, variadic: bool)
}
