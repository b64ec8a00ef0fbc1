/** The expression trees of src/ast/ast.h that the other modules reason about.

    Line numbers are dropped.  `Opaque` stands for every expression node that no
    modelled pass looks into. */
module Ast {
  import opened Primitives

  datatype Expr =
    | IntLit(value: long)
    | BoolLit(flag: bool)
    | NullptrLit
    | VarRef(name: string)
    | AddressOf(target: string)
    | Deref(pointer: Expr)
    | IncDec(kind: IncDecKind, operand: Expr)
    | Conditional(whenTrue: Expr, condition: Expr, whenFalse: Expr)
    | Element(index: Expr, base: Expr)
    | Member(member: string, base: Expr)
    | Call(procedure: string, args: seq<Expr>)
    | Pow(powBase: Expr, exponent: Expr)
    | Binary(op: BinOp, lhs: Expr, rhs: Expr)
    | Unary(unop: UnaryOp, rhs: Expr)
    | Opaque(id: int)
}
