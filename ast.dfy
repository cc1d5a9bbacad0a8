/** The abstract syntax tree shared by every stage of the compiler.

    Nodes are values. Where the compiler relies on which object a node is, the node
    carries the `Site` that allocated it: types are compared with `!=` by the type
    checker, and the name analyser links every use of a variable to its `VarDecl`
    object, on which the code generator then records the variable's offset (kept
    here in a table keyed by the declaration).

    A Java `null` in a child position is modelled as follows:
      - `NoExpr` is the null the parser leaves behind after a syntax error;
      - an absent `else` branch or `return` value is `None`;
      - the `type` annotation that the type checker writes on an expression is
        `ty: Option<Type>`, `None` until it is written. */
module Ast {
  import opened Java
  import opened Wrappers

  datatype BaseType = INT | CHAR | VOID

  /** Where an object was allocated. The type checker compares types with Java's `!=`,
      i.e. by object identity; only the three base-type constants are shared, so every
      pointer, array or struct type carries the allocation that made it, and so does
      every variable declaration. */
  datatype Site =
    | Parsed(n: nat)    // built by the parser
    | Builtin(n: nat)   // built by the name analyser for a built-in function
    | Checked(n: nat)   // built by the type checker for a string literal

  datatype Type =
    | Base(base: BaseType)
    | PointerType(site: Site, pointerToType: Type)
    | ArrayType(site: Site, elem: Type, length: int32)
    | StructType(site: Site, structType: string)

  const IntType: Type := Base(INT)
  const CharType: Type := Base(CHAR)
  const VoidType: Type := Base(VOID)

  datatype Op = ADD | SUB | MUL | DIV | MOD | GT | LT | GE | LE | NE | EQ | OR | AND

  /** A variable declaration: a global, a local, a parameter or a struct member. */
  datatype VarDecl = VarDecl(site: Site, ty: Type, varName: string)

  /** The parts of a function declaration that a call node reads through its `fd` link. */
  datatype FunSig = FunSig(ty: Type, name: string, params: seq<VarDecl>)

  datatype Expr =
    | IntLiteral(i: int32)
    | StrLiteral(lit: string)
    | ChrLiteral(c: char)
    | VarExpr(name: string, vd: Option<VarDecl>, ty: Option<Type>)
    | FunCallExpr(name: string, args: seq<Expr>, fd: Option<FunSig>, ty: Option<Type>)
    | BinOp(left: Expr, op: Op, right: Expr, ty: Option<Type>)
    | ArrayAccessExpr(arr: Expr, index: Expr, ty: Option<Type>)
    | FieldAccessExpr(struct: Expr, field: string, ty: Option<Type>)
    | ValueAtExpr(expr: Expr, ty: Option<Type>)
    | SizeOfExpr(baseType: Type, ty: Option<Type>)
    | TypecastExpr(to: Type, toConvert: Expr, ty: Option<Type>)
    | NoExpr

  datatype Stmt =
    | BlockStmt(block: Block)
    | While(expr: Expr, code: Stmt)
    | If(expr: Expr, code: Stmt, elseCode: Option<Stmt>)
    | Assign(left: Expr, right: Expr)
    | Return(value: Option<Expr>)
    | ExprStmt(expr: Expr)

  datatype Block = Block(vars: seq<VarDecl>, code: seq<Stmt>)

  datatype FunDecl = FunDecl(ty: Type, name: string, params: seq<VarDecl>, block: Block)
  {
    function Sig(): FunSig { FunSig(ty, name, params) }
  }

  datatype StructTypeDecl = StructTypeDecl(site: Site, name: string, variables: seq<VarDecl>)
  {
    /** The `StructType` object the declaration was parsed with. */
    function StructDecl(): Type { StructType(site, name) }
  }

  datatype Program = Program(structTypeDecls: seq<StructTypeDecl>, varDecls: seq<VarDecl>,
                             funDecls: seq<FunDecl>)

  /** Every expression below `e` is a real node, not the null of a syntax error. */
  predicate NullFreeExpr(e: Expr) {
    match e
    case NoExpr => false
    case FunCallExpr(_, args, _, _) => NullFreeArgs(args)
    case BinOp(l, _, r, _) => NullFreeExpr(l) && NullFreeExpr(r)
    case ArrayAccessExpr(a, i, _) => NullFreeExpr(a) && NullFreeExpr(i)
    case FieldAccessExpr(s, _, _) => NullFreeExpr(s)
    case ValueAtExpr(x, _) => NullFreeExpr(x)
    case TypecastExpr(_, x, _) => NullFreeExpr(x)
    case _ => true
  }

  predicate NullFreeArgs(args: seq<Expr>) {
    args == [] || (NullFreeExpr(args[0]) && NullFreeArgs(args[1..]))
  }

  /** No null expression where a parse without errors never leaves one: only the
      value of `return;` may be missing. */
  predicate WellFormedStmt(s: Stmt) {
    match s
    case BlockStmt(b) => WellFormedBlock(b)
    case While(c, body) => NullFreeExpr(c) && WellFormedStmt(body)
    case If(c, t, el) =>
      NullFreeExpr(c) && WellFormedStmt(t) && (el.Some? ==> WellFormedStmt(el.value))
    case Assign(l, r) => NullFreeExpr(l) && NullFreeExpr(r)
    case Return(v) => v.Some? ==> NullFreeExpr(v.value)
    case ExprStmt(x) => NullFreeExpr(x)
  }

  predicate WellFormedBlock(b: Block) {
    forall s <- b.code :: WellFormedStmt(s)
  }

  predicate WellFormedProgram(p: Program) {
    forall f <- p.funDecls :: WellFormedBlock(f.block)
  }
}
