/** `ASTPrinter`: renders a tree as bracketed text. Every `visit*` only appends to the
    writer, so each is a function from the node to the text it appends. */
module AstPrinter {
  import opened Java
  import opened Wrappers
  import opened Ast

  /** What the printer can render without a `NullPointerException`: no null child, and
      every `sizeof` already carries the `type` annotation that it prints. */
  predicate Printable(e: Expr) {
    match e
    case NoExpr => false
    case SizeOfExpr(_, ty) => ty.Some?
    case FunCallExpr(_, args, _, _) => forall a <- args :: Printable(a)
    case BinOp(l, _, r, _) => Printable(l) && Printable(r)
    case ArrayAccessExpr(a, i, _) => Printable(a) && Printable(i)
    case FieldAccessExpr(s, _, _) => Printable(s)
    case ValueAtExpr(x, _) => Printable(x)
    case TypecastExpr(_, x, _) => Printable(x)
    case _ => true
  }

  predicate PrintableStmt(s: Stmt) {
    match s
    case BlockStmt(b) => PrintableBlock(b)
    case While(c, body) => Printable(c) && PrintableStmt(body)
    case If(c, t, el) => Printable(c) && PrintableStmt(t) && (el.Some? ==> PrintableStmt(el.value))
    case Assign(l, r) => Printable(l) && Printable(r)
    case Return(v) => v.Some? ==> Printable(v.value)
    case ExprStmt(x) => Printable(x)
  }

  predicate PrintableBlock(b: Block) {
    forall s <- b.code :: PrintableStmt(s)
  }

  predicate PrintableProgram(p: Program) {
    forall f <- p.funDecls :: PrintableBlock(f.block)
  }

  function BaseName(b: BaseType): string {
    match b
    case INT => "INT"
    case CHAR => "CHAR"
    case VOID => "VOID"
  }

  function OpName(op: Op): string {
    match op
    case ADD => "ADD" case SUB => "SUB" case MUL => "MUL" case DIV => "DIV" case MOD => "MOD"
    case GT => "GT" case LT => "LT" case GE => "GE" case LE => "LE" case NE => "NE"
    case EQ => "EQ" case OR => "OR" case AND => "AND"
  }

  function PrintType(t: Type): string {
    match t
    case Base(b) => BaseName(b)
    case PointerType(_, p) => "PointerType(" + PrintType(p) + ")"
    case StructType(_, n) => "StructType(" + n + ")"
    case ArrayType(_, e, n) => "ArrayType(" + PrintType(e) + "," + IntToString(n) + ")"
  }

  function PrintVarDecl(vd: VarDecl): string {
    "VarDecl(" + PrintType(vd.ty) + "," + vd.varName + ")"
  }

  function PrintExpr(e: Expr): string
    requires Printable(e)
  {
    match e
    case IntLiteral(i) => "IntLiteral(" + IntToString(i) + ")"
    case StrLiteral(s) => "StrLiteral(" + s + ")"
    case ChrLiteral(c) => "ChrLiteral(" + [c] + ")"
    case VarExpr(n, _, _) => "VarExpr(" + n + ")"
    case FunCallExpr(n, args, _, _) => "FunCallLiteral(" + n + PrintArgs(args) + ")"
    case BinOp(l, op, r, _) => "BinOp(" + PrintExpr(l) + "," + OpName(op) + "," + PrintExpr(r) + ")"
    case ArrayAccessExpr(a, i, _) => "ArrayAccessExpr(" + PrintExpr(a) + "," + PrintExpr(i) + ")"
    case FieldAccessExpr(s, f, _) => "FieldAccessExpr(" + PrintExpr(s) + "," + f + ")"
    case ValueAtExpr(x, _) => "ValueAtExpr(" + PrintExpr(x) + ")"
    case SizeOfExpr(_, ty) => "SizeOfExpr(" + PrintType(ty.value) + ")"
    case TypecastExpr(t, x, _) => "TypecastExpr(" + PrintType(t) + "," + PrintExpr(x) + ")"
  }

  /** Each argument preceded by a comma. */
  function PrintArgs(args: seq<Expr>): string
    requires forall a <- args :: Printable(a)
  {
    if args == [] then "" else "," + PrintExpr(args[0]) + PrintArgs(args[1..])
  }

  function PrintStmt(s: Stmt): string
    requires PrintableStmt(s)
  {
    match s
    case BlockStmt(b) => PrintBlock(b)
    case While(c, body) => "While(" + PrintExpr(c) + "," + PrintStmt(body) + ")"
    case If(c, t, el) =>
      "If(" + PrintExpr(c) + "," + PrintStmt(t)
      + (if el.Some? then "," + PrintStmt(el.value) else "") + ")"
    case Assign(l, r) => "Assign(" + PrintExpr(l) + "," + PrintExpr(r) + ")"
    case Return(v) => "Return(" + (if v.Some? then "," + PrintExpr(v.value) else "") + ")"
    case ExprStmt(x) => "ExprStmt(" + PrintExpr(x) + ")"
  }

  function PrintStmts(ss: seq<Stmt>): seq<string>
    requires forall s <- ss :: PrintableStmt(s)
  {
    if ss == [] then [] else [PrintStmt(ss[0])] + PrintStmts(ss[1..])
  }

  function PrintVarDecls(vs: seq<VarDecl>): (r: seq<string>)
    ensures |r| == |vs| && forall i :: 0 <= i < |vs| ==> r[i] == PrintVarDecl(vs[i])
  {
    if vs == [] then [] else [PrintVarDecl(vs[0])] + PrintVarDecls(vs[1..])
  }

  /** The separator loops of `visitBlock` and `visitProgram`: every item is preceded by
      the current delimiter, which is `","` once anything has been written. */
  function Delimit(delimiter: string, items: seq<string>): string
    decreases items
  {
    if items == [] then "" else delimiter + items[0] + Delimit(",", items[1..])
  }

  function NextDelimiter(delimiter: string, items: seq<string>): string {
    if items == [] then delimiter else ","
  }

  function PrintBlock(b: Block): string
    requires PrintableBlock(b)
  {
    var decls := PrintVarDecls(b.vars);
    "Block(" + Delimit("", decls) + Delimit(NextDelimiter("", decls), PrintStmts(b.code)) + ")"
  }

  function PrintFunDecl(f: FunDecl): string
    requires PrintableBlock(f.block)
  {
    "FunDecl(" + PrintType(f.ty) + "," + f.name + "," + Terminate(PrintVarDecls(f.params))
    + PrintBlock(f.block) + ")"
  }

  /** Each item followed by a comma: the parameter loop of `visitFunDecl`. */
  function Terminate(items: seq<string>): string {
    if items == [] then "" else items[0] + "," + Terminate(items[1..])
  }

  /** `visitStructTypeDecl` writes a comma before each member. */
  function PrintStructTypeDecl(st: StructTypeDecl): string {
    "StructTypeDecl(" + PrintType(st.StructDecl()) + Delimit(",", PrintVarDecls(st.variables)) + ")"
  }

  function PrintStructs(ss: seq<StructTypeDecl>): (r: seq<string>)
    ensures |r| == |ss|
  {
    if ss == [] then [] else [PrintStructTypeDecl(ss[0])] + PrintStructs(ss[1..])
  }

  function PrintFunDecls(fs: seq<FunDecl>): (r: seq<string>)
    requires forall f <- fs :: PrintableBlock(f.block)
    ensures |r| == |fs|
  {
    if fs == [] then [] else [PrintFunDecl(fs[0])] + PrintFunDecls(fs[1..])
  }

  function PrintProgram(p: Program): string
    requires PrintableProgram(p)
  {
    var ss := PrintStructs(p.structTypeDecls);
    var vs := PrintVarDecls(p.varDecls);
    var fs := PrintFunDecls(p.funDecls);
    var d1 := NextDelimiter("", ss);
    var d2 := NextDelimiter(d1, vs);
    "Program(" + Delimit("", ss) + Delimit(d1, vs) + Delimit(d2, fs) + ")"
  }

  /** The items separated by commas, with no comma before the first or after the last. */
  function Join(items: seq<string>): string {
    if items == [] then "" else if |items| == 1 then items[0] else items[0] + "," + Join(items[1..])
  }

  /** Once the delimiter is a comma, `Delimit` puts a comma before every item. */
  lemma {:induction false} DelimitCommaIsCommaJoin(items: seq<string>)
    ensures Delimit(",", items) == if items == [] then "" else "," + Join(items)
  {
    if |items| > 1 {
      DelimitCommaIsCommaJoin(items[1..]);
    }
  }

  /** Starting from the empty delimiter, `Delimit` writes exactly `Join`. */
  lemma {:induction false} DelimitIsJoin(items: seq<string>)
    ensures Delimit("", items) == Join(items)
  {
    if items != [] {
      var first, rest := items[0], items[1..];
      DelimitCommaIsCommaJoin(rest);
      assert Delimit("", items) == "" + first + Delimit(",", rest);
      if rest == [] {
        assert "" + first + "" == first;
      } else {
        assert Join(items) == first + "," + Join(rest);
        assert "" + first + ("," + Join(rest)) == first + "," + Join(rest);
      }
    }
  }

  /** Two delimiter loops that share the delimiter write what one loop over both
      lists writes. */
  lemma {:induction false} DelimitTwice(a: seq<string>, b: seq<string>, d: string)
    ensures Delimit(d, a) + Delimit(NextDelimiter(d, a), b) == Delimit(d, a + b)
    decreases a
  {
    if a == [] {
      assert a + b == b;
    } else {
      DelimitTwice(a[1..], b, ",");
      assert (a + b)[0] == a[0];
      assert (a + b)[1..] == a[1..] + b;
      assert NextDelimiter(",", a[1..]) == ",";
    }
  }

  /** The three delimiter loops of `visitProgram` write the join of the three lists. */
  lemma {:induction false} DelimitThrice(a: seq<string>, b: seq<string>, c: seq<string>)
    ensures Delimit("", a) + Delimit(NextDelimiter("", a), b)
            + Delimit(NextDelimiter(NextDelimiter("", a), b), c)
         == Join(a + b + c)
  {
    var d1 := NextDelimiter("", a);
    var d2 := NextDelimiter(d1, b);
    DelimitTwice(a, b, "");
    assert d2 == NextDelimiter("", a + b);
    DelimitTwice(a + b, c, "");
    DelimitIsJoin(a + b + c);
  }

  /** `Program(` then the structs, globals and functions, comma-separated with no
      leading or trailing comma, then `)`. */
  lemma {:induction false} ProgramIsJoin(p: Program)
    requires PrintableProgram(p)
    ensures PrintProgram(p)
         == "Program(" + Join(PrintStructs(p.structTypeDecls) + PrintVarDecls(p.varDecls)
                              + PrintFunDecls(p.funDecls)) + ")"
  {
    var ss, vs, fs := PrintStructs(p.structTypeDecls), PrintVarDecls(p.varDecls), PrintFunDecls(p.funDecls);
    var d1 := NextDelimiter("", ss);
    var x, y, z := Delimit("", ss), Delimit(d1, vs), Delimit(NextDelimiter(d1, vs), fs);
    assert PrintProgram(p) == "Program(" + x + y + z + ")";
    DelimitThrice(ss, vs, fs);
    Regroup("Program(", x, y, z, ")");
  }

  lemma {:induction false} Regroup(a: string, x: string, y: string, z: string, b: string)
    ensures a + x + y + z + b == a + (x + y + z) + b
  {
  }

  /** `Block(` then the declarations and then the statements, comma-separated. */
  lemma {:induction false} BlockIsJoin(b: Block)
    requires PrintableBlock(b)
    ensures PrintBlock(b) == "Block(" + Join(PrintVarDecls(b.vars) + PrintStmts(b.code)) + ")"
  {
    DelimitTwice(PrintVarDecls(b.vars), PrintStmts(b.code), "");
    DelimitIsJoin(PrintVarDecls(b.vars) + PrintStmts(b.code));
  }

  /** Items each followed by a comma, then one more item: the join of them all. */
  lemma {:induction false} TerminateThenItem(items: seq<string>, last: string)
    ensures Terminate(items) + last == Join(items + [last])
    decreases items
  {
    if items == [] {
      assert items + [last] == [last];
    } else {
      TerminateThenItem(items[1..], last);
      assert (items + [last])[1..] == items[1..] + [last];
      assert Terminate(items) + last == items[0] + "," + (Terminate(items[1..]) + last);
    }
  }

  /** `FunDecl(` then the return type, the name, and the parameters and the block,
      comma-separated: the comma written after each parameter separates it from the
      next item. */
  lemma {:induction false} FunDeclIsJoin(f: FunDecl)
    requires PrintableBlock(f.block)
    ensures PrintFunDecl(f)
         == "FunDecl(" + PrintType(f.ty) + "," + f.name + ","
            + Join(PrintVarDecls(f.params) + [PrintBlock(f.block)]) + ")"
  {
    var t, b := Terminate(PrintVarDecls(f.params)), PrintBlock(f.block);
    TerminateThenItem(PrintVarDecls(f.params), b);
    var head := "FunDecl(" + PrintType(f.ty) + "," + f.name + ",";
    assert PrintFunDecl(f) == head + t + b + ")";
    RegroupLast(head, t, b, ")");
  }

  lemma RegroupLast(a: string, b: string, c: string, d: string)
    ensures a + b + c + d == a + (b + c) + d
  {
  }

  /** A `return` with a value prints a comma before it: `Return(,e)`. */
  lemma {:induction false} ReturnPrintsLeadingComma(e: Expr)
    requires Printable(e)
    ensures PrintStmt(Return(Some(e))) == "Return(," + PrintExpr(e) + ")"
    ensures PrintStmt(Return(None)) == "Return()"
  {
    var x := PrintExpr(e);
    assert PrintStmt(Return(Some(e))) == "Return(" + ("," + x) + ")";
    assert "Return(" + "," == "Return(,";
    RegroupMiddle("Return(", ",", x, ")");
    assert PrintStmt(Return(None)) == "Return(" + "" + ")";
  }

  lemma RegroupMiddle(a: string, b: string, c: string, d: string)
    ensures a + (b + c) + d == (a + b) + c + d
  {
  }

  /** `visitSizeOfExpr` prints the expression's `type` annotation, not the type it
      measures; the type checker sets that annotation to `int`, so a checked
      `sizeof(t)` prints `SizeOfExpr(INT)` whatever `t` is. */
  lemma SizeOfPrintsAnnotation(t: Type, ty: Type)
    ensures PrintExpr(SizeOfExpr(t, Some(ty))) == "SizeOfExpr(" + PrintType(ty) + ")"
    ensures PrintExpr(SizeOfExpr(t, Some(IntType))) == "SizeOfExpr(INT)"
  {
  }
}
