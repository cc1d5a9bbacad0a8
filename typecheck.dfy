/** Type checking (`sem/TypeCheckVisitor.java`).

    Every `visit*` returns the node's type (or `null`) and writes it into the node's
    `type` field; a block's type is the one type its statements return, and a
    function's block type must structurally equal its declared type.

    Operand, condition and assignment types are compared with Java's `!=`, i.e. by
    object identity (`Identical`); only call arguments and function results use the
    structural equality of `Types.Equal`.

    A `NullPointerException` or `ClassCastException` ends the whole pass; it is the
    outcome `Crash`. The checker throws one whenever a null type or a null child
    reaches a dereference: an error message built from a null type, the `vd` of an
    unresolved variable, the value of `return;`, the null of a syntax error.

    The first half of the module specifies the pass as functions of the tree; the
    class `TypeChecker` runs it as the Java does and is proved to compute them.
    The checker's scopes are all made with `new Scope()`, so nothing is ever looked
    up in them: they only report names declared twice in one scope, which is what
    `NameAnalysis.DeclareVars` counts. */
module TypeChecking {
  import opened Wrappers
  import opened Ast
  import opened Types
  import opened Scopes
  import opened NameAnalysis

  /** What a visit produces: the node with its `type` fields written, the type it
      returns (`None` for null, and for lists, which have no type), and the number of
      errors reported; or an uncaught exception. */
  datatype Typed<T> = Typed(node: T, ty: Option<Type>, errs: nat) | Crash

  /** What a typing rule decides about its operand types: the resulting type and the
      errors it reports, or that it throws. */
  datatype Verdict = Verdict(ty: Option<Type>, errs: nat) | Throws

  /** `new PointerType(BaseType.CHAR)`, made afresh at every visit of a string
      literal. */
  const StrType: Type := PointerType(Checked(0), CharType)

  // ------------------------------------------------------------------ identity

  /** Java's `a == b` on two types. The base types are shared constants; every other
      type is one object per allocation site, except the type of a string literal,
      which is a new object at each visit and so identical to no other type. A type
      never meets its own string-literal type twice: each flows from one literal
      to one comparison. */
  predicate Identical(a: Type, b: Type) {
    if a.Base? then a == b else !a.site.Checked? && a == b
  }

  /** `a == b` on two possibly-null types. */
  predicate SameRef(a: Option<Type>, b: Option<Type>) {
    if a.None? then b.None? else b.Some? && Identical(a.value, b.value)
  }

  // ---------------------------------------------------------------- typing rules

  /** `visitBinOp` after its operands: different operand objects are one error and
      a null result (and an exception if one is null, as the message prints both);
      ADD yields the left type; every other operator is one error unless the
      operands are INT, and yields INT. */
  function BinOpRule(op: Op, l: Option<Type>, r: Option<Type>): Verdict {
    if !SameRef(l, r) then
      if l.None? || r.None? then Throws else Verdict(None, 1)
    else if op == ADD then Verdict(l, 0)
    else if l.None? then Throws
    else Verdict(Some(IntType), Count(l.value != IntType))
  }

  /** `visitArrayAccessExpr`: the cast to `ArrayType` throws on any other type, and a
      null type reaches an error message that dereferences it. */
  function ArrayRule(t: Option<Type>): Verdict {
    if t.Some? && t.value.ArrayType? then Verdict(Some(t.value.elem), 0) else Throws
  }

  /** `visitValueAtExpr`: the pointee type; the cast to `PointerType` throws on any
      other type, and a null type is reported and then dereferenced. */
  function ValueAtRule(t: Option<Type>): Verdict {
    if t.Some? && t.value.PointerType? then Verdict(Some(t.value.pointerToType), 0) else Throws
  }

  /** `visitFieldAccessExpr`: a struct is looked up among the declarations by object
      (never its parsed declaration, as each use of `struct s` is a new object), and a
      member by `==` on the name strings, which come from different tokens and so are
      never the same object. Either way one error is reported and the result is null. */
  function FieldRule(t: Option<Type>): Verdict {
    if t.Some? && t.value.StructType? then Verdict(None, 1) else Throws
  }

  /** The condition of `while` and `if`: one error unless it is INT. */
  function CondRule(t: Option<Type>): Verdict {
    if t.None? then Throws else Verdict(None, Count(t.value != IntType))
  }

  /** `visitAssign` after its two sides: one error when they are different objects. */
  function AssignRule(l: Option<Type>, r: Option<Type>): Verdict {
    if SameRef(l, r) then Verdict(None, 0)
    else if l.None? || r.None? then Throws
    else Verdict(None, 1)
  }

  /** A call argument against its declared parameter type, structurally. */
  function ArgRule(declared: Type, actual: Option<Type>): Verdict {
    if actual.None? then Throws else Verdict(None, Count(!Equal(declared, actual.value)))
  }

  /** The left-hand sides `visitAssign` accepts. */
  predicate Assignable(e: Expr) {
    e.VarExpr? || e.FieldAccessExpr? || e.ArrayAccessExpr? || e.ValueAtExpr?
  }

  /** An `if` whose two branches both return a type, and different objects. */
  predicate Conflict(t: Option<Type>, el: Option<Type>) {
    t.Some? && el.Some? && !Identical(t.value, el.value)
  }

  // ------------------------------------------------------------------ the pass

  function CheckExpr(e: Expr): Typed<Expr> {
    match e
    case NoExpr => Crash
    case IntLiteral(_) => Typed(e, Some(IntType), 0)
    case StrLiteral(_) => Typed(e, Some(StrType), 0)
    case ChrLiteral(_) => Typed(e, Some(CharType), 0)
    case VarExpr(n, vd, _) =>
      if vd.None? then Crash else Typed(VarExpr(n, vd, Some(vd.value.ty)), Some(vd.value.ty), 0)
    case FunCallExpr(n, args, fd, _) =>
      if fd.None? then Typed(e, None, 1)
      else if |args| != |fd.value.params| then
        Typed(FunCallExpr(n, args, fd, Some(fd.value.ty)), Some(fd.value.ty), 1)
      else
        var a := CheckArgs(args, fd.value.params);
        if a.Crash? then Crash
        else Typed(FunCallExpr(n, a.node, fd, Some(fd.value.ty)), Some(fd.value.ty), a.errs)
    case BinOp(l, op, r, ty) =>
      var l' := CheckExpr(l);
      var r' := CheckExpr(r);
      if l'.Crash? || r'.Crash? then Crash
      else
        var v := BinOpRule(op, l'.ty, r'.ty);
        if v.Throws? then Crash
        else Typed(BinOp(l'.node, op, r'.node, if SameRef(l'.ty, r'.ty) then v.ty else ty),
                   v.ty, l'.errs + r'.errs + v.errs)
    case ArrayAccessExpr(a, i, _) =>
      var a' := CheckExpr(a);
      if a'.Crash? || ArrayRule(a'.ty).Throws? then Crash
      else Typed(ArrayAccessExpr(a'.node, i, ArrayRule(a'.ty).ty), ArrayRule(a'.ty).ty, a'.errs)
    case FieldAccessExpr(s, f, ty) =>
      var s' := CheckExpr(s);
      if s'.Crash? || FieldRule(s'.ty).Throws? then Crash
      else Typed(FieldAccessExpr(s'.node, f, ty), None, s'.errs + FieldRule(s'.ty).errs)
    case ValueAtExpr(x, _) =>
      var x' := CheckExpr(x);
      if x'.Crash? || ValueAtRule(x'.ty).Throws? then Crash
      else Typed(ValueAtExpr(x'.node, ValueAtRule(x'.ty).ty), ValueAtRule(x'.ty).ty, x'.errs)
    case SizeOfExpr(t, _) => Typed(SizeOfExpr(t, Some(IntType)), Some(IntType), 0)
    case TypecastExpr(t, x, _) =>
      var x' := CheckExpr(x);
      if x'.Crash? then Crash else Typed(TypecastExpr(t, x'.node, Some(t)), Some(t), x'.errs)
  }

  /** The argument loop of `visitFunCallExpr`, in order, for a call of the right
      arity. */
  function CheckArgs(args: seq<Expr>, params: seq<VarDecl>): (r: Typed<seq<Expr>>)
    requires |args| == |params|
    ensures r.Typed? ==> |r.node| == |args| && r.ty.None?
  {
    if args == [] then Typed([], None, 0)
    else
      var init := CheckArgs(args[..|args| - 1], params[..|params| - 1]);
      var last := CheckExpr(args[|args| - 1]);
      if init.Crash? || last.Crash? then Crash
      else
        var v := ArgRule(params[|params| - 1].ty, last.ty);
        if v.Throws? then Crash else Typed(init.node + [last.node], None, init.errs + last.errs + v.errs)
  }

  function CheckStmt(s: Stmt): Typed<Stmt> {
    match s
    case BlockStmt(b) =>
      var b' := CheckBlock(b);
      if b'.Crash? then Crash else Typed(BlockStmt(b'.node), b'.ty, b'.errs)
    case While(c, body) =>
      var c' := CheckExpr(c);
      var body' := CheckStmt(body);
      if c'.Crash? || CondRule(c'.ty).Throws? || body'.Crash? then Crash
      else Typed(While(c'.node, body'.node), body'.ty, c'.errs + CondRule(c'.ty).errs + body'.errs)
    case If(c, t, el) =>
      var c' := CheckExpr(c);
      var t' := CheckStmt(t);
      if c'.Crash? || CondRule(c'.ty).Throws? || t'.Crash? then Crash
      else if el.None? then
        Typed(If(c'.node, t'.node, None), t'.ty, c'.errs + CondRule(c'.ty).errs + t'.errs)
      else
        var el' := CheckStmt(el.value);
        if el'.Crash? then Crash
        else Typed(If(c'.node, t'.node, Some(el'.node)), t'.ty,
                   c'.errs + CondRule(c'.ty).errs + t'.errs + el'.errs + Count(Conflict(t'.ty, el'.ty)))
    case Assign(l, r) =>
      if !Assignable(l) then Typed(s, None, 1)
      else
        var l' := CheckExpr(l);
        var r' := CheckExpr(r);
        if l'.Crash? || r'.Crash? || AssignRule(l'.ty, r'.ty).Throws? then Crash
        else Typed(Assign(l'.node, r'.node), None, l'.errs + r'.errs + AssignRule(l'.ty, r'.ty).errs)
    case Return(v) =>
      if v.None? then Crash
      else
        var x := CheckExpr(v.value);
        if x.Crash? then Crash else Typed(Return(Some(x.node)), x.ty, x.errs)
    case ExprStmt(x) =>
      var x' := CheckExpr(x);
      if x'.Crash? then Crash else Typed(ExprStmt(x'.node), x'.ty, x'.errs)
  }

  /** The statement loop of `visitBlock`, in order. */
  function CheckStmts(ss: seq<Stmt>): (r: Typed<seq<Stmt>>)
    ensures r.Typed? ==> |r.node| == |ss| && r.ty.None?
  {
    if ss == [] then Typed([], None, 0)
    else
      var init := CheckStmts(ss[..|ss| - 1]);
      var last := CheckStmt(ss[|ss| - 1]);
      if init.Crash? || last.Crash? then Crash
      else Typed(init.node + [last.node], None, init.errs + last.errs)
  }

  /** The non-null types the statements return, in order: `returnVals`. */
  function Returned(ss: seq<Stmt>): seq<Type> {
    if ss == [] then []
    else Returned(ss[..|ss| - 1]) + TypeOf(CheckStmt(ss[|ss| - 1]))
  }

  function TypeOf(r: Typed<Stmt>): seq<Type> {
    if r.Typed? && r.ty.Some? then [r.ty.value] else []
  }

  /** `new LinkedList<Type>(new HashSet<Type>(ts))`: one of each object. No type
      class overrides `equals`, so the set compares by identity. */
  function Dedup(ts: seq<Type>): seq<Type> {
    if ts == [] then []
    else
      var d := Dedup(ts[..|ts| - 1]);
      if exists u <- d :: Identical(u, ts[|ts| - 1]) then d else d + [ts[|ts| - 1]]
  }

  /** The return type `visitBlock` picks from the returned types, and its errors. */
  function BlockType(ts: seq<Type>): (Type, nat) {
    var d := Dedup(ts);
    if |d| > 1 then (VoidType, 1) else if |d| == 1 then (d[0], 0) else (VoidType, 0)
  }

  /** `visitBlock`: the declarations go into a new scope, then the statements are
      checked, and the block's type is picked from what they return. */
  function CheckBlock(b: Block): (r: Typed<Block>)
    ensures r.Typed? ==> r.ty.Some?
  {
    var decls := DeclareVars(b.vars, [map[]]);
    var code := CheckStmts(b.code);
    if code.Crash? then Crash
    else
      var choice := BlockType(Returned(b.code));
      Typed(Block(b.vars, code.node), Some(choice.0), decls.1 + code.errs + choice.1)
  }

  /** `visitFunDecl`: a new scope holding the function's own symbol and then its
      parameters; the block; and one error when the block's type is not structurally
      the declared type. The result is the declared type. */
  function CheckFunDecl(f: FunDecl): Typed<FunDecl> {
    var own := Bind([map[]], FunSymbol(f.Sig()));
    var params := DeclareVars(f.params, own.0);
    var body := CheckBlock(f.block);
    if body.Crash? then Crash
    else Typed(FunDecl(f.ty, f.name, f.params, body.node), Some(f.ty),
               Count(own.1) + params.1 + body.errs + Count(!Equal(f.ty, body.ty.value)))
  }

  function CheckFunDecls(fs: seq<FunDecl>): (r: Typed<seq<FunDecl>>)
    ensures r.Typed? ==> |r.node| == |fs| && r.ty.None?
  {
    if fs == [] then Typed([], None, 0)
    else
      var init := CheckFunDecls(fs[..|fs| - 1]);
      var last := CheckFunDecl(fs[|fs| - 1]);
      if init.Crash? || last.Crash? then Crash
      else Typed(init.node + [last.node], None, init.errs + last.errs)
  }

  /** `visitProgram`: one scope for the globals and then every struct's members;
      then each function. It returns null. */
  function CheckProgram(p: Program): (r: Typed<Program>)
    ensures r.Typed? ==> r.ty.None?
  {
    var globals := DeclareVars(p.varDecls, [map[]]);
    var members := DeclareVars(Members(p.structTypeDecls), globals.0);
    var funs := CheckFunDecls(p.funDecls);
    if funs.Crash? then Crash
    else Typed(Program(p.structTypeDecls, p.varDecls, funs.node), None,
               globals.1 + members.1 + funs.errs)
  }

  // ------------------------------------------------------------------ properties

  /** `==` on types is symmetric and transitive; it is reflexive on every type but
      the string-literal type, which is a new object at each literal. */
  lemma IdenticalIsPartialEquivalence(a: Type, b: Type, c: Type)
    ensures Identical(a, b) ==> Identical(b, a)
    ensures Identical(a, b) && Identical(b, c) ==> Identical(a, c)
    ensures Identical(a, a) <==> a.Base? || !a.site.Checked?
  {
  }

  /** The same object is structurally equal to itself: `!=` is the stricter test. */
  lemma IdenticalImpliesEqual(a: Type, b: Type)
    requires Identical(a, b)
    ensures Equal(a, b)
  {
    EqualReflexive(a);
  }

  /** A binary operation is error-free exactly when its operands are the same object
      and either it is ADD, of that object's type, or they are INT and it is INT. */
  lemma BinOpNoError(op: Op, l: Option<Type>, r: Option<Type>, t: Option<Type>)
    ensures BinOpRule(op, l, r) == Verdict(t, 0)
        <==> SameRef(l, r) && (if op == ADD then t == l else l == Some(IntType) && t == l)
  {
  }

  /** Whatever the operator, a binary operation that does not throw yields null, the
      left operand's type, or INT. */
  lemma BinOpResult(op: Op, l: Option<Type>, r: Option<Type>)
    requires BinOpRule(op, l, r).Verdict?
    ensures BinOpRule(op, l, r).ty in {None, l, Some(IntType)}
    ensures op != ADD && BinOpRule(op, l, r).ty.Some? ==> BinOpRule(op, l, r).ty == Some(IntType)
  {
  }

  /** Two string literals are two different objects, so even `"a" + "a"` is an error
      and has no type. */
  lemma StringOperandsNeverMatch(a: string, b: string, op: Op, ty: Option<Type>)
    ensures CheckExpr(BinOp(StrLiteral(a), op, StrLiteral(b), ty))
         == Typed(BinOp(StrLiteral(a), op, StrLiteral(b), ty), None, 1)
  {
  }

  /** Two variables declared `char* x; char* y;` have structurally equal types, yet
      `x + y` is an error: each declaration parsed its own `PointerType`. */
  lemma DistinctDeclarationsDistinctTypes(x: VarDecl, y: VarDecl, op: Op)
    requires x.ty == PointerType(Parsed(1), CharType) && y.ty == PointerType(Parsed(2), CharType)
    ensures Equal(x.ty, y.ty)
    ensures var r := CheckExpr(BinOp(VarExpr(x.varName, Some(x), None), op, VarExpr(y.varName, Some(y), None), None));
            r.Typed? && r.ty.None? && r.errs == 1
  {
  }

  /** Every annotated kind of expression stores the type its visit returns in its
      `type` field. */
  lemma AnnotationIsResult(e: Expr)
    requires !(e.NoExpr? || e.IntLiteral? || e.StrLiteral? || e.ChrLiteral?)
    requires CheckExpr(e).Typed? && CheckExpr(e).ty.Some?
    ensures CheckExpr(e).node.ty == CheckExpr(e).ty
  {
  }

  /** The checker changes nothing but `type` fields: the tree with them cleared. */
  function Bare(e: Expr): Expr {
    match e
    case VarExpr(n, vd, _) => VarExpr(n, vd, None)
    case FunCallExpr(n, args, fd, _) => FunCallExpr(n, BareArgs(args), fd, None)
    case BinOp(l, op, r, _) => BinOp(Bare(l), op, Bare(r), None)
    case ArrayAccessExpr(a, i, _) => ArrayAccessExpr(Bare(a), Bare(i), None)
    case FieldAccessExpr(s, f, _) => FieldAccessExpr(Bare(s), f, None)
    case ValueAtExpr(x, _) => ValueAtExpr(Bare(x), None)
    case SizeOfExpr(t, _) => SizeOfExpr(t, None)
    case TypecastExpr(t, x, _) => TypecastExpr(t, Bare(x), None)
    case _ => e
  }

  function BareArgs(args: seq<Expr>): (r: seq<Expr>)
    ensures |r| == |args|
  {
    if args == [] then [] else BareArgs(args[..|args| - 1]) + [Bare(args[|args| - 1])]
  }

  function BareStmt(s: Stmt): Stmt {
    match s
    case BlockStmt(b) => BlockStmt(BareBlock(b))
    case While(c, body) => While(Bare(c), BareStmt(body))
    case If(c, t, el) => If(Bare(c), BareStmt(t), if el.None? then None else Some(BareStmt(el.value)))
    case Assign(l, r) => Assign(Bare(l), Bare(r))
    case Return(v) => Return(if v.None? then None else Some(Bare(v.value)))
    case ExprStmt(x) => ExprStmt(Bare(x))
  }

  function BareStmts(ss: seq<Stmt>): (r: seq<Stmt>)
    ensures |r| == |ss|
  {
    if ss == [] then [] else BareStmts(ss[..|ss| - 1]) + [BareStmt(ss[|ss| - 1])]
  }

  function BareBlock(b: Block): Block {
    Block(b.vars, BareStmts(b.code))
  }

  lemma {:induction false} ExprOnlyAnnotated(e: Expr)
    ensures CheckExpr(e).Typed? ==> Bare(CheckExpr(e).node) == Bare(e)
    decreases e, 1
  {
    match e
    case FunCallExpr(_, args, fd, _) =>
      if fd.Some? && |args| == |fd.value.params| {
        ArgsOnlyAnnotated(args, fd.value.params);
      }
    case BinOp(l, _, r, _) =>
      ExprOnlyAnnotated(l);
      ExprOnlyAnnotated(r);
    case ArrayAccessExpr(a, _, _) => ExprOnlyAnnotated(a);
    case FieldAccessExpr(s, _, _) => ExprOnlyAnnotated(s);
    case ValueAtExpr(x, _) => ExprOnlyAnnotated(x);
    case TypecastExpr(_, x, _) => ExprOnlyAnnotated(x);
    case _ =>
  }

  lemma {:induction false} ArgsOnlyAnnotated(args: seq<Expr>, params: seq<VarDecl>)
    requires |args| == |params|
    ensures CheckArgs(args, params).Typed? ==> BareArgs(CheckArgs(args, params).node) == BareArgs(args)
    decreases args, 2
  {
    if args != [] {
      var init := args[..|args| - 1];
      ArgsOnlyAnnotated(init, params[..|params| - 1]);
      ExprOnlyAnnotated(args[|args| - 1]);
      var r := CheckArgs(args, params);
      if r.Typed? {
        var ri := CheckArgs(init, params[..|params| - 1]).node;
        var rl := CheckExpr(args[|args| - 1]).node;
        assert r.node == ri + [rl];
        assert (ri + [rl])[..|ri|] == ri;
      }
    }
  }

  lemma {:induction false} StmtOnlyAnnotated(s: Stmt)
    ensures CheckStmt(s).Typed? ==> BareStmt(CheckStmt(s).node) == BareStmt(s)
    decreases s, 1
  {
    match s
    case BlockStmt(b) => BlockOnlyAnnotated(b);
    case While(c, body) =>
      ExprOnlyAnnotated(c);
      StmtOnlyAnnotated(body);
    case If(c, t, el) =>
      ExprOnlyAnnotated(c);
      StmtOnlyAnnotated(t);
      if el.Some? {
        StmtOnlyAnnotated(el.value);
      }
    case Assign(l, r) =>
      ExprOnlyAnnotated(l);
      ExprOnlyAnnotated(r);
    case Return(v) =>
      if v.Some? {
        ExprOnlyAnnotated(v.value);
      }
    case ExprStmt(x) => ExprOnlyAnnotated(x);
  }

  lemma {:induction false} StmtsOnlyAnnotated(ss: seq<Stmt>)
    ensures CheckStmts(ss).Typed? ==> BareStmts(CheckStmts(ss).node) == BareStmts(ss)
    decreases ss, 2
  {
    if ss != [] {
      var init := ss[..|ss| - 1];
      StmtsOnlyAnnotated(init);
      StmtOnlyAnnotated(ss[|ss| - 1]);
      var r := CheckStmts(ss);
      if r.Typed? {
        var ri := CheckStmts(init).node;
        var rl := CheckStmt(ss[|ss| - 1]).node;
        assert r.node == ri + [rl];
        assert (ri + [rl])[..|ri|] == ri;
      }
    }
  }

  lemma {:induction false} BlockOnlyAnnotated(b: Block)
    ensures CheckBlock(b).Typed? ==> BareBlock(CheckBlock(b).node) == BareBlock(b)
    decreases b, 3
  {
    StmtsOnlyAnnotated(b.code);
  }

  /** The first returned type always survives `Dedup`, and nothing is added. */
  lemma {:induction false} DedupShape(ts: seq<Type>)
    ensures |Dedup(ts)| <= |ts| && (ts == [] <==> Dedup(ts) == [])
    ensures ts != [] ==> Dedup(ts)[0] == ts[0]
  {
    if ts != [] {
      DedupShape(ts[..|ts| - 1]);
      if |ts| > 1 {
        assert ts[..|ts| - 1][0] == ts[0];
      }
    }
  }

  /** When every returned type is the first object, `Dedup` keeps just that one. */
  lemma {:induction false} DedupAllIdentical(ts: seq<Type>)
    requires ts != [] && forall i :: 0 < i < |ts| ==> Identical(ts[0], ts[i])
    ensures Dedup(ts) == [ts[0]]
  {
    if |ts| > 1 {
      var init := ts[..|ts| - 1];
      forall j | 0 < j < |init| ensures Identical(init[0], init[j]) {
        assert init[j] == ts[j];
      }
      DedupAllIdentical(init);
      assert Dedup(init)[0] in Dedup(init);
    }
  }

  /** When some returned type is another object than the first, `Dedup` keeps at
      least two. */
  lemma {:induction false} DedupMixed(ts: seq<Type>, i: nat)
    requires 0 < i < |ts| && !Identical(ts[0], ts[i])
    ensures |Dedup(ts)| >= 2
  {
    var init := ts[..|ts| - 1];
    var d := Dedup(init);
    assert init[0] == ts[0];
    if i < |init| {
      assert init[i] == ts[i];
      DedupMixed(init, i);
    } else if exists j :: 0 < j < |init| && !Identical(init[0], init[j]) {
      var j :| 0 < j < |init| && !Identical(init[0], init[j]);
      DedupMixed(init, j);
    } else {
      DedupAllIdentical(init);
      assert !exists u <- d :: Identical(u, ts[i]);
    }
  }

  /** `visitBlock`'s type: VOID when nothing is returned; the returned type when
      every statement that returns one returns that same object; otherwise VOID and
      one error. */
  lemma BlockTypeChoice(ts: seq<Type>)
    ensures ts == [] ==> BlockType(ts) == (VoidType, 0)
    ensures ts != [] && (forall i :: 0 < i < |ts| ==> Identical(ts[0], ts[i]))
            ==> BlockType(ts) == (ts[0], 0)
    ensures ts != [] && !(forall i :: 0 < i < |ts| ==> Identical(ts[0], ts[i]))
            ==> BlockType(ts) == (VoidType, 1)
  {
    if ts != [] {
      if forall i :: 0 < i < |ts| ==> Identical(ts[0], ts[i]) {
        DedupAllIdentical(ts);
      } else {
        var i :| 0 < i < |ts| && !Identical(ts[0], ts[i]);
        DedupMixed(ts, i);
      }
    }
  }

  /** An expression statement returns the expression's type too, so it counts as a
      return: `void f() { 1; }` is reported as returning INT, while `int f() { 1; }`
      is accepted. */
  lemma ExprStmtCountsAsReturn()
    ensures CheckFunDecl(FunDecl(VoidType, "f", [], Block([], [ExprStmt(IntLiteral(1))]))).errs == 1
    ensures CheckFunDecl(FunDecl(IntType, "f", [], Block([], [ExprStmt(IntLiteral(1))]))).errs == 0
  {
    var ss := [ExprStmt(IntLiteral(1))];
    assert ss[..0] == [];
    assert Returned(ss) == [IntType];
    BlockTypeChoice([IntType]);
  }

  /** Returning INT and then CHAR is two errors: one for the block, whose type is then
      VOID, and one for the function declared INT. */
  lemma ConflictingReturns()
    ensures var r := CheckFunDecl(FunDecl(IntType, "f", [],
              Block([], [Return(Some(IntLiteral(1))), Return(Some(ChrLiteral('c')))])));
            r.Typed? && r.errs == 2
  {
    ConflictingBlock();
  }

  lemma ConflictingBlock()
    ensures var ss := [Return(Some(IntLiteral(1))), Return(Some(ChrLiteral('c')))];
            CheckBlock(Block([], ss)) == Typed(Block([], ss), Some(VoidType), 1)
  {
    var ss := [Return(Some(IntLiteral(1))), Return(Some(ChrLiteral('c')))];
    ReturnsTypes(ss);
    var ts := [IntType, CharType];
    assert !Identical(ts[0], ts[1]);
    BlockTypeChoice(ts);
    assert BlockType(ts) == (VoidType, 1);
  }

  lemma ReturnsTypes(ss: seq<Stmt>)
    requires ss == [Return(Some(IntLiteral(1))), Return(Some(ChrLiteral('c')))]
    ensures CheckStmts(ss) == Typed(ss, None, 0)
    ensures Returned(ss) == [IntType, CharType]
  {
    assert ss[..1] == [Return(Some(IntLiteral(1)))] && ss[..1][..0] == [];
    assert CheckStmt(ss[0]) == Typed(ss[0], Some(IntType), 0);
    assert CheckStmt(ss[1]) == Typed(ss[1], Some(CharType), 0);
    assert CheckStmts(ss[..1]) == Typed([] + [ss[0]], None, 0);
    assert [] + [ss[0]] == [ss[0]] && [ss[0]] + [ss[1]] == ss;
    assert Returned(ss[..1]) == [] + [IntType];
  }

  /** The function's own symbol shares the parameters' scope: a parameter named
      like its function is a redeclaration, which the name analyser (which binds the
      function in the enclosing scope) does not report. */
  lemma ParameterNamedLikeFunction(p: VarDecl, body: Block)
    requires p.varName == "f" && body.vars == [] && body.code == []
    ensures CheckFunDecl(FunDecl(VoidType, "f", [p], body)).Typed?
    ensures CheckFunDecl(FunDecl(VoidType, "f", [p], body)).errs == 1
    ensures DeclareVars([p], [map[]] + [map[]]).1 == 0
  {
    var f := FunDecl(VoidType, "f", [p], body);
    var own := Bind([map[]], FunSymbol(f.Sig()));
    assert [p][..0] == [];
    assert DeclareVars([p], own.0).1 == 1;
    assert Returned([]) == [];
    assert CheckBlock(body) == Typed(Block([], []), Some(VoidType), 0);
  }

  // ------------------------------------------- one more iteration of each loop

  lemma {:induction false} ArgsCrashSticks(args: seq<Expr>, params: seq<VarDecl>, k: nat)
    requires |args| == |params| && k <= |args| && CheckArgs(args[..k], params[..k]).Crash?
    ensures CheckArgs(args, params).Crash?
    decreases |args| - k
  {
    if k < |args| {
      assert args[..k + 1][..k] == args[..k] && params[..k + 1][..k] == params[..k];
      ArgsCrashSticks(args, params, k + 1);
    } else {
      assert args[..k] == args && params[..k] == params;
    }
  }

  lemma CheckArgsStep(args: seq<Expr>, params: seq<VarDecl>, i: nat)
    requires |args| == |params| && i < |args|
    ensures var init := CheckArgs(args[..i], params[..i]);
            var last := CheckExpr(args[i]);
            CheckArgs(args[..i + 1], params[..i + 1])
            == if init.Crash? || last.Crash? || ArgRule(params[i].ty, last.ty).Throws? then Crash
               else Typed(init.node + [last.node], None,
                          init.errs + last.errs + ArgRule(params[i].ty, last.ty).errs)
  {
    assert args[..i + 1][..i] == args[..i] && params[..i + 1][..i] == params[..i];
  }

  lemma {:induction false} StmtsCrashSticks(ss: seq<Stmt>, k: nat)
    requires k <= |ss| && CheckStmts(ss[..k]).Crash?
    ensures CheckStmts(ss).Crash?
    decreases |ss| - k
  {
    if k < |ss| {
      assert ss[..k + 1][..k] == ss[..k];
      StmtsCrashSticks(ss, k + 1);
    } else {
      assert ss[..k] == ss;
    }
  }

  lemma {:induction false} FunDeclsCrashSticks(fs: seq<FunDecl>, k: nat)
    requires k <= |fs| && CheckFunDecls(fs[..k]).Crash?
    ensures CheckFunDecls(fs).Crash?
    decreases |fs| - k
  {
    if k < |fs| {
      assert fs[..k + 1][..k] == fs[..k];
      FunDeclsCrashSticks(fs, k + 1);
    } else {
      assert fs[..k] == fs;
    }
  }

  lemma MembersStep(sts: seq<StructTypeDecl>, i: nat)
    requires i < |sts|
    ensures Members(sts[..i + 1]) == Members(sts[..i]) + sts[i].variables
  {
    assert sts[..i + 1][..i] == sts[..i];
  }

  // ------------------------------------------------------------------ the visitor

  class TypeChecker {
    /** The struct declarations visited so far. */
    var structs: seq<StructTypeDecl>

    constructor ()
      ensures structs == []
    {
      structs := [];
    }

    /** The `accept` of every expression. */
    method VisitExpr(e: Expr) returns (r: Typed<Expr>)
      ensures r == CheckExpr(e)
      decreases e, 2
    {
      match e
      case NoExpr => r := Crash;
      case IntLiteral(_) => r := Typed(e, Some(IntType), 0);
      case StrLiteral(_) => r := Typed(e, Some(PointerType(Checked(0), CharType)), 0);
      case ChrLiteral(_) => r := Typed(e, Some(CharType), 0);
      case VarExpr(n, vd, _) =>
        if vd.None? {
          r := Crash;
        } else {
          r := Typed(VarExpr(n, vd, Some(vd.value.ty)), Some(vd.value.ty), 0);
        }
      case FunCallExpr(_, _, _, _) => r := VisitFunCallExpr(e);
      case BinOp(_, _, _, _) => r := VisitBinOp(e);
      case ArrayAccessExpr(_, _, _) => r := VisitArrayAccessExpr(e);
      case FieldAccessExpr(_, _, _) => r := VisitFieldAccessExpr(e);
      case ValueAtExpr(x, _) =>
        var x' := VisitExpr(x);
        if x'.Crash? || x'.ty.None? || !x'.ty.value.PointerType? {
          r := Crash;
        } else {
          var t := x'.ty.value.pointerToType;
          r := Typed(ValueAtExpr(x'.node, Some(t)), Some(t), x'.errs);
        }
      case SizeOfExpr(t, _) => r := Typed(SizeOfExpr(t, Some(IntType)), Some(IntType), 0);
      case TypecastExpr(t, x, _) =>
        var x' := VisitExpr(x);
        if x'.Crash? {
          r := Crash;
        } else {
          r := Typed(TypecastExpr(t, x'.node, Some(t)), Some(t), x'.errs);
        }
    }

    /** `visitFunCallExpr`: the call's type is the declared return type; with the
        declared number of arguments, each is checked against its parameter. */
    method VisitFunCallExpr(e: Expr) returns (r: Typed<Expr>)
      requires e.FunCallExpr?
      ensures r == CheckExpr(e)
      decreases e, 1
    {
      if e.fd.None? {
        return Typed(e, None, 1);
      }
      var f := e.fd.value;
      if |e.args| != |f.params| {
        return Typed(FunCallExpr(e.name, e.args, e.fd, Some(f.ty)), Some(f.ty), 1);
      }
      var a := VisitArgs(e.args, f.params);
      if a.Crash? {
        r := Crash;
      } else {
        r := Typed(FunCallExpr(e.name, a.node, e.fd, Some(f.ty)), Some(f.ty), a.errs);
      }
    }

    /** The argument loop of `visitFunCallExpr`. */
    method VisitArgs(args: seq<Expr>, params: seq<VarDecl>) returns (r: Typed<seq<Expr>>)
      requires |args| == |params|
      ensures r == CheckArgs(args, params)
      decreases args, 3
    {
      var node: seq<Expr> := [];
      var errs: nat := 0;
      var i := 0;
      while i < |args|
        invariant 0 <= i <= |args|
        invariant CheckArgs(args[..i], params[..i]) == Typed(node, None, errs)
      {
        var actual := VisitExpr(args[i]);
        CheckArgsStep(args, params, i);
        if actual.Crash? || actual.ty.None? {
          ArgsCrashSticks(args, params, i + 1);
          return Crash;
        }
        if !Equal(params[i].ty, actual.ty.value) {
          errs := errs + 1;
        }
        node, errs := node + [actual.node], errs + actual.errs;
        i := i + 1;
      }
      assert args[..i] == args && params[..i] == params;
      r := Typed(node, None, errs);
    }

    /** `visitBinOp`: both operands, then the rule of the operator. */
    method VisitBinOp(e: Expr) returns (r: Typed<Expr>)
      requires e.BinOp?
      ensures r == CheckExpr(e)
      decreases e, 1
    {
      var left := VisitExpr(e.left);
      var right := VisitExpr(e.right);
      if left.Crash? || right.Crash? {
        return Crash;
      }
      var errs := left.errs + right.errs;
      if !SameRef(left.ty, right.ty) {
        if left.ty.None? || right.ty.None? {
          return Crash;
        }
        return Typed(BinOp(left.node, e.op, right.node, e.ty), None, errs + 1);
      }
      var ret: Option<Type>;
      if e.op == ADD {
        ret := left.ty;
      } else {
        if left.ty.None? {
          return Crash;
        }
        if left.ty.value != IntType {
          errs := errs + 1;
        }
        ret := Some(IntType);
      }
      r := Typed(BinOp(left.node, e.op, right.node, ret), ret, errs);
    }

    /** `visitArrayAccessExpr`: only the array is visited, never the index. */
    method VisitArrayAccessExpr(e: Expr) returns (r: Typed<Expr>)
      requires e.ArrayAccessExpr?
      ensures r == CheckExpr(e)
      decreases e, 1
    {
      var a := VisitExpr(e.arr);
      if a.Crash? || a.ty.None? || !a.ty.value.ArrayType? {
        return Crash;
      }
      var t := a.ty.value.elem;
      r := Typed(ArrayAccessExpr(a.node, e.index, Some(t)), Some(t), a.errs);
    }

    /** `visitFieldAccessExpr`: the declaration of the struct is looked up by object,
        and its member by `==` on the names. */
    method VisitFieldAccessExpr(e: Expr) returns (r: Typed<Expr>)
      requires e.FieldAccessExpr?
      ensures r == CheckExpr(e)
      decreases e, 1
    {
      var s := VisitExpr(e.struct);
      if s.Crash? || s.ty.None? || !s.ty.value.StructType? {
        return Crash;
      }
      var st := s.ty.value;
      if exists d <- structs :: Identical(d.StructDecl(), st) {
        // the member's name and the field's are different String objects
        r := Typed(FieldAccessExpr(s.node, e.field, e.ty), None, s.errs + 1);
      } else {
        // "Struct ... has not been defined"
        r := Typed(FieldAccessExpr(s.node, e.field, e.ty), None, s.errs + 1);
      }
    }

    /** The `accept` of every statement. */
    method VisitStmt(s: Stmt) returns (r: Typed<Stmt>)
      ensures r == CheckStmt(s)
      decreases s, 1
    {
      match s
      case BlockStmt(b) =>
        var b' := VisitBlock(b);
        r := if b'.Crash? then Crash else Typed(BlockStmt(b'.node), b'.ty, b'.errs);
      case While(_, _) => r := VisitWhile(s);
      case If(_, _, _) => r := VisitIf(s);
      case Assign(_, _) => r := VisitAssign(s);
      case Return(v) =>
        if v.None? {
          return Crash;
        }
        var x := VisitExpr(v.value);
        r := if x.Crash? then Crash else Typed(Return(Some(x.node)), x.ty, x.errs);
      case ExprStmt(x) =>
        var x' := VisitExpr(x);
        r := if x'.Crash? then Crash else Typed(ExprStmt(x'.node), x'.ty, x'.errs);
    }

    /** The condition check of `visitWhile` and `visitIf`. */
    method VisitCondition(c: Expr) returns (r: Typed<Expr>)
      ensures r.Crash? <==> CheckExpr(c).Crash? || CondRule(CheckExpr(c).ty).Throws?
      ensures r.Typed? ==> r.node == CheckExpr(c).node
      ensures r.Typed? ==> r.errs == CheckExpr(c).errs + CondRule(CheckExpr(c).ty).errs
      decreases c, 3
    {
      r := VisitExpr(c);
      if r.Crash? || r.ty.None? {
        return Crash;
      }
      if r.ty.value != IntType {
        r := r.(errs := r.errs + 1);
      }
    }

    /** `visitWhile`: the condition must be INT; the loop's type is its body's. */
    method VisitWhile(s: Stmt) returns (r: Typed<Stmt>)
      requires s.While?
      ensures r == CheckStmt(s)
      decreases s, 0
    {
      var c := VisitCondition(s.expr);
      var body := VisitStmt(s.code);
      if c.Crash? || body.Crash? {
        return Crash;
      }
      r := Typed(While(c.node, body.node), body.ty, c.errs + body.errs);
    }

    /** `visitIf`: the condition must be INT; two branch types that are different
        objects are a conflict; the statement's type is the then-branch's. */
    method VisitIf(s: Stmt) returns (r: Typed<Stmt>)
      requires s.If?
      ensures r == CheckStmt(s)
      decreases s, 0
    {
      var c := VisitCondition(s.expr);
      var t := VisitStmt(s.code);
      if c.Crash? || t.Crash? {
        return Crash;
      }
      if s.elseCode.None? {
        return Typed(If(c.node, t.node, None), t.ty, c.errs + t.errs);
      }
      var el := VisitStmt(s.elseCode.value);
      if el.Crash? {
        return Crash;
      }
      var errs := c.errs + t.errs + el.errs;
      if t.ty.Some? && el.ty.Some? && !Identical(t.ty.value, el.ty.value) {
        errs := errs + 1;
      }
      r := Typed(If(c.node, t.node, Some(el.node)), t.ty, errs);
    }

    /** `visitAssign`: the left side must be a place; the two sides must be the same
        type object. An assignment has no type. */
    method VisitAssign(s: Stmt) returns (r: Typed<Stmt>)
      requires s.Assign?
      ensures r == CheckStmt(s)
      decreases s, 0
    {
      if !(s.left.VarExpr? || s.left.FieldAccessExpr? || s.left.ArrayAccessExpr? || s.left.ValueAtExpr?) {
        return Typed(s, None, 1);
      }
      var left := VisitExpr(s.left);
      var right := VisitExpr(s.right);
      if left.Crash? || right.Crash? {
        return Crash;
      }
      var errs := left.errs + right.errs;
      if !SameRef(left.ty, right.ty) {
        if left.ty.None? || right.ty.None? {
          return Crash;
        }
        errs := errs + 1;
      }
      r := Typed(Assign(left.node, right.node), None, errs);
    }

    /** `visitVarDecl` for each declaration: bound in the current scope. */
    method VisitVarDecls(scope: Scope, vs: seq<VarDecl>) returns (errs: nat)
      requires scope.Valid()
      modifies scope
      ensures (scope.Env(), errs) == DeclareVars(vs, old(scope.Env()))
    {
      ghost var env := scope.Env();
      errs := 0;
      var i := 0;
      while i < |vs|
        invariant 0 <= i <= |vs|
        invariant (scope.Env(), errs) == DeclareVars(vs[..i], env)
      {
        var dup := scope.Put(VarSymbol(vs[i]));
        DeclareVarsStep(vs, i, env);
        if dup {
          errs := errs + 1;
        }
        i := i + 1;
      }
      assert vs[..i] == vs;
    }

    /** `visitBlock`: the declarations in a new scope, the statements, and the type
        picked from the distinct types they return. */
    method VisitBlock(b: Block) returns (r: Typed<Block>)
      ensures r == CheckBlock(b)
      decreases b, 3
    {
      var scope := new Scope(null);
      var e1 := VisitVarDecls(scope, b.vars);
      var code, returnVals := VisitStmts(b.code);
      if code.Crash? {
        return Crash;
      }
      var distinct := Dedup(returnVals);
      var returnType := VoidType;
      var e2 := 0;
      if |distinct| > 1 {
        e2 := 1;
      } else if |distinct| == 1 {
        returnType := distinct[0];
      }
      r := Typed(Block(b.vars, code.node), Some(returnType), e1 + code.errs + e2);
    }

    /** The statement loop of `visitBlock`, collecting `returnVals`. */
    method VisitStmts(ss: seq<Stmt>) returns (r: Typed<seq<Stmt>>, returnVals: seq<Type>)
      ensures r == CheckStmts(ss)
      ensures r.Typed? ==> returnVals == Returned(ss)
      decreases ss, 2
    {
      var node: seq<Stmt> := [];
      var errs: nat := 0;
      returnVals := [];
      var i := 0;
      while i < |ss|
        invariant 0 <= i <= |ss|
        invariant CheckStmts(ss[..i]) == Typed(node, None, errs)
        invariant returnVals == Returned(ss[..i])
      {
        var n := VisitStmt(ss[i]);
        assert ss[..i + 1][..i] == ss[..i];
        if n.Crash? {
          StmtsCrashSticks(ss, i + 1);
          return Crash, returnVals;
        }
        if n.ty.Some? {
          returnVals := returnVals + [n.ty.value];
        }
        node, errs := node + [n.node], errs + n.errs;
        i := i + 1;
      }
      assert ss[..i] == ss;
      r := Typed(node, None, errs);
    }

    /** `visitFunDecl`: a new scope with the function's symbol and its parameters;
        the block; and the declared type against the block's, structurally. */
    method VisitFunDecl(f: FunDecl) returns (r: Typed<FunDecl>)
      ensures r == CheckFunDecl(f)
    {
      var scope := new Scope(null);
      var dup := scope.Put(FunSymbol(f.Sig()));
      var e1 := VisitVarDecls(scope, f.params);
      var body := VisitBlock(f.block);
      if body.Crash? {
        return Crash;
      }
      var errs := (if dup then 1 else 0) + e1 + body.errs;
      if !Equal(f.ty, body.ty.value) {
        errs := errs + 1;
      }
      r := Typed(FunDecl(f.ty, f.name, f.params, body.node), Some(f.ty), errs);
    }

    /** `visitStructTypeDecl`: the members are bound in the current scope and the
        declaration is recorded. */
    method VisitStructTypeDecl(scope: Scope, st: StructTypeDecl) returns (errs: nat)
      requires scope.Valid()
      modifies this, scope
      ensures structs == old(structs) + [st]
      ensures (scope.Env(), errs) == DeclareVars(st.variables, old(scope.Env()))
    {
      errs := VisitVarDecls(scope, st.variables);
      structs := structs + [st];
    }

    /** The struct loop of `visitProgram`. */
    method VisitStructTypeDecls(scope: Scope, sts: seq<StructTypeDecl>) returns (errs: nat)
      requires scope.Valid()
      modifies this, scope
      ensures structs == old(structs) + sts
      ensures (scope.Env(), errs) == DeclareVars(Members(sts), old(scope.Env()))
    {
      ghost var env := scope.Env();
      errs := 0;
      var i := 0;
      while i < |sts|
        invariant 0 <= i <= |sts|
        invariant structs == old(structs) + sts[..i]
        invariant scope.Env() == DeclareVars(Members(sts[..i]), env).0
        invariant errs == DeclareVars(Members(sts[..i]), env).1
      {
        MembersStep(sts, i);
        DeclareVarsAppend(Members(sts[..i]), sts[i].variables, env);
        AppendNext(old(structs), sts, i);
        var n := VisitStructTypeDecl(scope, sts[i]);
        errs := errs + n;
        i := i + 1;
      }
      assert sts[..i] == sts;
    }

    /** The function loop of `visitProgram`. */
    method VisitFunDecls(fs: seq<FunDecl>) returns (r: Typed<seq<FunDecl>>)
      ensures r == CheckFunDecls(fs)
    {
      var node: seq<FunDecl> := [];
      var errs: nat := 0;
      var i := 0;
      while i < |fs|
        invariant 0 <= i <= |fs|
        invariant CheckFunDecls(fs[..i]) == Typed(node, None, errs)
      {
        var f := VisitFunDecl(fs[i]);
        assert fs[..i + 1][..i] == fs[..i];
        if f.Crash? {
          FunDeclsCrashSticks(fs, i + 1);
          return Crash;
        }
        node, errs := node + [f.node], errs + f.errs;
        i := i + 1;
      }
      assert fs[..i] == fs;
      r := Typed(node, None, errs);
    }

    /** `visitProgram`: one scope for the globals and the struct members, then the
        functions. */
    method VisitProgram(p: Program) returns (r: Typed<Program>)
      modifies this
      ensures structs == old(structs) + p.structTypeDecls
      ensures r == CheckProgram(p)
    {
      var scope := new Scope(null);
      var e1 := VisitVarDecls(scope, p.varDecls);
      var e2 := VisitStructTypeDecls(scope, p.structTypeDecls);
      var funs := VisitFunDecls(p.funDecls);
      if funs.Crash? {
        return Crash;
      }
      r := Typed(Program(p.structTypeDecls, p.varDecls, funs.node), None, e1 + e2 + funs.errs);
    }
  }
}
