/** Name analysis (`sem/NameAnalysisVisitor.java`).

    The analyser keeps a stack of scopes: one root scope for the program, a child of
    the current scope for each function's parameters and for each block. It binds
    every declaration in the current scope, counting one error per name bound twice
    in the same scope, and links each use of a name to the symbol the scope chain
    finds for it (`VarExpr.vd`, `FunCallExpr.fd`).

    The first half of the module specifies the pass as functions of the environment
    (the chain of tables, outermost first, see `Scopes.Env`), each returning the
    annotated node and the number of errors reported. The class `NameAnalyser` then
    runs the pass on `Scope` objects as the Java does and is proved to compute those
    functions.

    Visiting a null child throws `NullPointerException`. The analyser is only run on
    the tree of a parse without errors, in which the null children are a missing
    `else`, the value of `return;` and the result type of every `sizeof`, which only
    the type checker sets. The first is skipped; the other two are dereferenced, and
    `ExprThrows`, `StmtThrows` and `BlockThrows` say where. The functions below give
    the pass's result on trees where it does not throw; the methods of
    `NameAnalyser` report the throw, and `Analyse` is the pass on a whole program. */
module NameAnalysis {
  import opened Wrappers
  import opened Ast
  import opened Scopes

  // ---------------------------------------------------------------- specification

  /** One `error(...)` when the condition holds. */
  function Count(b: bool): nat { if b then 1 else 0 }

  /** The traversal of `e` dereferences a null: `visitSizeOfExpr` visits the
      expression's result type, which is still null after parsing. */
  predicate ExprThrows(e: Expr) {
    match e
    case SizeOfExpr(_, ty) => ty.None?
    case FunCallExpr(_, args, _, _) => exists a <- args :: ExprThrows(a)
    case BinOp(l, _, r, _) => ExprThrows(l) || ExprThrows(r)
    case ArrayAccessExpr(a, i, _) => ExprThrows(a) || ExprThrows(i)
    case FieldAccessExpr(s, _, _) => ExprThrows(s)
    case ValueAtExpr(x, _) => ExprThrows(x)
    case TypecastExpr(_, x, _) => ExprThrows(x)
    case _ => false
  }

  /** The traversal of `s` dereferences a null: an expression that throws, or the
      missing value of `return;`. */
  predicate StmtThrows(s: Stmt) {
    match s
    case BlockStmt(b) => BlockThrows(b)
    case While(c, body) => ExprThrows(c) || StmtThrows(body)
    case If(c, t, el) => ExprThrows(c) || StmtThrows(t) || (el.Some? && StmtThrows(el.value))
    case Assign(l, r) => ExprThrows(l) || ExprThrows(r)
    case Return(v) => v.None? || ExprThrows(v.value)
    case ExprStmt(x) => ExprThrows(x)
  }

  predicate BlockThrows(b: Block) {
    exists s <- b.code :: StmtThrows(s)
  }

  /** The analyser gets through `b` without throwing. */
  predicate Completes(b: Block) {
    WellFormedBlock(b) && !BlockThrows(b)
  }

  /** Some function body throws. */
  predicate ProgramThrows(p: Program) {
    exists f <- p.funDecls :: BlockThrows(f.block)
  }

  /** `visitVarExpr` and `visitFunCallExpr` and the traversal of every other
      expression: the expression with its links set, and the errors reported. */
  function ResolveExpr(e: Expr, env: Env): (Expr, nat)
    requires NullFreeExpr(e) && !ExprThrows(e)
  {
    match e
    case VarExpr(n, vd, ty) =>
      (match Find(env, n)
       case Some(VarSymbol(v)) => (VarExpr(n, Some(v), ty), 0)
       case _ => (e, 1))
    case FunCallExpr(n, args, fd, ty) =>
      var args' := ResolveArgs(args, env);
      (match Find(env, n)
       case Some(FunSymbol(f)) => (FunCallExpr(n, args'.0, Some(f), ty), args'.1)
       case _ => (FunCallExpr(n, args'.0, fd, ty), 1 + args'.1))
    case BinOp(l, op, r, ty) =>
      var l' := ResolveExpr(l, env);
      var r' := ResolveExpr(r, env);
      (BinOp(l'.0, op, r'.0, ty), l'.1 + r'.1)
    case ArrayAccessExpr(a, i, ty) =>
      var a' := ResolveExpr(a, env);
      var i' := ResolveExpr(i, env);
      (ArrayAccessExpr(a'.0, i'.0, ty), a'.1 + i'.1)
    case FieldAccessExpr(s, f, ty) =>
      var s' := ResolveExpr(s, env);
      (FieldAccessExpr(s'.0, f, ty), s'.1)
    case ValueAtExpr(x, ty) =>
      var x' := ResolveExpr(x, env);
      (ValueAtExpr(x'.0, ty), x'.1)
    case TypecastExpr(t, x, ty) =>
      var x' := ResolveExpr(x, env);
      (TypecastExpr(t, x'.0, ty), x'.1)
    case _ => (e, 0)
  }

  /** The arguments of a call, analysed in order. */
  function ResolveArgs(args: seq<Expr>, env: Env): (r: (seq<Expr>, nat))
    requires NullFreeArgs(args) && forall a <- args :: !ExprThrows(a)
    ensures |r.0| == |args|
  {
    if args == [] then ([], 0)
    else
      NullFreeArgsLast(args);
      assert args[|args| - 1] in args;
      var init := ResolveArgs(args[..|args| - 1], env);
      var last := ResolveExpr(args[|args| - 1], env);
      (init.0 + [last.0], init.1 + last.1)
  }

  lemma {:induction false} NullFreeArgsAt(args: seq<Expr>, k: nat)
    requires NullFreeArgs(args) && k < |args|
    ensures NullFreeExpr(args[k])
    decreases k
  {
    if k > 0 {
      NullFreeArgsAt(args[1..], k - 1);
    }
  }

  lemma {:induction false} NullFreeArgsPrefix(args: seq<Expr>, k: nat)
    requires NullFreeArgs(args) && k <= |args|
    ensures NullFreeArgs(args[..k])
    decreases k
  {
    if k > 0 {
      NullFreeArgsPrefix(args[1..], k - 1);
      assert args[..k][1..] == args[1..][..k - 1];
    }
  }

  lemma NullFreeArgsLast(args: seq<Expr>)
    requires NullFreeArgs(args) && args != []
    ensures NullFreeArgs(args[..|args| - 1]) && NullFreeExpr(args[|args| - 1])
  {
    NullFreeArgsPrefix(args, |args| - 1);
    NullFreeArgsAt(args, |args| - 1);
  }

  /** One more argument analysed: the prefix's result extended by that argument's. */
  lemma ResolveArgsStep(args: seq<Expr>, i: nat, env: Env)
    requires NullFreeArgs(args) && i < |args|
    requires (forall a <- args[..i] :: !ExprThrows(a)) && !ExprThrows(args[i])
    ensures NullFreeArgs(args[..i]) && NullFreeArgs(args[..i + 1]) && NullFreeExpr(args[i])
    ensures forall a <- args[..i + 1] :: !ExprThrows(a)
    ensures var init := ResolveArgs(args[..i], env);
            var last := ResolveExpr(args[i], env);
            ResolveArgs(args[..i + 1], env) == (init.0 + [last.0], init.1 + last.1)
  {
    NullFreeArgsPrefix(args, i);
    NullFreeArgsPrefix(args, i + 1);
    NullFreeArgsAt(args, i);
    var p := args[..i + 1];
    assert p == args[..i] + [args[i]];
    assert p[..|p| - 1] == args[..i];
  }

  /** `visitVarDecl` for each declaration in order: each is bound in the innermost
      table, with one error per name already bound there. */
  function DeclareVars(vs: seq<VarDecl>, env: Env): (r: (Env, nat))
    requires env != []
    ensures |r.0| == |env|
  {
    if vs == [] then (env, 0)
    else
      var init := DeclareVars(vs[..|vs| - 1], env);
      var bound := Bind(init.0, VarSymbol(vs[|vs| - 1]));
      (bound.0, init.1 + Count(bound.1))
  }

  /** `visitStatement` for each kind of statement. */
  function ResolveStmt(s: Stmt, env: Env): (Stmt, nat)
    requires WellFormedStmt(s) && !StmtThrows(s)
  {
    match s
    case BlockStmt(b) =>
      var b' := ResolveBlock(b, env);
      (BlockStmt(b'.0), b'.1)
    case While(c, body) =>
      var c' := ResolveExpr(c, env);
      var body' := ResolveStmt(body, env);
      (While(c'.0, body'.0), c'.1 + body'.1)
    case If(c, t, el) =>
      var c' := ResolveExpr(c, env);
      var t' := ResolveStmt(t, env);
      if el.None? then (If(c'.0, t'.0, None), c'.1 + t'.1)
      else
        var el' := ResolveStmt(el.value, env);
        (If(c'.0, t'.0, Some(el'.0)), c'.1 + t'.1 + el'.1)
    case Assign(l, r) =>
      var l' := ResolveExpr(l, env);
      var r' := ResolveExpr(r, env);
      (Assign(l'.0, r'.0), l'.1 + r'.1)
    case Return(v) =>
      var v' := ResolveExpr(v.value, env);
      (Return(Some(v'.0)), v'.1)
    case ExprStmt(x) =>
      var x' := ResolveExpr(x, env);
      (ExprStmt(x'.0), x'.1)
  }

  /** The statements of a block, in order, all in the block's environment. */
  function ResolveStmts(ss: seq<Stmt>, env: Env): (r: (seq<Stmt>, nat))
    requires forall s <- ss :: WellFormedStmt(s) && !StmtThrows(s)
    ensures |r.0| == |ss|
  {
    if ss == [] then ([], 0)
    else
      assert ss[|ss| - 1] in ss;
      var init := ResolveStmts(ss[..|ss| - 1], env);
      var last := ResolveStmt(ss[|ss| - 1], env);
      (init.0 + [last.0], init.1 + last.1)
  }

  /** One more statement analysed: the prefix's result extended by that statement's. */
  lemma ResolveStmtsStep(ss: seq<Stmt>, i: nat, env: Env)
    requires i < |ss| && (forall s <- ss :: WellFormedStmt(s))
    requires (forall s <- ss[..i] :: !StmtThrows(s)) && !StmtThrows(ss[i])
    ensures forall s <- ss[..i + 1] :: WellFormedStmt(s) && !StmtThrows(s)
    ensures WellFormedStmt(ss[i])
    ensures var init := ResolveStmts(ss[..i], env);
            var last := ResolveStmt(ss[i], env);
            ResolveStmts(ss[..i + 1], env) == (init.0 + [last.0], init.1 + last.1)
  {
    assert ss[i] in ss;
    var p := ss[..i + 1];
    assert p == ss[..i] + [ss[i]];
    assert p[..|p| - 1] == ss[..i];
  }

  /** `visitBlock`: a child scope holding the block's declarations, in which the
      statements are analysed; the enclosing environment is left as it was. */
  function ResolveBlock(b: Block, env: Env): (Block, nat)
    requires Completes(b)
  {
    var inner := DeclareVars(b.vars, env + [map[]]);
    var code := ResolveStmts(b.code, inner.0);
    (Block(b.vars, code.0), inner.1 + code.1)
  }

  /** `ResolveBlock` from its two steps. */
  lemma ResolveBlockSteps(b: Block, env: Env, decls: (Env, nat), code: (seq<Stmt>, nat))
    requires Completes(b)
    requires decls == DeclareVars(b.vars, env + [map[]]) && code == ResolveStmts(b.code, decls.0)
    ensures ResolveBlock(b, env) == (Block(b.vars, code.0), decls.1 + code.1)
  {
  }

  /** `visitFunDecl`: the function is bound in the enclosing scope before anything
      else, so its body can call it; the parameters go into a child scope, and the
      body's block is a child of that. The result is the annotated declaration, the
      enclosing environment with the function bound, and the errors. */
  function ResolveFunDecl(f: FunDecl, env: Env): (Env, FunDecl, nat)
    requires env != [] && Completes(f.block)
  {
    var bound := Bind(env, FunSymbol(f.Sig()));
    var body := ResolveFunBody(f, bound.0);
    (bound.0, FunDecl(f.ty, f.name, f.params, body.0), Count(bound.1) + body.1)
  }

  /** The part of `visitFunDecl` in the parameters' scope: the parameters, then the
      body's block. */
  function ResolveFunBody(f: FunDecl, env: Env): (Block, nat)
    requires Completes(f.block)
  {
    var params := DeclareVars(f.params, env + [map[]]);
    var body := ResolveBlock(f.block, params.0);
    (body.0, params.1 + body.1)
  }

  /** The analyser gets through every function body; stated from the last function
      back, like the functions over declaration lists below. */
  predicate FunsComplete(fs: seq<FunDecl>) {
    fs == [] || (FunsComplete(fs[..|fs| - 1]) && Completes(fs[|fs| - 1].block))
  }

  lemma {:induction false} FunsCompleteIff(fs: seq<FunDecl>)
    ensures FunsComplete(fs) <==> forall f <- fs :: Completes(f.block)
    decreases |fs|
  {
    if fs != [] {
      var init := fs[..|fs| - 1];
      FunsCompleteIff(init);
      assert fs == init + [fs[|fs| - 1]];
    }
  }

  function ResolveFunDecls(fs: seq<FunDecl>, env: Env): (r: (Env, seq<FunDecl>, nat))
    requires env != [] && FunsComplete(fs)
    ensures |r.0| == |env|
    ensures |r.1| == |fs|
  {
    if fs == [] then (env, [], 0)
    else
      var init := ResolveFunDecls(fs[..|fs| - 1], env);
      var last := ResolveFunDecl(fs[|fs| - 1], init.0);
      (last.0, init.1 + [last.1], init.2 + last.2)
  }

  /** `visitStructTypeDecl` for each struct: its members are bound in the current
      scope, and every struct is reported as a redefinition when any struct was seen
      before it (`seen` says whether the analyser had seen one before these). */
  function DeclareStructs(sts: seq<StructTypeDecl>, env: Env, seen: bool): (r: (Env, nat))
    requires env != []
    ensures |r.0| == |env|
  {
    if sts == [] then (env, 0)
    else
      var init := DeclareStructs(sts[..|sts| - 1], env, seen);
      var members := DeclareVars(sts[|sts| - 1].variables, init.0);
      (members.0, init.1 + members.1 + Count(seen || |sts| - 1 > 0))
  }

  /** The built-in functions, as `visitProgram` declares them, in this order. */
  function Builtins(): seq<FunSig> {
    [ FunSig(VoidType, "print_s", [VarDecl(Builtin(1), PointerType(Builtin(0), CharType), "s")]),
      FunSig(VoidType, "print_i", [VarDecl(Builtin(2), IntType, "i")]),
      FunSig(VoidType, "print_c", [VarDecl(Builtin(3), CharType, "c")]),
      FunSig(CharType, "read_c", []),
      FunSig(IntType, "read_i", []),
      FunSig(PointerType(Builtin(4), VoidType), "mcmalloc", [VarDecl(Builtin(5), IntType, "size")]) ]
  }

  function DeclareFuns(sigs: seq<FunSig>, env: Env): (r: (Env, nat))
    requires env != []
    ensures |r.0| == |env|
  {
    if sigs == [] then (env, 0)
    else
      var init := DeclareFuns(sigs[..|sigs| - 1], env);
      var bound := Bind(init.0, FunSymbol(sigs[|sigs| - 1]));
      (bound.0, init.1 + Count(bound.1))
  }

  /** The environment in which the functions are analysed: the root scope holding
      the struct members, the globals and the built-ins, in that order. */
  function GlobalEnv(p: Program, seen: bool): (r: (Env, nat)) {
    var structs := DeclareStructs(p.structTypeDecls, [map[]], seen);
    var globals := DeclareVars(p.varDecls, structs.0);
    var builtins := DeclareFuns(Builtins(), globals.0);
    (builtins.0, structs.1 + globals.1 + builtins.1)
  }

  /** `visitProgram` on a program it gets through: the program with every link set,
      and the number of errors. */
  function ResolveProgram(p: Program, seen: bool): (Program, nat)
    requires WellFormedProgram(p) && !ProgramThrows(p)
  {
    var globals := GlobalEnv(p, seen);
    FunsCompleteIff(p.funDecls);
    var funs := ResolveFunDecls(p.funDecls, globals.0);
    (Program(p.structTypeDecls, p.varDecls, funs.1), globals.1 + funs.2)
  }

  /** The whole pass on a program: None when it throws, otherwise the linked
      program and the number of errors. */
  function Analyse(p: Program, seen: bool): (r: Option<(Program, nat)>)
    requires WellFormedProgram(p)
    ensures r.None? <==> exists f <- p.funDecls :: BlockThrows(f.block)
    ensures r.Some? ==> r.value.0.structTypeDecls == p.structTypeDecls
                        && r.value.0.varDecls == p.varDecls
                        && |r.value.0.funDecls| == |p.funDecls|
  {
    if ProgramThrows(p) then None else Some(ResolveProgram(p, seen))
  }

  // ------------------------------------------- one more iteration of each loop

  lemma DeclareVarsStep(vs: seq<VarDecl>, i: nat, env: Env)
    requires env != [] && i < |vs|
    ensures DeclareVars(vs[..i + 1], env)
         == (Bind(DeclareVars(vs[..i], env).0, VarSymbol(vs[i])).0,
             DeclareVars(vs[..i], env).1 + Count(Bind(DeclareVars(vs[..i], env).0, VarSymbol(vs[i])).1))
  {
    assert vs[..i + 1][..i] == vs[..i];
  }

  lemma DeclareFunsStep(sigs: seq<FunSig>, i: nat, env: Env)
    requires env != [] && i < |sigs|
    ensures DeclareFuns(sigs[..i + 1], env)
         == (Bind(DeclareFuns(sigs[..i], env).0, FunSymbol(sigs[i])).0,
             DeclareFuns(sigs[..i], env).1 + Count(Bind(DeclareFuns(sigs[..i], env).0, FunSymbol(sigs[i])).1))
  {
    assert sigs[..i + 1][..i] == sigs[..i];
  }

  lemma DeclareStructsStep(sts: seq<StructTypeDecl>, i: nat, env: Env, seen: bool)
    requires env != [] && i < |sts|
    ensures DeclareStructs(sts[..i + 1], env, seen)
         == (DeclareVars(sts[i].variables, DeclareStructs(sts[..i], env, seen).0).0,
             DeclareStructs(sts[..i], env, seen).1
             + DeclareVars(sts[i].variables, DeclareStructs(sts[..i], env, seen).0).1
             + Count(seen || i > 0))
  {
    assert sts[..i + 1][..i] == sts[..i];
  }

  lemma ResolveFunDeclsStep(fs: seq<FunDecl>, i: nat, env: Env)
    requires env != [] && i < |fs| && FunsComplete(fs[..i + 1])
    ensures FunsComplete(fs[..i]) && Completes(fs[i].block)
    ensures var init := ResolveFunDecls(fs[..i], env);
            var last := ResolveFunDecl(fs[i], init.0);
            ResolveFunDecls(fs[..i + 1], env) == (last.0, init.1 + [last.1], init.2 + last.2)
  {
    assert fs[..i + 1][..i] == fs[..i];
  }

  lemma {:induction false} FunsCompletePrefix(fs: seq<FunDecl>, k: nat)
    requires FunsComplete(fs) && k <= |fs|
    ensures FunsComplete(fs[..k])
    decreases |fs|
  {
    if k < |fs| {
      FunsCompletePrefix(fs[..|fs| - 1], k);
      assert fs[..|fs| - 1][..k] == fs[..k];
    } else {
      assert fs[..k] == fs;
    }
  }

  lemma FunsCompleteAppend(fs: seq<FunDecl>, j: nat)
    requires j < |fs| && FunsComplete(fs[..j]) && Completes(fs[j].block)
    ensures FunsComplete(fs[..j + 1])
  {
    assert fs[..j + 1][..j] == fs[..j];
  }

  lemma AppendNext<T>(prefix: seq<T>, s: seq<T>, i: nat)
    requires i < |s|
    ensures prefix + s[..i + 1] == (prefix + s[..i]) + [s[i]]
  {
    assert s[..i + 1] == s[..i] + [s[i]];
  }

  // ------------------------------------------------------------------ properties

  /** A variable is linked to the innermost declaration of its name. An unbound name
      and a name bound to a function are each one error, and leave the link as the
      parser made it. */
  lemma VarExprResolution(n: string, vd: Option<VarDecl>, ty: Option<Type>, env: Env)
    ensures var (r, errs) := ResolveExpr(VarExpr(n, vd, ty), env);
            match Find(env, n)
            case Some(VarSymbol(v)) => r.vd == Some(v) && errs == 0
            case Some(FunSymbol(_)) => r.vd == vd && errs == 1
            case None => r.vd == vd && errs == 1
  {
  }

  /** A call is linked to the function its name finds, and its arguments are analysed
      whether or not it was found. */
  lemma CallResolution(n: string, args: seq<Expr>, fd: Option<FunSig>, ty: Option<Type>, env: Env)
    requires NullFreeArgs(args) && forall a <- args :: !ExprThrows(a)
    ensures var (r, errs) := ResolveExpr(FunCallExpr(n, args, fd, ty), env);
            r.args == ResolveArgs(args, env).0
            && (Find(env, n).Some? && Find(env, n).value.FunSymbol? ==>
                  r.fd == Some(Find(env, n).value.fun) && errs == ResolveArgs(args, env).1)
            && (Find(env, n).None? || Find(env, n).value.VarSymbol? ==>
                  r.fd == fd && errs == 1 + ResolveArgs(args, env).1)
  {
  }

  /** Declaring leaves every table but the innermost as it was; after it, a name finds
      its last declaration among `vs` if it has one, and otherwise what it found
      before. */
  lemma {:induction false} DeclareVarsFind(vs: seq<VarDecl>, env: Env, name: string)
    requires env != []
    ensures var env' := DeclareVars(vs, env).0;
            Find(env', name)
            == if exists k :: 0 <= k < |vs| && vs[k].varName == name
               then Some(VarSymbol(vs[LastIndex(vs, name)]))
               else Find(env, name)
    decreases |vs|
  {
    if vs != [] {
      var init := vs[..|vs| - 1];
      var env1 := DeclareVars(init, env).0;
      DeclareVarsFind(init, env, name);
      FindAfterBind(env1, VarSymbol(vs[|vs| - 1]), name);
      if vs[|vs| - 1].varName != name {
        LastIndexInit(vs, init, name);
      }
    }
  }

  /** When the last declaration is not of `name`, the last one of `name` is found
      among the others. */
  lemma LastIndexInit(vs: seq<VarDecl>, init: seq<VarDecl>, name: string)
    requires vs != [] && init == vs[..|vs| - 1] && vs[|vs| - 1].varName != name
    ensures (exists k :: 0 <= k < |vs| && vs[k].varName == name)
            == (exists k :: 0 <= k < |init| && init[k].varName == name)
    ensures (exists k :: 0 <= k < |vs| && vs[k].varName == name)
            ==> LastIndex(vs, name) == LastIndex(init, name)
  {
    if exists k :: 0 <= k < |vs| && vs[k].varName == name {
      var k :| 0 <= k < |vs| && vs[k].varName == name;
      assert init[k] == vs[k];
    } else {
      forall k | 0 <= k < |init| ensures init[k].varName != name {
        assert init[k] == vs[k];
      }
    }
  }

  /** The index of the last declaration of `name`. */
  function LastIndex(vs: seq<VarDecl>, name: string): (k: nat)
    requires exists k :: 0 <= k < |vs| && vs[k].varName == name
    ensures k < |vs| && vs[k].varName == name
    ensures forall j :: k < j < |vs| ==> vs[j].varName != name
  {
    if vs[|vs| - 1].varName == name then |vs| - 1
    else
      var k :| 0 <= k < |vs| && vs[k].varName == name;
      assert vs[..|vs| - 1][k] == vs[k];
      LastIndex(vs[..|vs| - 1], name)
  }

  /** Declarations with pairwise different names report no error in a fresh scope,
      whatever the scopes around it bind: a block local may shadow a parameter or a
      global. */
  lemma {:induction false} DistinctDeclarationsNoError(vs: seq<VarDecl>, env: Env)
    requires forall i, j :: 0 <= i < j < |vs| ==> vs[i].varName != vs[j].varName
    ensures DeclareVars(vs, env + [map[]]).1 == 0
    ensures DeclareVars(vs, env + [map[]]).0[|env|].Keys == set v <- vs :: v.varName
    decreases |vs|
  {
    if vs != [] {
      var init := vs[..|vs| - 1];
      var last := vs[|vs| - 1];
      DistinctDeclarationsNoError(init, env);
      LastNameFresh(vs);
      NamesSnoc(vs);
      var d := DeclareVars(init, env + [map[]]);
      assert DeclareVars(vs, env + [map[]]) == (Bind(d.0, VarSymbol(last)).0, d.1 + Count(Bind(d.0, VarSymbol(last)).1));
      assert VarSymbol(last).Name() == last.varName;
    }
  }

  /** The last of pairwise differently named declarations reuses no earlier name. */
  lemma LastNameFresh(vs: seq<VarDecl>)
    requires vs != [] && forall i, j :: 0 <= i < j < |vs| ==> vs[i].varName != vs[j].varName
    ensures vs[|vs| - 1].varName !in (set v <- vs[..|vs| - 1] :: v.varName)
  {
    var init, last := vs[..|vs| - 1], vs[|vs| - 1];
    forall v <- init ensures v.varName != last.varName {
      var i :| 0 <= i < |init| && init[i] == v;
      assert vs[i] == v;
    }
  }

  /** The names of a list are those of its front and that of its last element. */
  lemma NamesSnoc(vs: seq<VarDecl>)
    requires vs != []
    ensures (set v <- vs :: v.varName) == (set v <- vs[..|vs| - 1] :: v.varName) + {vs[|vs| - 1].varName}
  {
    assert vs == vs[..|vs| - 1] + [vs[|vs| - 1]];
  }

  /** Within a function's body, a call of the function itself finds it, unless a
      parameter has the same name: functions may be recursive. */
  lemma RecursionResolves(f: FunDecl, env: Env)
    requires env != []
    requires forall v <- f.params :: v.varName != f.name
    ensures var outer := Bind(env, FunSymbol(f.Sig())).0;
            Find(DeclareVars(f.params, outer + [map[]]).0, f.name) == Some(FunSymbol(f.Sig()))
  {
    var outer := Bind(env, FunSymbol(f.Sig())).0;
    DeclareVarsFind(f.params, outer + [map[]], f.name);
    assert !exists k :: 0 <= k < |f.params| && f.params[k].varName == f.name by {
      forall k | 0 <= k < |f.params| ensures f.params[k].varName != f.name {
        assert f.params[k] in f.params;
      }
    }
    FindAfterBind(env, FunSymbol(f.Sig()), f.name);
    FindOuter(outer, map[], f.name);
  }

  /** Declaring two lists one after the other declares their concatenation. */
  lemma {:induction false} DeclareVarsAppend(a: seq<VarDecl>, b: seq<VarDecl>, env: Env)
    requires env != []
    ensures DeclareVars(a + b, env).0 == DeclareVars(b, DeclareVars(a, env).0).0
    ensures DeclareVars(a + b, env).1 == DeclareVars(a, env).1 + DeclareVars(b, DeclareVars(a, env).0).1
    decreases |b|
  {
    if b == [] {
      assert a + b == a;
    } else {
      DeclareVarsAppend(a, b[..|b| - 1], env);
      assert (a + b)[..|a + b| - 1] == a + b[..|b| - 1];
      assert (a + b)[|a + b| - 1] == b[|b| - 1];
    }
  }

  /** Every member of every struct, in order. */
  function Members(sts: seq<StructTypeDecl>): seq<VarDecl> {
    if sts == [] then [] else Members(sts[..|sts| - 1]) + sts[|sts| - 1].variables
  }

  /** The redefinition check compares each stored struct with itself, so every
      struct but the very first the analyser sees is one error, whatever its name:
      the errors are those of binding all the members, plus one per such struct. */
  lemma {:induction false} EveryLaterStructIsARedefinition(sts: seq<StructTypeDecl>, env: Env, seen: bool)
    requires env != []
    ensures DeclareStructs(sts, env, seen).0 == DeclareVars(Members(sts), env).0
    ensures DeclareStructs(sts, env, seen).1
         == DeclareVars(Members(sts), env).1 + (if sts == [] then 0 else if seen then |sts| else |sts| - 1)
    decreases |sts|
  {
    if sts != [] {
      var init := sts[..|sts| - 1];
      EveryLaterStructIsARedefinition(init, env, seen);
      DeclareVarsAppend(Members(init), sts[|sts| - 1].variables, env);
    }
  }

  /** Two structs with different names and no members are still an error. */
  lemma TwoStructsOneError(a: StructTypeDecl, b: StructTypeDecl)
    requires a.name != b.name && a.variables == [] && b.variables == []
    ensures DeclareStructs([a, b], [map[]], false).1 == 1
  {
    EveryLaterStructIsARedefinition([a, b], [map[]], false);
    assert [a, b][..1] == [a] && [a][..0] == [];
    assert Members([a]) == [];
  }

  /** An assignment whose right side is a `sizeof` fresh from the parser, anywhere
      among a function's statements, makes the pass throw. `ExprThrows` marks a
      `sizeof` with no result type at every other position as well. */
  lemma {:induction false} ParsedSizeOfThrows(p: Program, seen: bool, i: nat, j: nat, t: Type)
    requires WellFormedProgram(p) && i < |p.funDecls| && j < |p.funDecls[i].block.code|
    requires p.funDecls[i].block.code[j].Assign? && p.funDecls[i].block.code[j].right == SizeOfExpr(t, None)
    ensures Analyse(p, seen) == None
  {
    var f := p.funDecls[i];
    assert StmtThrows(f.block.code[j]);
    assert f.block.code[j] in f.block.code;
    assert f in p.funDecls;
  }

  /** `int main() { int x; x = sizeof(int); return x; }` throws. */
  lemma SizeOfProgramThrows()
    ensures var x := VarDecl(Parsed(1), IntType, "x");
            var body := Block([x], [Assign(VarExpr("x", None, None), SizeOfExpr(IntType, None)),
                                    Return(Some(VarExpr("x", None, None)))]);
            Analyse(Program([], [], [FunDecl(IntType, "main", [], body)]), false) == None
  {
    var x := VarDecl(Parsed(1), IntType, "x");
    var body := Block([x], [Assign(VarExpr("x", None, None), SizeOfExpr(IntType, None)),
                            Return(Some(VarExpr("x", None, None)))]);
    ParsedSizeOfThrows(Program([], [], [FunDecl(IntType, "main", [], body)]), false, 0, 0, IntType);
  }

  /** `return;` throws too, wherever it is, even in a `void` function. */
  lemma {:induction false} EmptyReturnThrows(p: Program, seen: bool, i: nat, j: nat)
    requires WellFormedProgram(p) && i < |p.funDecls| && j < |p.funDecls[i].block.code|
    requires p.funDecls[i].block.code[j] == Return(None)
    ensures Analyse(p, seen) == None
  {
    var f := p.funDecls[i];
    assert StmtThrows(f.block.code[j]);
    assert f.block.code[j] in f.block.code;
    assert f in p.funDecls;
  }

  // ------------------------------------------------------------------ the visitor

  class NameAnalyser {
    /** The struct declarations seen so far. */
    var structs: seq<StructTypeDecl>
    /** The count `error(...)` increments. */
    var errors: nat

    constructor ()
      ensures structs == [] && errors == 0
    {
      structs := [];
      errors := 0;
    }

    /** `putSymbol(s)`: binds in the current scope; a duplicate is one error. */
    method PutSymbol(scope: Scope, s: Symbol) returns (errs: nat)
      requires scope.Valid()
      modifies scope
      ensures scope.Env() == Bind(old(scope.Env()), s).0
      ensures errs == Count(Bind(old(scope.Env()), s).1)
    {
      var dup := scope.Put(s);
      errs := if dup then 1 else 0;
    }

    /** `visitVarExpr`: links the variable to the variable symbol its name finds. */
    method VisitVarExpr(scope: Scope, e: Expr) returns (r: Expr, errs: nat)
      requires scope.Valid() && e.VarExpr?
      ensures (r, errs) == ResolveExpr(e, scope.Env())
    {
      scope.LookupIsFind(e.name);
      var s := scope.Lookup(e.name);
      r := e;
      if s == None {
        errs := 1;
      } else if !s.value.VarSymbol? {
        errs := 1;
      } else {
        r := VarExpr(e.name, Some(s.value.variable), e.ty);
        errs := 0;
      }
    }

    /** `visitFunCallExpr`: links the call to the function symbol its name finds, then
        analyses the arguments. */
    method VisitFunCallExpr(scope: Scope, e: Expr) returns (r: Expr, errs: nat, thrown: bool)
      requires scope.Valid() && e.FunCallExpr? && NullFreeExpr(e)
      ensures thrown == ExprThrows(e)
      ensures !thrown ==> (r, errs) == ResolveExpr(e, scope.Env())
      decreases e, 1
    {
      scope.LookupIsFind(e.name);
      var s := scope.Lookup(e.name);
      var link := e.fd;
      errs := 0;
      if s == None {
        errs := 1;
      } else if !s.value.FunSymbol? {
        errs := 1;
      } else {
        link := Some(s.value.fun);
      }
      var args', n;
      args', n, thrown := VisitArgs(scope, e.args);
      r := FunCallExpr(e.name, args', link, e.ty);
      errs := errs + n;
    }

    /** The `accept` of every expression. */
    method VisitExpr(scope: Scope, e: Expr) returns (r: Expr, errs: nat, thrown: bool)
      requires scope.Valid() && NullFreeExpr(e)
      ensures thrown == ExprThrows(e)
      ensures !thrown ==> (r, errs) == ResolveExpr(e, scope.Env())
      decreases e, 2
    {
      r, errs, thrown := e, 0, false;
      match e
      case VarExpr(_, _, _) =>
        r, errs := VisitVarExpr(scope, e);
      case FunCallExpr(_, _, _, _) =>
        r, errs, thrown := VisitFunCallExpr(scope, e);
      case BinOp(_, _, _, _) =>
        r, errs, thrown := VisitBinOp(scope, e);
      case ArrayAccessExpr(_, _, _) =>
        r, errs, thrown := VisitArrayAccessExpr(scope, e);
      case FieldAccessExpr(s, f, ty) =>
        var s', e1, t1 := VisitExpr(scope, s);
        r, errs, thrown := FieldAccessExpr(s', f, ty), e1, t1;
      case ValueAtExpr(x, ty) =>
        var x', e1, t1 := VisitExpr(scope, x);
        r, errs, thrown := ValueAtExpr(x', ty), e1, t1;
      case TypecastExpr(t, x, ty) =>
        var x', e1, t1 := VisitExpr(scope, x);
        r, errs, thrown := TypecastExpr(t, x', ty), e1, t1;
      case IntLiteral(_) =>
      case StrLiteral(_) =>
      case ChrLiteral(_) =>
      case SizeOfExpr(_, ty) =>
        // `so.type.accept(this)` on the type the parser left null
        thrown := ty.None?;
    }

    /** `visitBinOp`: the left operand, then the right one. */
    method VisitBinOp(scope: Scope, e: Expr) returns (r: Expr, errs: nat, thrown: bool)
      requires scope.Valid() && NullFreeExpr(e) && e.BinOp?
      ensures thrown == ExprThrows(e)
      ensures !thrown ==> (r, errs) == ResolveExpr(e, scope.Env())
      decreases e, 1
    {
      var l', e1, t1 := VisitExpr(scope, e.left);
      if t1 {
        return e, 0, true;
      }
      var r', e2, t2 := VisitExpr(scope, e.right);
      r, errs, thrown := BinOp(l', e.op, r', e.ty), e1 + e2, t2;
    }

    /** `visitArrayAccessExpr`: the array, then the index. */
    method VisitArrayAccessExpr(scope: Scope, e: Expr) returns (r: Expr, errs: nat, thrown: bool)
      requires scope.Valid() && NullFreeExpr(e) && e.ArrayAccessExpr?
      ensures thrown == ExprThrows(e)
      ensures !thrown ==> (r, errs) == ResolveExpr(e, scope.Env())
      decreases e, 1
    {
      var a', e1, t1 := VisitExpr(scope, e.arr);
      if t1 {
        return e, 0, true;
      }
      var i', e2, t2 := VisitExpr(scope, e.index);
      r, errs, thrown := ArrayAccessExpr(a', i', e.ty), e1 + e2, t2;
    }

    /** The loop over a call's arguments. */
    method VisitArgs(scope: Scope, args: seq<Expr>) returns (r: seq<Expr>, errs: nat, thrown: bool)
      requires scope.Valid() && NullFreeArgs(args)
      ensures thrown <==> exists a <- args :: ExprThrows(a)
      ensures !thrown ==> (r, errs) == ResolveArgs(args, scope.Env())
      decreases args, 3
    {
      ghost var env := scope.Env();
      r, errs, thrown := [], 0, false;
      var i := 0;
      while i < |args|
        invariant 0 <= i <= |args|
        invariant NullFreeArgs(args[..i])
        invariant forall a <- args[..i] :: !ExprThrows(a)
        invariant r == ResolveArgs(args[..i], env).0 && errs == ResolveArgs(args[..i], env).1
      {
        NullFreeArgsAt(args, i);
        var x, n, t := VisitExpr(scope, args[i]);
        if t {
          assert args[i] in args;
          return [], 0, true;
        }
        ResolveArgsStep(args, i, env);
        r, errs := r + [x], errs + n;
        i := i + 1;
      }
      assert args[..i] == args;
    }

    /** `visitVarDecl`: binds the variable in the current scope. */
    method VisitVarDecl(scope: Scope, vd: VarDecl) returns (errs: nat)
      requires scope.Valid()
      modifies scope
      ensures scope.Valid()
      ensures scope.Env() == Bind(old(scope.Env()), VarSymbol(vd)).0
      ensures errs == Count(Bind(old(scope.Env()), VarSymbol(vd)).1)
    {
      errs := PutSymbol(scope, VarSymbol(vd));
    }

    /** The loop `for (VarDecl vd : ...) vd.accept(this)`. */
    method VisitVarDecls(scope: Scope, vs: seq<VarDecl>) returns (errs: nat)
      requires scope.Valid()
      modifies scope
      ensures scope.Valid()
      ensures (scope.Env(), errs) == DeclareVars(vs, old(scope.Env()))
    {
      ghost var env := scope.Env();
      errs := 0;
      var i := 0;
      while i < |vs|
        invariant 0 <= i <= |vs|
        invariant scope.Valid()
        invariant (scope.Env(), errs) == DeclareVars(vs[..i], env)
      {
        var n := VisitVarDecl(scope, vs[i]);
        DeclareVarsStep(vs, i, env);
        errs := errs + n;
        i := i + 1;
      }
      assert vs[..i] == vs;
    }

    /** `visitBlock`: a child of the current scope holds the block's declarations,
        and the statements are analysed in it. */
    method VisitBlock(scope: Scope, b: Block, ghost env: Env) returns (r: Block, errs: nat, thrown: bool)
      requires scope.Valid() && scope.Env() == env && WellFormedBlock(b)
      ensures thrown == BlockThrows(b)
      ensures !thrown ==> (r, errs) == ResolveBlock(b, env)
      decreases b, 2
    {
      var inner := new Scope(scope);
      assert inner.Env() == env + [map[]];
      assert inner !in scope.ancestors && inner != scope;
      var e1 := VisitVarDecls(inner, b.vars);
      ghost var decls := DeclareVars(b.vars, env + [map[]]);
      assert inner.Env() == decls.0 && e1 == decls.1;
      var code, e2;
      code, e2, thrown := VisitStmts(inner, b.code);
      if thrown {
        return b, 0, true;
      }
      ResolveBlockSteps(b, env, decls, (code, e2));
      r, errs := Block(b.vars, code), e1 + e2;
      assert r == ResolveBlock(b, env).0;
      assert errs == ResolveBlock(b, env).1;
    }

    /** The loop over a block's statements. */
    method VisitStmts(scope: Scope, ss: seq<Stmt>) returns (r: seq<Stmt>, errs: nat, thrown: bool)
      requires scope.Valid() && forall s <- ss :: WellFormedStmt(s)
      ensures thrown <==> exists s <- ss :: StmtThrows(s)
      ensures !thrown ==> (r, errs) == ResolveStmts(ss, scope.Env())
      decreases ss, 2
    {
      ghost var env := scope.Env();
      r, errs, thrown := [], 0, false;
      var i := 0;
      while i < |ss|
        invariant 0 <= i <= |ss|
        invariant forall s <- ss[..i] :: !StmtThrows(s)
        invariant r == ResolveStmts(ss[..i], env).0 && errs == ResolveStmts(ss[..i], env).1
      {
        assert ss[i] in ss;
        var s, n, t := VisitStmt(scope, ss[i]);
        if t {
          return [], 0, true;
        }
        ResolveStmtsStep(ss, i, env);
        r, errs := r + [s], errs + n;
        i := i + 1;
      }
      assert ss[..i] == ss;
    }

    /** The `accept` of every statement. */
    method VisitStmt(scope: Scope, s: Stmt) returns (r: Stmt, errs: nat, thrown: bool)
      requires scope.Valid() && WellFormedStmt(s)
      ensures thrown == StmtThrows(s)
      ensures !thrown ==> (r, errs) == ResolveStmt(s, scope.Env())
      decreases s, 1
    {
      match s
      case BlockStmt(b) =>
        var b', n, t := VisitBlock(scope, b, scope.Env());
        r, errs, thrown := BlockStmt(b'), n, t;
      case While(_, _) =>
        r, errs, thrown := VisitWhile(scope, s);
      case If(_, _, _) =>
        r, errs, thrown := VisitIf(scope, s);
      case Assign(lhs, rhs) =>
        var l', e1, t1 := VisitExpr(scope, lhs);
        if t1 {
          return s, 0, true;
        }
        var r', e2, t2 := VisitExpr(scope, rhs);
        r, errs, thrown := Assign(l', r'), e1 + e2, t2;
      case Return(v) =>
        if v.None? {
          // `r.expr.accept(this)` on the null of `return;`
          return s, 0, true;
        }
        var v', e1, t1 := VisitExpr(scope, v.value);
        r, errs, thrown := Return(Some(v')), e1, t1;
      case ExprStmt(x) =>
        var x', e1, t1 := VisitExpr(scope, x);
        r, errs, thrown := ExprStmt(x'), e1, t1;
    }

    /** `visitWhile`: the condition, then the body. */
    method VisitWhile(scope: Scope, s: Stmt) returns (r: Stmt, errs: nat, thrown: bool)
      requires scope.Valid() && s.While? && WellFormedStmt(s)
      ensures thrown == StmtThrows(s)
      ensures !thrown ==> (r, errs) == ResolveStmt(s, scope.Env())
      decreases s, 0
    {
      var c', e1, t1 := VisitExpr(scope, s.expr);
      if t1 {
        return s, 0, true;
      }
      var body', e2, t2 := VisitStmt(scope, s.code);
      r, errs, thrown := While(c', body'), e1 + e2, t2;
    }

    /** `visitIf`: the condition, the then-branch, and the else-branch when there is
        one. */
    method VisitIf(scope: Scope, s: Stmt) returns (r: Stmt, errs: nat, thrown: bool)
      requires scope.Valid() && s.If? && WellFormedStmt(s)
      ensures thrown == StmtThrows(s)
      ensures !thrown ==> (r, errs) == ResolveStmt(s, scope.Env())
      decreases s, 0, 2
    {
      var c', e1, t1 := VisitExpr(scope, s.expr);
      if t1 {
        return s, 0, true;
      }
      r, errs, thrown := VisitIfBranches(scope, s, c', e1);
    }

    /** The branches of an `if`, once its condition is analysed. */
    method VisitIfBranches(scope: Scope, s: Stmt, c: Expr, e1: nat) returns (r: Stmt, errs: nat, thrown: bool)
      requires scope.Valid() && s.If? && WellFormedStmt(s) && !ExprThrows(s.expr)
      requires (c, e1) == ResolveExpr(s.expr, scope.Env())
      ensures thrown == StmtThrows(s)
      ensures !thrown ==> (r, errs) == ResolveStmt(s, scope.Env())
      decreases s, 0, 1
    {
      var t', e2, t2 := VisitStmt(scope, s.code);
      if t2 {
        return s, 0, true;
      }
      if s.elseCode.None? {
        r, errs, thrown := If(c, t', None), e1 + e2, false;
      } else {
        r, errs, thrown := VisitElse(scope, s, c, t', e1 + e2);
      }
    }

    /** The `else` branch, once the condition and the `then` branch are analysed. */
    method VisitElse(scope: Scope, s: Stmt, c: Expr, t: Stmt, e12: nat) returns (r: Stmt, errs: nat, thrown: bool)
      requires scope.Valid() && s.If? && s.elseCode.Some? && WellFormedStmt(s)
      requires !ExprThrows(s.expr) && !StmtThrows(s.code)
      requires (c, e12 - ResolveStmt(s.code, scope.Env()).1) == ResolveExpr(s.expr, scope.Env())
      requires e12 >= ResolveStmt(s.code, scope.Env()).1 && t == ResolveStmt(s.code, scope.Env()).0
      ensures thrown == StmtThrows(s)
      ensures !thrown ==> (r, errs) == ResolveStmt(s, scope.Env())
      decreases s, 0, 0
    {
      var el', e3, t3 := VisitStmt(scope, s.elseCode.value);
      r, errs, thrown := If(c, t, Some(el')), e12 + e3, t3;
    }

    /** `visitFunDecl`: the function is bound in the current scope, its parameters in
        a child of it, and the body's block is a child of that. */
    method VisitFunDecl(scope: Scope, f: FunDecl) returns (r: FunDecl, errs: nat, thrown: bool)
      requires scope.Valid() && WellFormedBlock(f.block)
      modifies scope
      ensures scope.Env() == Bind(old(scope.Env()), FunSymbol(f.Sig())).0
      ensures thrown == BlockThrows(f.block)
      ensures !thrown ==> (scope.Env(), r, errs) == ResolveFunDecl(f, old(scope.Env()))
    {
      var e1 := PutSymbol(scope, FunSymbol(f.Sig()));
      var b, e2;
      b, e2, thrown := VisitFunBody(scope, f);
      r, errs := FunDecl(f.ty, f.name, f.params, b), e1 + e2;
    }

    /** `visitFunDecl` from the push of the parameters' scope to its pop. */
    method VisitFunBody(scope: Scope, f: FunDecl) returns (b: Block, errs: nat, thrown: bool)
      requires scope.Valid() && WellFormedBlock(f.block)
      ensures thrown == BlockThrows(f.block)
      ensures !thrown ==> (b, errs) == ResolveFunBody(f, scope.Env())
    {
      ghost var env := scope.Env();
      var params := new Scope(scope);
      assert params.Env() == env + [map[]];
      var e1 := VisitVarDecls(params, f.params);
      ghost var declared := DeclareVars(f.params, env + [map[]]);
      assert (params.Env(), e1) == declared;
      assert scope.Env() == env;
      var e2;
      b, e2, thrown := VisitBlock(params, f.block, params.Env());
      if thrown {
        return b, 0, true;
      }
      assert (b, e2) == ResolveBlock(f.block, declared.0);
      errs := e1 + e2;
      assert ResolveFunBody(f, env) == (b, errs);
    }

    /** `visitStructTypeDecl`: the members are bound in the current scope; then, as the
        redefinition check compares each stored struct with itself, the struct is
        reported as defined more than once whenever any struct came before it. */
    method VisitStructTypeDecl(scope: Scope, st: StructTypeDecl)
      requires scope.Valid()
      modifies this, scope
      ensures structs == old(structs) + [st]
      ensures scope.Env() == DeclareVars(st.variables, old(scope.Env())).0
      ensures errors == old(errors) + DeclareVars(st.variables, old(scope.Env())).1
                        + Count(old(structs) != [])
    {
      var n := VisitVarDecls(scope, st.variables);
      errors := errors + n;
      if structs != [] {
        assert structs[0] in structs;
      }
      if exists d <- structs :: d.StructDecl().structType == d.StructDecl().structType {
        errors := errors + 1;
      }
      structs := structs + [st];
    }

    /** `visitProgram`: a root scope with the structs' members, the globals and the
        built-ins, then each function. */
    method VisitProgram(p: Program) returns (r: Program, thrown: bool)
      requires WellFormedProgram(p)
      modifies this
      ensures structs == old(structs) + p.structTypeDecls
      ensures thrown == ProgramThrows(p)
      ensures !thrown ==> (r, errors - old(errors)) == ResolveProgram(p, old(structs) != [])
    {
      ghost var seen, e0 := structs != [], errors;
      var root := new Scope(null);
      VisitGlobals(root, p);
      var fs, n;
      fs, n, thrown := VisitFunDecls(root, p.funDecls);
      if thrown {
        return p, true;
      }
      errors := errors + n;
      r := Program(p.structTypeDecls, p.varDecls, fs);
      FunsCompleteIff(p.funDecls);
      assert (r, errors - e0) == ResolveProgram(p, seen);
    }

    /** The part of `visitProgram` before the functions: the structs, the globals and
        the built-ins, all in the root scope. */
    method VisitGlobals(root: Scope, p: Program)
      requires root.Valid() && root.Env() == [map[]]
      modifies this, root
      ensures root.Valid() && structs == old(structs) + p.structTypeDecls
      ensures (root.Env(), errors - old(errors)) == GlobalEnv(p, old(structs) != [])
    {
      ghost var e0 := errors;
      VisitStructTypeDecls(root, p.structTypeDecls);
      VisitVarsAndBuiltins(root, p, old(structs) != [], e0);
    }

    /** After the structs: the globals, then the built-ins, in the root scope. */
    method VisitVarsAndBuiltins(root: Scope, p: Program, ghost seen: bool, ghost e0: nat)
      requires root.Valid() && errors >= e0
      requires (root.Env(), errors - e0) == DeclareStructs(p.structTypeDecls, [map[]], seen)
      modifies this, root
      ensures root.Valid() && structs == old(structs) && errors >= e0
      ensures (root.Env(), errors - e0) == GlobalEnv(p, seen)
    {
      ghost var structEnv := DeclareStructs(p.structTypeDecls, [map[]], seen);
      ghost var globals := DeclareVars(p.varDecls, structEnv.0);
      var n := VisitVarDecls(root, p.varDecls);
      errors := errors + n;
      assert root.Env() == globals.0 && errors - e0 == structEnv.1 + globals.1;
      n := DeclareFunSigs(root, Builtins());
      errors := errors + n;
    }

    /** The loop over the program's struct declarations. */
    method VisitStructTypeDecls(scope: Scope, sts: seq<StructTypeDecl>)
      requires scope.Valid()
      modifies this, scope
      ensures structs == old(structs) + sts
      ensures (scope.Env(), errors - old(errors)) == DeclareStructs(sts, old(scope.Env()), old(structs) != [])
      ensures errors >= old(errors)
    {
      ghost var env, s0, e0 := scope.Env(), structs, errors;
      var i := 0;
      while i < |sts|
        invariant 0 <= i <= |sts| && errors >= e0
        invariant structs == s0 + sts[..i]
        invariant (scope.Env(), errors - e0) == DeclareStructs(sts[..i], env, s0 != [])
      {
        VisitNextStruct(scope, sts, i, env, s0, e0);
        i := i + 1;
      }
      assert sts[..i] == sts;
    }

    /** One iteration of the loop over the struct declarations. */
    method VisitNextStruct(scope: Scope, sts: seq<StructTypeDecl>, i: nat, ghost env: Env,
                           ghost s0: seq<StructTypeDecl>, ghost e0: nat)
      requires scope.Valid() && i < |sts| && errors >= e0 && env != []
      requires structs == s0 + sts[..i]
      requires (scope.Env(), errors - e0) == DeclareStructs(sts[..i], env, s0 != [])
      modifies this, scope
      ensures errors >= e0 && structs == s0 + sts[..i + 1]
      ensures (scope.Env(), errors - e0) == DeclareStructs(sts[..i + 1], env, s0 != [])
    {
      DeclareStructsStep(sts, i, env, s0 != []);
      AppendNext(s0, sts, i);
      assert (structs != []) == (s0 != [] || i > 0);
      VisitStructTypeDecl(scope, sts[i]);
    }

    /** The `putSymbol` calls that declare the built-in functions, one per signature. */
    method DeclareFunSigs(scope: Scope, sigs: seq<FunSig>) returns (errs: nat)
      requires scope.Valid()
      modifies scope
      ensures (scope.Env(), errs) == DeclareFuns(sigs, old(scope.Env()))
    {
      ghost var env := scope.Env();
      errs := 0;
      var k := 0;
      while k < |sigs|
        invariant 0 <= k <= |sigs|
        invariant (scope.Env(), errs) == DeclareFuns(sigs[..k], env)
      {
        var n := PutSymbol(scope, FunSymbol(sigs[k]));
        errs := errs + n;
        DeclareFunsStep(sigs, k, env);
        k := k + 1;
      }
      assert sigs[..k] == sigs;
    }

    /** The loop over the program's functions. */
    method VisitFunDecls(scope: Scope, fs: seq<FunDecl>) returns (r: seq<FunDecl>, errs: nat, thrown: bool)
      requires scope.Valid() && forall f <- fs :: WellFormedBlock(f.block)
      modifies scope
      ensures thrown <==> exists f <- fs :: BlockThrows(f.block)
      ensures !thrown ==> FunsComplete(fs)
                          && (scope.Env(), r, errs) == ResolveFunDecls(fs, old(scope.Env()))
    {
      ghost var env := scope.Env();
      r, errs, thrown := [], 0, false;
      var j := 0;
      while j < |fs|
        invariant 0 <= j <= |fs| && FunsComplete(fs[..j])
        invariant scope.Env() == ResolveFunDecls(fs[..j], env).0
        invariant r == ResolveFunDecls(fs[..j], env).1
        invariant errs == ResolveFunDecls(fs[..j], env).2
      {
        assert fs[j] in fs;
        var f, m, t := VisitFunDecl(scope, fs[j]);
        if t {
          return [], 0, true;
        }
        FunsCompleteAppend(fs, j);
        ResolveFunDeclsStep(fs, j, env);
        r, errs := r + [f], errs + m;
        j := j + 1;
      }
      assert fs[..j] == fs;
      FunsCompleteIff(fs);
    }
  }
}
