/** Properties of the code generator (`gen/CodeGenerator.java`): its register
    discipline, the arithmetic its code computes, sizes and offsets, and the layout
    of a program. Several of them pin down behaviour the Java comments did not
    intend (a comparison that computes `>=`, an `||` that is an `&&`, a register an
    `if` never gives back); these are stated as the code behaves. */
module CodeGenFacts {
  import opened Java
  import opened Wrappers
  import opened Ast
  import opened Assembly
  import opened CodeGen

  // ------------------------------------------------------------ register pool

  /** The pool is a stack: the register freed last is the next one acquired. */
  lemma {:induction false} FreeThenGet(st: State, reg: Register)
    ensures FreeRegister(st, Some(reg)).Some?
    ensures GetRegister(FreeRegister(st, Some(reg)).value) == Done(st, reg)
  {
    var s := st.freeRegs + [reg];
    assert s[..|s| - 1] == st.freeRegs;
  }

  /** Acquiring a register and freeing it again restores the pool. */
  lemma {:induction false} GetThenFree(st: State)
    requires st.freeRegs != []
    ensures GetRegister(st).Done?
    ensures FreeRegister(GetRegister(st).st, Some(GetRegister(st).val)) == Some(st)
  {
    var n := |st.freeRegs|;
    assert st.freeRegs[..n - 1] + [st.freeRegs[n - 1]] == st.freeRegs;
  }

  /** The expressions the generator implements: literals of int and char, variables,
      `sizeof`, and binary operations on them. */
  predicate Implemented(e: Expr) {
    match e
    case IntLiteral(_) => true
    case ChrLiteral(_) => true
    case VarExpr(_, _, _) => true
    case SizeOfExpr(_, _) => true
    case BinOp(l, _, r, _) => Implemented(l) && Implemented(r)
    case _ => false
  }

  /** An implemented expression returns a register: with `ExprStep`, it holds
      exactly one register more on exit than on entry, the top of the pool. */
  lemma {:induction false} ImplementedHoldsOne(e: Expr, st: State)
    requires Implemented(e) && GenExpr(e, st).Done?
    ensures GenExpr(e, st).val.Some?
    ensures st.freeRegs == GenExpr(e, st).st.freeRegs + [GenExpr(e, st).val.value]
    decreases e
  {
    if e.BinOp? {
      if GenExpr(e.left, st).Done? {
        ImplementedHoldsOne(e.left, st);
      }
      if GenExpr(e.right, st).Done? {
        ImplementedHoldsOne(e.right, st);
      }
      match e.op
      case AND =>
        assert GenExpr(e, st) == GenShortCircuit(e, st, "endand_");
      case OR =>
        assert GenExpr(e, st) == GenShortCircuit(e, st, "endor_");
      case GE =>
        assert GenExpr(e, st) == Inverted(GenArith(e, st, LT));
        ArithHoldsOne(e, st, LT);
      case LE =>
        assert GenExpr(e, st) == Inverted(GenArith(e, st, GT));
        ArithHoldsOne(e, st, GT);
      case NE =>
        assert GenExpr(e, st) == Inverted(GenArith(e, st, EQ));
        ArithHoldsOne(e, st, EQ);
      case _ =>
        assert GenExpr(e, st) == GenArith(e, st, e.op);
        ArithHoldsOne(e, st, e.op);
    }
  }

  lemma {:induction false} ArithHoldsOne(e: Expr, st: State, op: Op)
    requires e.BinOp? && op in {ADD, SUB, MUL, DIV, MOD, LT, GT, EQ}
    requires Implemented(e.left) && Implemented(e.right)
    requires GenExpr(e.left, st).Done? ==> GenExpr(e.left, st).val.Some?
    requires GenExpr(e.right, st).Done? ==> GenExpr(e.right, st).val.Some?
    requires GenArith(e, st, op).Done?
    ensures GenArith(e, st, op).val.Some?
  {
  }

  /** `visitExprStmt` gives back the register of its expression. */
  lemma {:induction false} ExprStmtRestoresPool(x: Expr, st: State)
    requires GenStmt(ExprStmt(x), st).Some?
    ensures GenStmt(ExprStmt(x), st).value.freeRegs == st.freeRegs
  {
  }

  /** Statements that give back every register they take: expression statements,
      returns, loops of these and blocks of these. */
  predicate Balanced(s: Stmt) {
    match s
    case ExprStmt(_) => true
    case Return(_) => true
    case While(_, body) => Balanced(body)
    case BlockStmt(b) => forall t <- b.code :: Balanced(t)
    case _ => false
  }

  lemma {:induction false} BalancedKeepsPool(s: Stmt, st: State)
    requires Balanced(s) && GenStmt(s, st).Some?
    ensures GenStmt(s, st).value.freeRegs == st.freeRegs
    decreases s, 1
  {
    match s
    case ExprStmt(_) =>
    case Return(_) =>
    case While(c, body) =>
      var st1 := Uid(st);
      var cond := GenExpr(c, Emit(st1, [Label(Numbered("while_start_", st1.uidGen))]));
      var f := FreeRegister(Emit(cond.st, [Beqz(cond.val, Numbered("while_end_", st1.uidGen))]), cond.val);
      BalancedKeepsPool(body, f.value);
    case BlockStmt(b) =>
      var decls := GenVarDecls(b.vars, st);
      BalancedStmtsKeepPool(b.code, decls.value);
  }

  lemma {:induction false} BalancedStmtsKeepPool(ss: seq<Stmt>, st: State)
    requires (forall t <- ss :: Balanced(t)) && GenStmts(ss, st).Some?
    ensures GenStmts(ss, st).value.freeRegs == st.freeRegs
    decreases ss, 0
  {
    if ss != [] {
      var init := GenStmts(ss[..|ss| - 1], st);
      BalancedStmtsKeepPool(ss[..|ss| - 1], st);
      BalancedKeepsPool(ss[|ss| - 1], init.value);
    }
  }

  /** `visitIf` never frees its condition's register: even when both branches give
      back every register, the pool ends one register short, its old top. */
  lemma {:induction false} IfLeaksCondition(c: Expr, t: Stmt, el: Stmt, st: State)
    requires Implemented(c) && Balanced(t) && Balanced(el)
    requires GenStmt(If(c, t, Some(el)), st).Some?
    ensures st.freeRegs != []
    ensures GenStmt(If(c, t, Some(el)), st).value.freeRegs == st.freeRegs[..|st.freeRegs| - 1]
  {
    var st1 := Uid(st);
    var cond := GenExpr(c, st1);
    ImplementedHoldsOne(c, st1);
    var t' := GenStmt(t, Emit(cond.st, [Beqz(cond.val, Numbered("if_else_", st1.uidGen))]));
    BalancedKeepsPool(t, Emit(cond.st, [Beqz(cond.val, Numbered("if_else_", st1.uidGen))]));
    var st2 := Emit(t'.value, [J(Numbered("if_end_", st1.uidGen)), Label(Numbered("if_else_", st1.uidGen))]);
    BalancedKeepsPool(el, st2);
    assert st.freeRegs[..|st.freeRegs| - 1] == cond.st.freeRegs;
  }

  /** An `if` without `else` throws: `elseCode.accept` on null. */
  lemma {:induction false} IfWithoutElseAborts(c: Expr, t: Stmt, st: State)
    ensures GenStmt(If(c, t, None), st).None?
  {
  }

  /** What `visitAssign` to a variable does to the pool: it returns the register of
      the value, then that of the address. */
  lemma {:induction false} AssignToVariablePool(x: string, vd: VarDecl, ty: Option<Type>, rhs: Expr, st: State)
    requires GenStmt(Assign(VarExpr(x, Some(vd), ty), rhs), st).Some?
    ensures var v := GenExpr(rhs, st);
            v.Done? && v.val.Some?
            && var a := GenExpr(VarExpr(x, Some(vd), ty), v.st);
               a.Done? && a.val.Some?
               && GenStmt(Assign(VarExpr(x, Some(vd), ty), rhs), st).value.freeRegs
                  == a.st.freeRegs + [v.val.value, a.val.value]
  {
    var l := VarExpr(x, Some(vd), ty);
    var v := GenExpr(rhs, st);
    var a := GenExpr(l, v.st);
    var f := FreeRegister(Emit(a.st, [Move(a.val, v.val)]), v.val);
    assert f.Some?;
    var stored := Store(f.value, a.val, vd);
    assert stored.Some?;
  }

  /** An assignment to a variable returns both its registers in the opposite order:
      the two top entries of the pool trade places. */
  lemma {:induction false} AssignSwapsTopTwo(x: string, vd: VarDecl, ty: Option<Type>, rhs: Expr, st: State)
    requires Implemented(rhs)
    requires GenStmt(Assign(VarExpr(x, Some(vd), ty), rhs), st).Some?
    ensures |st.freeRegs| >= 2
    ensures var n := |st.freeRegs|;
            GenStmt(Assign(VarExpr(x, Some(vd), ty), rhs), st).value.freeRegs
            == st.freeRegs[..n - 2] + [st.freeRegs[n - 1], st.freeRegs[n - 2]]
  {
    AssignToVariablePool(x, vd, ty, rhs, st);
    var v := GenExpr(rhs, st);
    var a := GenExpr(VarExpr(x, Some(vd), ty), v.st);
    ImplementedHoldsOne(rhs, st);
    ImplementedHoldsOne(VarExpr(x, Some(vd), ty), v.st);
    var n := |st.freeRegs|;
    assert st.freeRegs == a.st.freeRegs + [a.val.value] + [v.val.value];
    assert st.freeRegs[..n - 2] == a.st.freeRegs;
  }

  /** A local variable is read from `-offset($sp)`. */
  lemma {:induction false} LocalLoadAddress(x: string, vd: VarDecl, ty: Option<Type>, st: State)
    requires Offset(st, vd) != -1
    ensures var ld := GenExpr(VarExpr(x, Some(vd), ty), st);
            ld.Done? ==> ld.st.out == st.out + [Move(ld.val, Some(SP)), Lw(ld.val, SubInt(0, Offset(st, vd)), ld.val)]
  {
  }

  /** An assignment to a local variable stores to `offset($sp)`. */
  lemma {:induction false} LocalStoreAddress(x: string, vd: VarDecl, ty: Option<Type>, rhs: Expr, st: State)
    requires Offset(st, vd) != -1
    ensures var asg := GenStmt(Assign(VarExpr(x, Some(vd), ty), rhs), st);
            asg.Some? ==> var last := asg.value.out[|asg.value.out| - 1];
                         last.Sw? && last.offset == Offset(st, vd)
  {
  }

  /** A local variable is read from `-offset($sp)` but written to `offset($sp)`: the
      two addresses differ for every offset but 0 (and the smallest `int`). */
  lemma {:induction false} LoadAndStoreDisagree(x: string, vd: VarDecl, ty: Option<Type>, rhs: Expr, st: State)
    requires Offset(st, vd) != -1
    ensures var ld := GenExpr(VarExpr(x, Some(vd), ty), st);
            ld.Done? ==> ld.st.out == st.out + [Move(ld.val, Some(SP)), Lw(ld.val, SubInt(0, Offset(st, vd)), ld.val)]
    ensures var asg := GenStmt(Assign(VarExpr(x, Some(vd), ty), rhs), st);
            asg.Some? ==> var last := asg.value.out[|asg.value.out| - 1];
                         last.Sw? && last.offset == Offset(st, vd)
    ensures Offset(st, vd) != 0 && Offset(st, vd) != -TWO_31 ==> SubInt(0, Offset(st, vd)) != Offset(st, vd)
  {
    LocalLoadAddress(x, vd, ty, st);
    LocalStoreAddress(x, vd, ty, rhs, st);
  }

  // ------------------------------------------------------ what the code computes

  lemma {:induction false} RunTwo(a: Instr, b: Instr, regs: Registers)
    ensures Run([a, b], regs) == if Exec(a, regs).None? then None else Exec(b, Exec(a, regs).value)
  {
    assert [a, b] == [a] + [b];
    RunCons(a, [b], regs);
    if Exec(a, regs).Some? {
      RunOne(b, Exec(a, regs).value);
    }
  }

  lemma {:induction false} RunThree(a: Instr, b: Instr, c: Instr, regs: Registers)
    ensures Run([a, b, c], regs) == if Exec(a, regs).None? then None else Run([b, c], Exec(a, regs).value)
  {
    assert [a, b, c] == [a] + [b, c];
    RunCons(a, [b, c], regs);
  }

  /** `invertBool` maps 0 to 1 and 1 to 0. */
  lemma {:induction false} InvertBoolFlips(r: Register, regs: Registers)
    requires Read(regs, r) == 0 || Read(regs, r) == 1
    ensures Run(InvertBool(Some(r)), regs) == Some(regs[r := 1 - Read(regs, r)])
  {
    var x := Read(regs, r);
    RunTwo(Addi(Some(r), Some(r), Num(-1)), Negu(Some(r), Some(r)), regs);
    assert regs[r := x - 1][r := 1 - x] == regs[r := 1 - x];
  }

  /** `slti` followed by `invertBool` computes `>=`. */
  lemma {:induction false} SltiInverted(k: int32, r: Register, regs: Registers)
    ensures Run([Slti(Some(r), Some(r), k)] + InvertBool(Some(r)), regs)
         == Some(regs[r := Bool(Read(regs, r) >= k)])
  {
    var b := Bool(Read(regs, r) < k);
    var r1 := regs[r := b];
    assert [Slti(Some(r), Some(r), k)] + InvertBool(Some(r))
        == [Slti(Some(r), Some(r), k), Addi(Some(r), Some(r), Num(-1)), Negu(Some(r), Some(r))];
    RunThree(Slti(Some(r), Some(r), k), Addi(Some(r), Some(r), Num(-1)), Negu(Some(r), Some(r)), regs);
    InvertBoolFlips(r, r1);
    assert r1[r := 1 - b] == regs[r := Bool(Read(regs, r) >= k)];
  }

  /** `k < x` with the literal on the left computes `x >= k`: wrong exactly when `x`
      equals `k`. */
  lemma {:induction false} LessThanLiteralLeftIsAtLeast(k: int32, r: Register, regs: Registers)
    ensures Run(ImmediateCode(LT, Some(r), k, true), regs) == Some(regs[r := Bool(Read(regs, r) >= k)])
  {
    SltiInverted(k, r, regs);
  }

  /** `x > k` with the literal on the right computes `x >= k` too. */
  lemma {:induction false} GreaterThanLiteralRightIsAtLeast(k: int32, r: Register, regs: Registers)
    ensures Run(ImmediateCode(GT, Some(r), k, false), regs) == Some(regs[r := Bool(Read(regs, r) >= k)])
  {
    SltiInverted(k, r, regs);
  }

  /** The other fast paths of the comparisons compute what they should. */
  lemma {:induction false} OtherImmediateComparisonsAreRight(k: int32, r: Register, regs: Registers)
    ensures Run(ImmediateCode(LT, Some(r), k, false), regs) == Some(regs[r := Bool(Read(regs, r) < k)])
    ensures Run(ImmediateCode(GT, Some(r), k, true), regs) == Some(regs[r := Bool(k > Read(regs, r))])
  {
    RunOne(Slti(Some(r), Some(r), k), regs);
  }

  /** The general paths of `<` and `>` compute what they should. */
  lemma {:induction false} GeneralComparisonsAreRight(l: Register, r: Register, regs: Registers)
    ensures Run(GeneralCode(LT, Some(l), Some(r)), regs) == Some(regs[l := Bool(Read(regs, l) < Read(regs, r))])
    ensures Run(GeneralCode(GT, Some(l), Some(r)), regs) == Some(regs[l := Bool(Read(regs, l) > Read(regs, r))])
  {
    RunOne(Slt(Some(l), Some(l), Some(r)), regs);
    RunOne(Slt(Some(l), Some(r), Some(l)), regs);
  }

  /** The path of `==` computes what it should. */
  lemma {:induction false} GeneralEqualityIsRight(l: Register, r: Register, regs: Registers)
    ensures Run(GeneralCode(EQ, Some(l), Some(r)), regs) == Some(regs[l := Bool(Read(regs, l) == Read(regs, r))])
  {
    RunOne(Seq(Some(l), Some(l), Some(r)), regs);
  }

  /** The immediate form of `k + x` computes Java's `k + x`. */
  lemma {:induction false} ImmediateAdd(k: int32, r: Register, regs: Registers)
    ensures Run(ImmediateCode(ADD, Some(r), k, true), regs) == Some(regs[r := AddInt(k, Read(regs, r))])
  {
    RunOne(Addi(Some(r), Some(r), Num(k)), regs);
  }

  /** The immediate form of `k - x` computes Java's `k - x`. */
  lemma {:induction false} ImmediateSubLeft(k: int32, r: Register, regs: Registers)
    ensures Run(ImmediateCode(SUB, Some(r), k, true), regs) == Some(regs[r := SubInt(k, Read(regs, r))])
  {
    var x := Read(regs, r);
    var neg := SubInt(0, x);
    RunTwo(Negu(Some(r), Some(r)), Addi(Some(r), Some(r), Num(k)), regs);
    NegateThenAdd(k, x);
    assert regs[r := neg][r := AddInt(neg, k)] == regs[r := SubInt(k, x)];
  }

  /** The immediate form of `x - k` computes Java's `x - k`. */
  lemma {:induction false} ImmediateSubRight(k: int32, r: Register, regs: Registers)
    ensures Run(ImmediateCode(SUB, Some(r), k, false), regs) == Some(regs[r := SubInt(Read(regs, r), k)])
  {
    var x := Read(regs, r);
    RunOne(Addi(Some(r), Some(r), Minus(k)), regs);
    AddNegation(x, k);
  }

  /** The general path of `-` writes a register where `addi` needs a number: the
      code has no meaning, whatever the operands. */
  lemma {:induction false} GeneralSubtractionIsMalformed(l: Register, r: Register, regs: Registers)
    ensures GeneralCode(SUB, Some(l), Some(r)) == [Addi(Some(l), Some(l), RegisterImm(Some(r)))]
    ensures Run(GeneralCode(SUB, Some(l), Some(r)), regs).None?
  {
    RunOne(Addi(Some(l), Some(l), RegisterImm(Some(r))), regs);
  }

  /** Java's value of `a op b` for two `int` literals. */
  function JavaValue(op: Op, a: int32, b: int32): int32
    requires Folds(op)
  {
    match op
    case ADD => Wrap32(a + b)
    case SUB => Wrap32(a - b)
    case MUL => Wrap32(a * b)
    case LT => if a < b then 1 else 0
    case GT => if a > b then 1 else 0
  }

  /** Two literal operands take one register, the top of the pool, and a single
      `li` of Java's result, with no arithmetic instruction. */
  lemma {:induction false} LiteralsFold(a: int32, op: Op, b: int32, ty: Option<Type>, st: State, regs: Registers)
    requires Folds(op) && st.freeRegs != []
    ensures var r := GenExpr(BinOp(IntLiteral(a), op, IntLiteral(b), ty), st);
            var top := st.freeRegs[|st.freeRegs| - 1];
            r.Done? && r.val == Some(top) && r.st.out == st.out + [Li(Some(top), JavaValue(op, a, b))]
    ensures var r := GenExpr(BinOp(IntLiteral(a), op, IntLiteral(b), ty), st);
            var top := st.freeRegs[|st.freeRegs| - 1];
            r.Done? && Run(r.st.out[|st.out|..], regs) == Some(regs[top := JavaValue(op, a, b)])
  {
    var e := BinOp(IntLiteral(a), op, IntLiteral(b), ty);
    assert GenExpr(e, st) == GenBinOp(e, st) == GenArith(e, st, op);
    var r := LoadImmediate(st, Fold(op, a, b));
    assert GenArith(e, st, op) == r;
    var top := st.freeRegs[|st.freeRegs| - 1];
    assert r.st.out[|st.out|..] == [Li(Some(top), Fold(op, a, b))];
    RunOne(Li(Some(top), Fold(op, a, b)), regs);
  }

  /** Folding wraps around: `2147483647 + 1` loads the smallest `int`. */
  lemma {:induction false} FoldingWraps(st: State)
    requires st.freeRegs != []
    ensures var r := GenExpr(BinOp(IntLiteral(0x7fff_ffff), ADD, IntLiteral(1), None), st);
            r.Done? && r.st.out[|r.st.out| - 1] == Li(r.val, -0x8000_0000)
  {
    LiteralsFold(0x7fff_ffff, ADD, 1, None, st, map[]);
    AddWrapsAtMax();
    var r := GenExpr(BinOp(IntLiteral(0x7fff_ffff), ADD, IntLiteral(1), None), st);
    assert JavaValue(ADD, 0x7fff_ffff, 1) == -0x8000_0000;
    assert r.st.out == st.out + [Li(r.val, -0x8000_0000)];
  }

  const T0: Register := Register("$t0")
  const T1: Register := Register("$t1")

  /** The code of `a && b` or `a || b` on two literals with the pool `$t0`, `$t1`:
      `visitAnd` and `visitOr` differ only in the label. */
  function LiteralsCode(a: int32, b: int32, prefix: string): seq<Instr> {
    var end := Numbered(prefix, 1);
    [Li(Some(T1), a), Beqz(Some(T1), end), Li(Some(T0), b), Move(Some(T1), Some(T0)), Label(end)]
  }

  lemma {:induction false} ShortCircuitLiterals(a: int32, op: Op, b: int32, prefix: string)
    ensures GenShortCircuit(BinOp(IntLiteral(a), op, IntLiteral(b), None), Initial([T0, T1]), prefix)
            == Done(State([T0], map[], map[], 0, 1, LiteralsCode(a, b, prefix)), Some(T1))
  {
    var st0 := Initial([T0, T1]);
    var end := Numbered(prefix, 1);
    var s1 := State([T0], map[], map[], 0, 0, [Li(Some(T1), a)]);
    assert GenExpr(IntLiteral(a), st0) == Done(s1, Some(T1));
    var s2 := State([T0], map[], map[], 0, 1, [Li(Some(T1), a), Beqz(Some(T1), end)]);
    assert Emit(Uid(s1), [Beqz(Some(T1), end)]) == s2;
    var s3 := State([], map[], map[], 0, 1, [Li(Some(T1), a), Beqz(Some(T1), end), Li(Some(T0), b)]);
    assert GenExpr(IntLiteral(b), s2) == Done(s3, Some(T0));
  }

  /** Running the code of `1 && 0` straight through leaves 0 in the result
      register. */
  lemma {:induction false} OneZeroRuns(prefix: string)
    ensures Run(LiteralsCode(1, 0, prefix), map[]).Some? && Read(Run(LiteralsCode(1, 0, prefix), map[]).value, T1) == 0
  {
    var end := Numbered(prefix, 1);
    var m1: Registers := map[T1 := 1];
    var m2: Registers := m1[T0 := 0];
    var m3: Registers := m2[T1 := 0];
    RunCons(Li(Some(T1), 1), [Beqz(Some(T1), end), Li(Some(T0), 0), Move(Some(T1), Some(T0)), Label(end)], map[]);
    RunCons(Beqz(Some(T1), end), [Li(Some(T0), 0), Move(Some(T1), Some(T0)), Label(end)], m1);
    RunCons(Li(Some(T0), 0), [Move(Some(T1), Some(T0)), Label(end)], m1);
    RunTwo(Move(Some(T1), Some(T0)), Label(end), m2);
    assert Run([Label(end)], m3) == Some(m3) by { RunOne(Label(end), m3); }
  }

  /** `a && b` on two literals with the pool `$t0`, `$t1` compiles to that code. */
  lemma {:induction false} AndOfLiteralsCompiles(a: int32, b: int32)
    ensures GenExpr(BinOp(IntLiteral(a), AND, IntLiteral(b), None), Initial([T0, T1]))
            == Done(State([T0], map[], map[], 0, 1, LiteralsCode(a, b, "endand_")), Some(T1))
  {
    var e := BinOp(IntLiteral(a), AND, IntLiteral(b), None);
    ShortCircuitLiterals(a, AND, b, "endand_");
    assert GenExpr(e, Initial([T0, T1])) == GenBinOp(e, Initial([T0, T1]));
    assert GenBinOp(e, Initial([T0, T1])) == GenShortCircuit(e, Initial([T0, T1]), "endand_");
  }

  /** `a || b` with the same pool compiles to the same code, up to the label. */
  lemma {:induction false} OrOfLiteralsCompiles(a: int32, b: int32)
    ensures GenExpr(BinOp(IntLiteral(a), OR, IntLiteral(b), None), Initial([T0, T1]))
            == Done(State([T0], map[], map[], 0, 1, LiteralsCode(a, b, "endor_")), Some(T1))
  {
    var e := BinOp(IntLiteral(a), OR, IntLiteral(b), None);
    ShortCircuitLiterals(a, OR, b, "endor_");
    assert GenExpr(e, Initial([T0, T1])) == GenBinOp(e, Initial([T0, T1]));
    assert GenBinOp(e, Initial([T0, T1])) == GenShortCircuit(e, Initial([T0, T1]), "endor_");
  }

  /** `1 || 0` evaluates to 0, as `1 && 0` does: `visitOr` skips the right operand
      when the left one is false, as `visitAnd` does, and so computes `&&`. */
  lemma {:induction false} OrComputesAnd()
    ensures var r := GenExpr(BinOp(IntLiteral(1), OR, IntLiteral(0), None), Initial([T0, T1]));
            r.Done? && r.val == Some(T1)
            && Run(r.st.out, map[]).Some? && Read(Run(r.st.out, map[]).value, T1) == 0
    ensures var r := GenExpr(BinOp(IntLiteral(1), AND, IntLiteral(0), None), Initial([T0, T1]));
            r.Done? && r.val == Some(T1)
            && Run(r.st.out, map[]).Some? && Read(Run(r.st.out, map[]).value, T1) == 0
  {
    OrOfLiteralsCompiles(1, 0);
    OneZeroRuns("endor_");
    AndOfLiteralsCompiles(1, 0);
    OneZeroRuns("endand_");
  }

  /** The code of `sizeof(int)` then the fast path of `op` with the literal 4. */
  lemma {:induction false} SizeOfThenImmediate(op: Op, litLeft: bool)
    requires op == LT || op == GT
    ensures GenImmediate(SizeOfExpr(IntType, None), Initial([T0]), op, 4, litLeft)
         == Done(State([], map[], map[], 0, 0,
                       [Li(Some(T0), 4)] + ImmediateCode(op, Some(T0), 4, litLeft)), Some(T0))
  {
    var s1 := State([], map[], map[], 0, 0, [Li(Some(T0), 4)]);
    assert Size(IntType, Initial([T0])) == Some(4);
    assert GenExpr(SizeOfExpr(IntType, None), Initial([T0])) == Done(s1, Some(T0));
  }

  /** `4 < sizeof(int)` evaluates to 1 though 4 < 4 is false. */
  lemma {:induction false} LessThanCounterexample()
    ensures var r := GenExpr(BinOp(IntLiteral(4), LT, SizeOfExpr(IntType, None), None), Initial([T0]));
            r.Done? && r.val == Some(T0)
            && Run(r.st.out, map[]).Some? && Read(Run(r.st.out, map[]).value, T0) == 1
  {
    var e := BinOp(IntLiteral(4), LT, SizeOfExpr(IntType, None), None);
    assert GenExpr(e, Initial([T0])) == GenArith(e, Initial([T0]), LT)
        == GenImmediate(SizeOfExpr(IntType, None), Initial([T0]), LT, 4, true);
    SizeOfThenImmediate(LT, true);
    var m1: Registers := map[T0 := 4];
    RunCons(Li(Some(T0), 4), ImmediateCode(LT, Some(T0), 4, true), map[]);
    LessThanLiteralLeftIsAtLeast(4, T0, m1);
  }

  /** `sizeof(int) > 4` evaluates to 1 though 4 > 4 is false. */
  lemma {:induction false} GreaterThanCounterexample()
    ensures var r := GenExpr(BinOp(SizeOfExpr(IntType, None), GT, IntLiteral(4), None), Initial([T0]));
            r.Done? && r.val == Some(T0)
            && Run(r.st.out, map[]).Some? && Read(Run(r.st.out, map[]).value, T0) == 1
  {
    var e := BinOp(SizeOfExpr(IntType, None), GT, IntLiteral(4), None);
    assert GenExpr(e, Initial([T0])) == GenArith(e, Initial([T0]), GT)
        == GenImmediate(SizeOfExpr(IntType, None), Initial([T0]), GT, 4, false);
    SizeOfThenImmediate(GT, false);
    var m1: Registers := map[T0 := 4];
    RunCons(Li(Some(T0), 4), ImmediateCode(GT, Some(T0), 4, false), map[]);
    GreaterThanLiteralRightIsAtLeast(4, T0, m1);
  }
}
