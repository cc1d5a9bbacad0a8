/** What the code of `visitAnd` and `visitOr` (`gen/CodeGenerator.java`) computes
    when it runs with its branch: the left operand's value when that is zero,
    the right operand's value otherwise. Both visitors write the same code up to
    the label's prefix, so `||` computes `&&`. Stated about `CodeGen.GenShortCircuit`
    and the branching meaning `Assembly.Go`. */
module ShortCircuitFacts {
  import opened Java
  import opened Wrappers
  import opened Ast
  import opened Assembly
  import opened CodeGen
  import opened CodeGenFacts
  import opened LabelFacts

  /** The value `reg` holds after `code` runs straight through from `regs`. */
  function Value(code: seq<Instr>, regs: Registers, reg: Operand): (r: Option<int32>)
    ensures r.Some? <==> Run(code, regs).Some? && reg.Some?
  {
    var out := Run(code, regs);
    if out.None? || reg.None? then None else Some(Read(out.value, reg.value))
  }

  /** The left operand of `e`, evaluated first. */
  function Left(e: Expr, st: State): Outcome<Operand>
    requires e.BinOp?
  {
    GenExpr(e.left, st)
  }

  /** The state the right operand of `e` is evaluated in: after the left operand,
      a new label number and the `beqz` to `prefix + k`. */
  function BeforeRight(e: Expr, st: State, prefix: string): State
    requires e.BinOp? && Left(e, st).Done?
  {
    var l := Left(e, st);
    var st1 := Uid(l.st);
    Emit(st1, [Beqz(l.val, Numbered(prefix, st1.uidGen))])
  }

  /** The right operand of `e`. */
  function Right(e: Expr, st: State, prefix: string): Outcome<Operand>
    requires e.BinOp? && Left(e, st).Done?
  {
    GenExpr(e.right, BeforeRight(e, st, prefix))
  }

  /** The code of `GenShortCircuit`, pieced together. */
  lemma ShortCircuitCode(e: Expr, st: State, prefix: string)
    requires e.BinOp? && GenShortCircuit(e, st, prefix).Done?
    ensures var l := Left(e, st);
            var s2 := BeforeRight(e, st, prefix);
            var rr := Right(e, st, prefix);
            var r := GenShortCircuit(e, st, prefix);
            var end := Numbered(prefix, l.st.uidGen + 1);
            l.Done? && rr.Done? && r.val == l.val && rr.val.Some?
            && Added(st, r.st) == Added(st, l.st) + [Beqz(l.val, end)] + Added(s2, rr.st)
                                  + [Move(l.val, rr.val), Label(end)]
  {
    var l := Left(e, st);
    var s2 := BeforeRight(e, st, prefix);
    var rr := Right(e, st, prefix);
    var r := GenShortCircuit(e, st, prefix);
    var end := Numbered(prefix, l.st.uidGen + 1);
    assert r.st.out == st.out + (Added(st, l.st) + [Beqz(l.val, end)] + Added(s2, rr.st)
                                 + [Move(l.val, rr.val), Label(end)]);
  }

  /** Neither operand defines the label of the short circuit. */
  lemma OperandsAvoidEnd(e: Expr, st: State, prefix: string)
    requires e.BinOp? && Left(e, st).Done? && Right(e, st, prefix).Done?
    ensures var end := Numbered(prefix, Left(e, st).st.uidGen + 1);
            Avoids(Added(st, Left(e, st).st), end)
            && Avoids(Added(BeforeRight(e, st, prefix), Right(e, st, prefix).st), end)
  {
    var l := Left(e, st);
    var s2 := BeforeRight(e, st, prefix);
    var rr := Right(e, st, prefix);
    var end := Numbered(prefix, l.st.uidGen + 1);
    ExprLabels(e.left, st);
    ExprLabels(e.right, s2);
    AvoidsOutOfRange(Added(st, l.st), st.uidGen, l.st.uidGen, {}, end);
    AvoidsOutOfRange(Added(s2, rr.st), s2.uidGen, rr.st.uidGen, {}, end);
  }

  /** The label of a short circuit is defined once, at the end of its code. */
  lemma EndLabelAt(a: seq<Instr>, beqz: Instr, b: seq<Instr>, move: Instr, end: LabelName)
    requires Avoids(a, end) && Avoids(b, end) && !beqz.Label? && !move.Label?
    ensures var code := a + [beqz] + b + [move, Label(end)];
            LabelAt(code, end) == Some(|code| - 1)
  {
    var code := a + [beqz] + b + [move, Label(end)];
    assert code[|code| - 1] == Label(end);
    forall i | 0 <= i < |code| - 1
      ensures code[i] != Label(end)
    {
      if i < |a| {
        assert code[i] == a[i];
      } else if |a| < i < |a| + 1 + |b| {
        assert code[i] == b[i - |a| - 1];
      }
    }
  }

  /** The code of a short circuit runs: the left operand's code leaves `a` in `lv`;
      a zero there branches to the label, past the right operand; otherwise the
      right operand's code leaves `b` in `rv`, which moves into `lv`. */
  lemma GoShortCircuit(left: seq<Instr>, lv: Operand, end: LabelName, right: seq<Instr>, rv: Operand,
                       regs: Registers, a: int32, b: int32)
    requires Avoids(left, end) && Avoids(right, end)
    requires Value(left, regs, lv) == Some(a)
    requires a != 0 ==> Value(right, Run(left, regs).value, rv) == Some(b)
    ensures var code := left + [Beqz(lv, end)] + right + [Move(lv, rv), Label(end)];
            var out := Go(code, 0, regs, |code|);
            out.Some? && Read(out.value, lv.value) == if a == 0 then 0 else b
  {
    var code := left + [Beqz(lv, end)] + right + [Move(lv, rv), Label(end)];
    var n := |code|;
    assert code[0..|left|] == left;
    GoStraight(code, 0, left, regs, n);
    var regs1 := Run(left, regs).value;
    if a == 0 {
      SkipRight(left, lv, end, right, rv, regs1);
    } else {
      ThroughRight(left, lv, end, right, rv, regs1);
    }
  }

  /** A zero in `lv` branches to the label, which ends the code. */
  lemma SkipRight(left: seq<Instr>, lv: Operand, end: LabelName, right: seq<Instr>, rv: Operand, regs: Registers)
    requires Avoids(left, end) && Avoids(right, end) && lv.Some? && Read(regs, lv.value) == 0
    ensures var code := left + [Beqz(lv, end)] + right + [Move(lv, rv), Label(end)];
            Go(code, |left|, regs, |code| - |left|) == Some(regs)
  {
    var code := left + [Beqz(lv, end)] + right + [Move(lv, rv), Label(end)];
    var n := |code|;
    EndLabelAt(left, Beqz(lv, end), right, Move(lv, rv), end);
    assert code[|left|] == Beqz(lv, end);
    assert Go(code, |left|, regs, n - |left|) == Go(code, n - 1, regs, n - |left| - 1);
    assert code[n - 1] == Label(end);
    assert Go(code, n - 1, regs, n - |left| - 1) == Go(code, n, regs, n - |left| - 2) == Some(regs);
  }

  /** A non-zero `lv` falls through the right operand's code and the move. */
  lemma ThroughRight(left: seq<Instr>, lv: Operand, end: LabelName, right: seq<Instr>, rv: Operand, regs: Registers)
    requires lv.Some? && Read(regs, lv.value) != 0 && Run(right, regs).Some? && rv.Some?
    ensures var code := left + [Beqz(lv, end)] + right + [Move(lv, rv), Label(end)];
            var regs2 := Run(right, regs).value;
            Go(code, |left|, regs, |code| - |left|) == Some(regs2[lv.value := Read(regs2, rv.value)])
  {
    var code := left + [Beqz(lv, end)] + right + [Move(lv, rv), Label(end)];
    var n := |code|;
    var regs2 := Run(right, regs).value;
    assert code[|left|] == Beqz(lv, end);
    assert Go(code, |left|, regs, n - |left|) == Go(code, |left| + 1, regs, n - |left| - 1);
    assert code[|left| + 1..|left| + 1 + |right|] == right;
    GoStraight(code, |left| + 1, right, regs, n - |left| - 1);
    assert code[n - 2] == Move(lv, rv) && code[n - 1] == Label(end);
    var regs3 := regs2[lv.value := Read(regs2, rv.value)];
    assert Go(code, n - 2, regs2, 2) == Go(code, n - 1, regs3, 1) == Some(regs3);
  }

  /** `visitAnd` and `visitOr` run: with `a` in the left register after the left
      operand's code, the branch skips the right operand when `a` is zero and the
      result is `a`; otherwise the result is the right operand's value `b`. */
  lemma ShortCircuitValue(e: Expr, st: State, prefix: string, regs: Registers, a: int32, b: int32)
    requires e.BinOp? && GenShortCircuit(e, st, prefix).Done?
    requires Value(Added(st, Left(e, st).st), regs, Left(e, st).val) == Some(a)
    requires a != 0 ==>
               Value(Added(BeforeRight(e, st, prefix), Right(e, st, prefix).st),
                     Run(Added(st, Left(e, st).st), regs).value, Right(e, st, prefix).val) == Some(b)
    ensures var r := GenShortCircuit(e, st, prefix);
            var code := Added(st, r.st);
            var out := Go(code, 0, regs, |code|);
            r.val.Some? && out.Some? && Read(out.value, r.val.value) == if a == 0 then 0 else b
  {
    var l := Left(e, st);
    var rr := Right(e, st, prefix);
    ShortCircuitCode(e, st, prefix);
    OperandsAvoidEnd(e, st, prefix);
    GoShortCircuit(Added(st, l.st), l.val, Numbered(prefix, l.st.uidGen + 1),
                   Added(BeforeRight(e, st, prefix), rr.st), rr.val, regs, a, b);
  }

  /** `visitAnd`: the result is non-zero exactly when both operands are. */
  lemma AndValue(e: Expr, st: State, regs: Registers, a: int32, b: int32)
    requires e.BinOp? && e.op == AND && GenExpr(e, st).Done?
    requires Left(e, st).Done? && Right(e, st, "endand_").Done?
    requires Value(Added(st, Left(e, st).st), regs, Left(e, st).val) == Some(a)
    requires a != 0 ==>
               Value(Added(BeforeRight(e, st, "endand_"), Right(e, st, "endand_").st),
                     Run(Added(st, Left(e, st).st), regs).value, Right(e, st, "endand_").val) == Some(b)
    ensures var r := GenExpr(e, st);
            var code := Added(st, r.st);
            var out := Go(code, 0, regs, |code|);
            r.val.Some? && out.Some? && (Read(out.value, r.val.value) != 0 <==> a != 0 && b != 0)
  {
    assert GenExpr(e, st) == GenShortCircuit(e, st, "endand_");
    ShortCircuitValue(e, st, "endand_", regs, a, b);
  }

  /** `visitOr` computes `&&` too: the result is non-zero exactly when both operands
      are, so `1 || 0` and `0 || 1` are false. */
  lemma OrValue(e: Expr, st: State, regs: Registers, a: int32, b: int32)
    requires e.BinOp? && e.op == OR && GenExpr(e, st).Done?
    requires Left(e, st).Done? && Right(e, st, "endor_").Done?
    requires Value(Added(st, Left(e, st).st), regs, Left(e, st).val) == Some(a)
    requires a != 0 ==>
               Value(Added(BeforeRight(e, st, "endor_"), Right(e, st, "endor_").st),
                     Run(Added(st, Left(e, st).st), regs).value, Right(e, st, "endor_").val) == Some(b)
    ensures var r := GenExpr(e, st);
            var code := Added(st, r.st);
            var out := Go(code, 0, regs, |code|);
            r.val.Some? && out.Some? && (Read(out.value, r.val.value) != 0 <==> a != 0 && b != 0)
  {
    assert GenExpr(e, st) == GenShortCircuit(e, st, "endor_");
    ShortCircuitValue(e, st, "endor_", regs, a, b);
  }

  /** The code of two literals runs: the result is `a` when that is zero and `b`
      otherwise. */
  lemma LiteralsGo(a: int32, b: int32, prefix: string)
    ensures var code := LiteralsCode(a, b, prefix);
            var out := Go(code, 0, map[], |code|);
            out.Some? && Read(out.value, T1) == if a == 0 then 0 else b
  {
    var end := Numbered(prefix, 1);
    RunOne(Li(Some(T1), a), map[]);
    RunOne(Li(Some(T0), b), map[T1 := a]);
    assert Avoids([Li(Some(T1), a)], end) && Avoids([Li(Some(T0), b)], end);
    GoShortCircuit([Li(Some(T1), a)], Some(T1), end, [Li(Some(T0), b)], Some(T0), map[], a, b);
    assert LiteralsCode(a, b, prefix)
        == [Li(Some(T1), a)] + [Beqz(Some(T1), end)] + [Li(Some(T0), b)] + [Move(Some(T1), Some(T0)), Label(end)];
  }

  /** `a && b` on any two `int` literals is non-zero exactly when both are. */
  lemma AndOfLiterals(a: int32, b: int32)
    ensures var r := GenExpr(BinOp(IntLiteral(a), AND, IntLiteral(b), None), Initial([T0, T1]));
            r.Done? && r.val == Some(T1)
            && var out := Go(r.st.out, 0, map[], |r.st.out|);
               out.Some? && (Read(out.value, T1) != 0 <==> a != 0 && b != 0)
  {
    AndOfLiteralsCompiles(a, b);
    LiteralsGo(a, b, "endand_");
  }

  /** `a || b` on any two `int` literals is non-zero exactly when both are, as for
      `&&`: `1 || 0` is false. */
  lemma OrOfLiterals(a: int32, b: int32)
    ensures var r := GenExpr(BinOp(IntLiteral(a), OR, IntLiteral(b), None), Initial([T0, T1]));
            r.Done? && r.val == Some(T1)
            && var out := Go(r.st.out, 0, map[], |r.st.out|);
               out.Some? && (Read(out.value, T1) != 0 <==> a != 0 && b != 0)
  {
    OrOfLiteralsCompiles(a, b);
    LiteralsGo(a, b, "endor_");
  }

  // ------------------------------------- the code does not depend on what came before

  /** An outcome with `pre` written before all its code. */
  function Prefixed(r: Outcome<Operand>, pre: seq<Instr>): Outcome<Operand> {
    if r.Abort? then Abort else Done(r.st.(out := pre + r.st.out), r.val)
  }

  /** Writing after a state with `pre` in front. */
  lemma EmitPrefixed(s: State, pre: seq<Instr>, code: seq<Instr>)
    ensures Emit(s.(out := pre + s.out), code) == Emit(s, code).(out := pre + Emit(s, code).out)
  {
    assert pre + s.out + code == pre + (s.out + code);
  }

  /** An expression writes the same code, and ends in the same state, whatever was
      written before it. */
  lemma {:induction false} ExprOutFree(e: Expr, st: State, pre: seq<Instr>)
    ensures GenExpr(e, st.(out := pre + st.out)) == Prefixed(GenExpr(e, st), pre)
    decreases e, 4
  {
    var st' := st.(out := pre + st.out);
    match e
    case IntLiteral(i) =>
      LoadImmediateOutFree(st, i, pre);
    case ChrLiteral(c) =>
      LoadImmediateOutFree(st, c as int, pre);
    case VarExpr(_, _, _) =>
      VarOutFree(e, st, pre);
    case SizeOfExpr(t, _) =>
      assert Size(t, st') == Size(t, st);
      if Size(t, st).Some? {
        LoadImmediateOutFree(st, Size(t, st).value, pre);
      }
    case FunCallExpr(name, _, _, _) =>
      if name == "print_i" {
        PrintOutFree(e, st, pre);
      }
    case BinOp(_, _, _, _) =>
      BinOpOutFree(e, st, pre);
    case _ =>
  }

  lemma LoadImmediateOutFree(st: State, value: int, pre: seq<Instr>)
    ensures LoadImmediate(st.(out := pre + st.out), value) == Prefixed(LoadImmediate(st, value), pre)
  {
    var g := GetRegister(st);
    if g.Done? {
      EmitPrefixed(g.st, pre, [Li(Some(g.val), value)]);
    }
  }

  lemma VarOutFree(e: Expr, st: State, pre: seq<Instr>)
    requires e.VarExpr?
    ensures GenExpr(e, st.(out := pre + st.out)) == Prefixed(GenExpr(e, st), pre)
  {
    var st' := st.(out := pre + st.out);
    var g := GetRegister(st);
    if e.vd.Some? && g.Done? {
      assert Offset(st', e.vd.value) == Offset(st, e.vd.value);
      if Offset(st, e.vd.value) == -1 {
        EmitPrefixed(g.st, pre, [La(Some(g.val), e.name)]);
      } else {
        var reg := Some(g.val);
        EmitPrefixed(g.st, pre, [Move(reg, Some(SP)), Lw(reg, SubInt(0, Offset(st, e.vd.value)), reg)]);
        assert GenExpr(e, st') == LoadLocal(st', e.vd.value);
      }
    }
  }

  lemma {:induction false} PrintOutFree(e: Expr, st: State, pre: seq<Instr>)
    requires e.FunCallExpr?
    ensures GenPrint(e, st.(out := pre + st.out)) == Prefixed(GenPrint(e, st), pre)
    decreases e, 3
  {
    if e.args != [] {
      ExprOutFree(e.args[0], st, pre);
      var a := GenExpr(e.args[0], st);
      if a.Done? {
        EmitPrefixed(a.st, pre, [Move(Some(A0), a.val), Li(Some(V0), 1), Syscall]);
      }
    }
  }

  lemma {:induction false} BinOpOutFree(e: Expr, st: State, pre: seq<Instr>)
    requires e.BinOp?
    ensures GenBinOp(e, st.(out := pre + st.out)) == Prefixed(GenBinOp(e, st), pre)
    decreases e, 3
  {
    match e.op
    case AND => ShortCircuitOutFree(e, st, "endand_", pre);
    case OR => ShortCircuitOutFree(e, st, "endor_", pre);
    case GE => InvertedOutFree(e, st, LT, pre);
    case LE => InvertedOutFree(e, st, GT, pre);
    case NE => InvertedOutFree(e, st, EQ, pre);
    case _ => ArithOutFree(e, st, e.op, pre);
  }

  lemma {:induction false} InvertedOutFree(e: Expr, st: State, op: Op, pre: seq<Instr>)
    requires e.BinOp? && op in {LT, GT, EQ}
    ensures Inverted(GenArith(e, st.(out := pre + st.out), op)) == Prefixed(Inverted(GenArith(e, st, op)), pre)
    decreases e, 2
  {
    ArithOutFree(e, st, op, pre);
    var o := GenArith(e, st, op);
    if o.Done? {
      EmitPrefixed(o.st, pre, InvertBool(o.val));
    }
  }

  lemma {:induction false} ArithOutFree(e: Expr, st: State, op: Op, pre: seq<Instr>)
    requires e.BinOp? && op in {ADD, SUB, MUL, DIV, MOD, LT, GT, EQ}
    ensures GenArith(e, st.(out := pre + st.out), op) == Prefixed(GenArith(e, st, op), pre)
    decreases e, 1
  {
    if Folds(op) && e.left.IntLiteral? && e.right.IntLiteral? {
      LoadImmediateOutFree(st, Fold(op, e.left.i, e.right.i), pre);
    } else if HasImmediate(op) && e.left.IntLiteral? && !e.right.IntLiteral? {
      ImmediateOutFree(e.right, st, op, e.left.i, true, pre);
    } else if HasImmediate(op) && !e.left.IntLiteral? && e.right.IntLiteral? {
      ImmediateOutFree(e.left, st, op, e.right.i, false, pre);
    } else {
      GeneralOutFree(e, st, op, pre);
    }
  }

  lemma {:induction false} ImmediateOutFree(x: Expr, st: State, op: Op, lit: int32, litLeft: bool, pre: seq<Instr>)
    requires HasImmediate(op)
    ensures GenImmediate(x, st.(out := pre + st.out), op, lit, litLeft)
         == Prefixed(GenImmediate(x, st, op, lit, litLeft), pre)
    decreases x, 5
  {
    ExprOutFree(x, st, pre);
    var o := GenExpr(x, st);
    if o.Done? {
      var o' := GenExpr(x, st.(out := pre + st.out));
      assert o' == Done(o.st.(out := pre + o.st.out), o.val);
      EmitPrefixed(o.st, pre, ImmediateCode(op, o.val, lit, litLeft));
      assert GenImmediate(x, st, op, lit, litLeft) == Done(Emit(o.st, ImmediateCode(op, o.val, lit, litLeft)), o.val);
    }
  }

  lemma {:induction false} GeneralOutFree(e: Expr, st: State, op: Op, pre: seq<Instr>)
    requires e.BinOp?
    ensures GenGeneral(e, st.(out := pre + st.out), op) == Prefixed(GenGeneral(e, st, op), pre)
    decreases e, 0
  {
    var st' := st.(out := pre + st.out);
    ExprOutFree(e.left, st, pre);
    var l := GenExpr(e.left, st);
    if l.Done? {
      var l' := GenExpr(e.left, st');
      assert l'.st == l.st.(out := pre + l.st.out);
      ExprOutFree(e.right, l.st, pre);
      var rr := GenExpr(e.right, l.st);
      if rr.Done? {
        var rr' := GenExpr(e.right, l'.st);
        assert rr' == Done(rr.st.(out := pre + rr.st.out), rr.val);
        GeneralTail(rr.st, pre, l.val, rr.val, op);
        assert GenGeneral(e, st, op) == GeneralEnd(rr.st, l.val, rr.val, op);
        assert GenGeneral(e, st', op) == GeneralEnd(rr'.st, l.val, rr.val, op);
      }
    }
  }

  /** The end of `GenGeneral`, after both operands. */
  function GeneralEnd(s: State, l: Operand, r: Operand, op: Op): Outcome<Operand> {
    var f := FreeRegister(Emit(s, GeneralCode(op, l, r)), r);
    if f.None? then Abort else Done(f.value, l)
  }

  lemma GeneralTail(s: State, pre: seq<Instr>, l: Operand, r: Operand, op: Op)
    ensures GeneralEnd(s.(out := pre + s.out), l, r, op) == Prefixed(GeneralEnd(s, l, r, op), pre)
  {
    EmitPrefixed(s, pre, GeneralCode(op, l, r));
  }

  lemma {:induction false} ShortCircuitOutFree(e: Expr, st: State, prefix: string, pre: seq<Instr>)
    requires e.BinOp?
    ensures GenShortCircuit(e, st.(out := pre + st.out), prefix) == Prefixed(GenShortCircuit(e, st, prefix), pre)
    decreases e, 1
  {
    var st' := st.(out := pre + st.out);
    ExprOutFree(e.left, st, pre);
    var l := GenExpr(e.left, st);
    if l.Done? {
      var l' := GenExpr(e.left, st');
      assert l'.st == l.st.(out := pre + l.st.out);
      var end := Numbered(prefix, l.st.uidGen + 1);
      var s2 := Emit(Uid(l.st), [Beqz(l.val, end)]);
      EmitPrefixed(Uid(l.st), pre, [Beqz(l.val, end)]);
      assert Emit(Uid(l'.st), [Beqz(l.val, end)]) == s2.(out := pre + s2.out);
      ExprOutFree(e.right, s2, pre);
      var rr := GenExpr(e.right, s2);
      if rr.Done? {
        var rr' := GenExpr(e.right, s2.(out := pre + s2.out));
        assert rr' == Done(rr.st.(out := pre + rr.st.out), rr.val);
        ShortCircuitTail(rr.st, pre, l.val, rr.val, end);
        assert GenShortCircuit(e, st, prefix) == ShortCircuitEnd(rr.st, l.val, rr.val, end);
        assert GenShortCircuit(e, st', prefix) == ShortCircuitEnd(rr'.st, l.val, rr.val, end);
      }
    }
  }

  /** The end of `GenShortCircuit`, after both operands. */
  function ShortCircuitEnd(s: State, l: Operand, r: Operand, end: LabelName): Outcome<Operand> {
    var f := FreeRegister(Emit(s, [Move(l, r)]), r);
    if f.None? then Abort else Done(Emit(f.value, [Label(end)]), l)
  }

  lemma ShortCircuitTail(s: State, pre: seq<Instr>, l: Operand, r: Operand, end: LabelName)
    ensures ShortCircuitEnd(s.(out := pre + s.out), l, r, end) == Prefixed(ShortCircuitEnd(s, l, r, end), pre)
  {
    EmitPrefixed(s, pre, [Move(l, r)]);
    var f := FreeRegister(Emit(s, [Move(l, r)]), r);
    if f.Some? {
      EmitPrefixed(f.value, pre, [Label(end)]);
    }
  }

  // ------------------------------------------------- `visitOr` is `visitAnd`

  /** `a` and `b` have the same length and agree everywhere except at `i` and `j`. */
  predicate SameBut(a: seq<Instr>, b: seq<Instr>, i: int, j: int) {
    |a| == |b| && forall n | 0 <= n < |a| && n != i && n != j :: a[n] == b[n]
  }

  /** `cx` and `cy` are the same code except that the branch at `i` goes to `x`
      in one and `y` in the other, and the label ending them is `x` and `y`. */
  predicate Relabelled(cx: seq<Instr>, cy: seq<Instr>, i: int, lv: Operand, x: LabelName, y: LabelName) {
    0 <= i < |cx| && SameBut(cx, cy, i, |cx| - 1)
    && cx[i] == Beqz(lv, x) && cy[i] == Beqz(lv, y)
    && cx[|cx| - 1] == Label(x) && cy[|cy| - 1] == Label(y)
  }

  /** Two runs of a short circuit from `st`, whose left operand ends in `mid`,
      that differ only in the label prefix, `p` against `q`. */
  predicate LabelSwapped(st: State, mid: State, rp: Outcome<Operand>, rq: Outcome<Operand>, p: string, q: string) {
    rp.Done? && rq.Done? && st.out <= mid.out && st.out <= rp.st.out && st.out <= rq.st.out
    && rp.val == rq.val && rq.st == rp.st.(out := rq.st.out)
    && Relabelled(Added(st, rp.st), Added(st, rq.st), |mid.out| - |st.out|, rp.val,
                  Numbered(p, mid.uidGen + 1), Numbered(q, mid.uidGen + 1))
  }

  /** Two short circuits that differ only in the label: same code around them. */
  lemma TwoEnds(a: seq<Instr>, b: seq<Instr>, lv: Operand, rv: Operand, x: LabelName, y: LabelName)
    ensures Relabelled(a + [Beqz(lv, x)] + b + [Move(lv, rv), Label(x)],
                       a + [Beqz(lv, y)] + b + [Move(lv, rv), Label(y)], |a|, lv, x, y)
  {
    var cx := a + [Beqz(lv, x)] + b + [Move(lv, rv), Label(x)];
    var cy := a + [Beqz(lv, y)] + b + [Move(lv, rv), Label(y)];
    forall n | 0 <= n < |cx| && n != |a| && n != |cx| - 1
      ensures cx[n] == cy[n]
    {
      if n < |a| {
        assert cx[n] == a[n] == cy[n];
      } else if n < |a| + 1 + |b| {
        assert cx[n] == b[n - |a| - 1] == cy[n];
      } else {
        assert cx[n] == Move(lv, rv) == cy[n];
      }
    }
  }

  /** The right operand writes the same code whichever prefix the branch over it
      names. */
  lemma RightOfEitherPrefix(e: Expr, st: State, p: string, q: string)
    requires e.BinOp? && Left(e, st).Done?
    ensures var rp := Right(e, st, p);
            var rq := Right(e, st, q);
            rp.Done? == rq.Done?
            && (rp.Done? ==> rp.val == rq.val && rq.st == rp.st.(out := rq.st.out)
                             && Added(BeforeRight(e, st, p), rp.st) == Added(BeforeRight(e, st, q), rq.st))
  {
    var sp := BeforeRight(e, st, p);
    var sq := BeforeRight(e, st, q);
    var base := sp.(out := []);
    assert sq.(out := []) == base;
    ExprOutFree(e.right, base, sp.out);
    ExprOutFree(e.right, base, sq.out);
    assert base.(out := sp.out + base.out) == sp;
    assert base.(out := sq.out + base.out) == sq;
  }

  /** When a short circuit completes: both operands complete and the right one
      leaves a register; the final state is the right operand's with that register
      back in the pool. */
  lemma ShortCircuitDone(e: Expr, st: State, prefix: string)
    requires e.BinOp?
    ensures var r := GenShortCircuit(e, st, prefix);
            r.Done? <==> Left(e, st).Done? && Right(e, st, prefix).Done? && Right(e, st, prefix).val.Some?
    ensures var r := GenShortCircuit(e, st, prefix);
            r.Done? ==> var rr := Right(e, st, prefix);
                        r.st == rr.st.(freeRegs := rr.st.freeRegs + [rr.val.value], out := r.st.out)
  {
  }

  /** `visitOr` writes the code of `visitAnd` with the other label: the two differ
      only in the `beqz` after the left operand and in the label at the end, both
      `prefix + k` for the same `k`. */
  lemma ShortCircuitDiffersInLabel(e: Expr, st: State, p: string, q: string)
    requires e.BinOp?
    ensures GenShortCircuit(e, st, p).Done? <==> GenShortCircuit(e, st, q).Done?
    ensures GenShortCircuit(e, st, p).Done? ==>
              Left(e, st).Done?
              && LabelSwapped(st, Left(e, st).st, GenShortCircuit(e, st, p), GenShortCircuit(e, st, q), p, q)
  {
    ShortCircuitDone(e, st, p);
    ShortCircuitDone(e, st, q);
    if Left(e, st).Done? {
      RightOfEitherPrefix(e, st, p, q);
    }
    if GenShortCircuit(e, st, p).Done? {
      SwappedWhenDone(e, st, p, q);
    }
  }

  /** The second half of `ShortCircuitDiffersInLabel`, once the first circuit completes. */
  lemma SwappedWhenDone(e: Expr, st: State, p: string, q: string)
    requires e.BinOp? && GenShortCircuit(e, st, p).Done?
    ensures Left(e, st).Done?
            && LabelSwapped(st, Left(e, st).st, GenShortCircuit(e, st, p), GenShortCircuit(e, st, q), p, q)
  {
    CodeEquation(e, st, p);
    RightOfEitherPrefix(e, st, p, q);
    ShortCircuitDone(e, st, p);
    ShortCircuitDone(e, st, q);
    CodeEquation(e, st, q);
    SwapFromParts(st, Left(e, st).st, GenShortCircuit(e, st, p), GenShortCircuit(e, st, q),
                  Right(e, st, p), Right(e, st, q), BeforeRight(e, st, p), BeforeRight(e, st, q), p, q, Left(e, st).val);
  }

  /** `LabelSwapped` from the pieces of the two short circuits. */
  lemma SwapFromParts(st: State, mid: State, rp: Outcome<Operand>, rq: Outcome<Operand>,
                      rrp: Outcome<Operand>, rrq: Outcome<Operand>, sp: State, sq: State,
                      p: string, q: string, lv: Operand)
    requires rp.Done? && rq.Done? && rrp.Done? && rrq.Done? && rrp.val.Some?
    requires rrp.val == rrq.val && rrq.st == rrp.st.(out := rrq.st.out)
    requires rp.st == rrp.st.(freeRegs := rrp.st.freeRegs + [rrp.val.value], out := rp.st.out)
    requires rq.st == rrq.st.(freeRegs := rrq.st.freeRegs + [rrq.val.value], out := rq.st.out)
    requires st.out <= mid.out && st.out <= rp.st.out && st.out <= rq.st.out
    requires sp.out <= rrp.st.out && sq.out <= rrq.st.out && Added(sp, rrp.st) == Added(sq, rrq.st)
    requires rp.val == lv && rq.val == lv
    requires Added(st, rp.st) == Added(st, mid) + [Beqz(lv, Numbered(p, mid.uidGen + 1))] + Added(sp, rrp.st)
                                 + [Move(lv, rrp.val), Label(Numbered(p, mid.uidGen + 1))]
    requires Added(st, rq.st) == Added(st, mid) + [Beqz(lv, Numbered(q, mid.uidGen + 1))] + Added(sq, rrq.st)
                                 + [Move(lv, rrq.val), Label(Numbered(q, mid.uidGen + 1))]
    ensures LabelSwapped(st, mid, rp, rq, p, q)
  {
    FreedAlike(rp, rq, rrp, rrq);
    var a := Added(st, mid);
    TwoEnds(a, Added(sp, rrp.st), lv, rrp.val, Numbered(p, mid.uidGen + 1), Numbered(q, mid.uidGen + 1));
    assert |a| == |mid.out| - |st.out|;
  }

  /** Two right operands that end alike but for the code, each with its register
      given back, leave states alike but for the code. */
  lemma FreedAlike(rp: Outcome<Operand>, rq: Outcome<Operand>, rrp: Outcome<Operand>, rrq: Outcome<Operand>)
    requires rp.Done? && rq.Done? && rrp.Done? && rrq.Done? && rrp.val.Some? && rrp.val == rrq.val
    requires rrq.st == rrp.st.(out := rrq.st.out)
    requires rp.st == rrp.st.(freeRegs := rrp.st.freeRegs + [rrp.val.value], out := rp.st.out)
    requires rq.st == rrq.st.(freeRegs := rrq.st.freeRegs + [rrq.val.value], out := rq.st.out)
    ensures rq.st == rp.st.(out := rq.st.out)
  {
  }

  /** `ShortCircuitCode`'s equation alone, for a prefix. */
  lemma CodeEquation(e: Expr, st: State, p: string)
    requires e.BinOp? && GenShortCircuit(e, st, p).Done?
    ensures Left(e, st).Done? && Right(e, st, p).Done? && GenShortCircuit(e, st, p).val == Left(e, st).val
    ensures st.out <= Left(e, st).st.out && st.out <= GenShortCircuit(e, st, p).st.out
    ensures BeforeRight(e, st, p).out <= Right(e, st, p).st.out
    ensures Added(st, GenShortCircuit(e, st, p).st)
            == Added(st, Left(e, st).st) + [Beqz(Left(e, st).val, Numbered(p, Left(e, st).st.uidGen + 1))]
               + Added(BeforeRight(e, st, p), Right(e, st, p).st)
               + [Move(Left(e, st).val, Right(e, st, p).val), Label(Numbered(p, Left(e, st).st.uidGen + 1))]
  {
    ShortCircuitCode(e, st, p);
  }

  /** `a || b` and `a && b` compile to the same code but for the label prefixes
      `endor_` and `endand_`. */
  lemma AndOrSameCode(left: Expr, right: Expr, ty: Option<Type>, st: State)
    ensures var ra := GenExpr(BinOp(left, AND, right, ty), st);
            var ro := GenExpr(BinOp(left, OR, right, ty), st);
            (ra.Done? <==> ro.Done?)
            && (ra.Done? ==> GenExpr(left, st).Done?
                             && LabelSwapped(st, GenExpr(left, st).st, ra, ro, "endand_", "endor_"))
  {
    var ea := BinOp(left, AND, right, ty);
    var eo := BinOp(left, OR, right, ty);
    assert GenExpr(ea, st) == GenShortCircuit(ea, st, "endand_");
    assert GenExpr(eo, st) == GenShortCircuit(eo, st, "endor_");
    assert GenShortCircuit(eo, st, "endor_") == GenShortCircuit(ea, st, "endor_");
    ShortCircuitDiffersInLabel(ea, st, "endand_", "endor_");
  }
}
