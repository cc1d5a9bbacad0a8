/** The labels `gen/CodeGenerator.java` writes. Every control-flow label is
    `prefix + uid()`, and `uid()` hands out a new number each time, so the labels
    an expression or a statement writes carry numbers above the `uidGen` it started
    from and at most the one it ends with, and none is written twice; a function's
    entry label is the only other kind. With distinct function names, no label of
    a whole program is defined twice. Stated about the functions of `CodeGen`. */
module LabelFacts {
  import opened Java
  import opened Wrappers
  import opened Ast
  import opened Assembly
  import opened CodeGen
  import opened LayoutFacts

  // ------------------------------------------------------------ label sets

  /** No label is defined twice in `code`. */
  predicate UniqueLabels(code: seq<Instr>) {
    forall i, j | 0 <= i < j < |code| && code[i].Label? && code[j].Label? :: code[i].at != code[j].at
  }

  /** No label of `code` is `x`. */
  predicate Avoids(code: seq<Instr>, x: LabelName) {
    forall i | 0 <= i < |code| && code[i].Label? :: code[i].at != x
  }

  /** `x` is a numbered label with a number in `(lo, hi]`, or the entry of a
      function in `names`. */
  predicate InRange(x: LabelName, lo: nat, hi: nat, names: set<string>) {
    if x.Numbered? then lo < x.k <= hi else x.fun in names
  }

  /** The labels of `code` are distinct and all in range. */
  predicate Labelled(code: seq<Instr>, lo: nat, hi: nat, names: set<string>) {
    UniqueLabels(code)
    && forall i | 0 <= i < |code| && code[i].Label? :: InRange(code[i].at, lo, hi, names)
  }

  /** No instruction of `code` is a label. */
  predicate NoLabels(code: seq<Instr>) {
    forall i | 0 <= i < |code| :: !code[i].Label?
  }

  /** The code written from `st` to `st'`. */
  function Added(st: State, st': State): (r: seq<Instr>)
    requires st.out <= st'.out
    ensures st.out + r == st'.out
  {
    st'.out[|st.out|..]
  }

  // ---------------------------------------------------- composing label sets

  lemma Unlabelled(code: seq<Instr>, lo: nat, hi: nat, names: set<string>)
    requires NoLabels(code)
    ensures Labelled(code, lo, hi, names)
  {
  }

  lemma Widen(code: seq<Instr>, lo: nat, hi: nat, names: set<string>, lo': nat, hi': nat, names': set<string>)
    requires Labelled(code, lo, hi, names) && lo' <= lo && hi <= hi' && names <= names'
    ensures Labelled(code, lo', hi', names')
  {
  }

  /** Code with labels in `(lo, mid]`, then code with labels in `(mid, hi]`, from
      disjoint sets of functions. */
  lemma Join(a: seq<Instr>, b: seq<Instr>, lo: nat, mid: nat, hi: nat, na: set<string>, nb: set<string>)
    requires Labelled(a, lo, mid, na) && Labelled(b, mid, hi, nb) && na !! nb && lo <= mid <= hi
    ensures Labelled(a + b, lo, hi, na + nb)
  {
    var c := a + b;
    forall i, j | 0 <= i < j < |c| && c[i].Label? && c[j].Label?
      ensures c[i].at != c[j].at
    {
      if j < |a| {
        assert c[i] == a[i] && c[j] == a[j];
      } else if i >= |a| {
        assert c[i] == b[i - |a|] && c[j] == b[j - |a|];
      } else {
        assert c[i] == a[i] && c[j] == b[j - |a|];
      }
    }
    forall i | 0 <= i < |c| && c[i].Label?
      ensures InRange(c[i].at, lo, hi, na + nb)
    {
      if i < |a| {
        assert c[i] == a[i];
      } else {
        assert c[i] == b[i - |a|];
      }
    }
  }

  /** Labels in range avoid a label out of range. */
  lemma AvoidsOutOfRange(code: seq<Instr>, lo: nat, hi: nat, names: set<string>, x: LabelName)
    requires Labelled(code, lo, hi, names) && !InRange(x, lo, hi, names)
    ensures Avoids(code, x)
  {
  }

  lemma AvoidsJoin(a: seq<Instr>, b: seq<Instr>, x: LabelName)
    requires Avoids(a, x) && Avoids(b, x)
    ensures Avoids(a + b, x)
  {
    var c := a + b;
    forall i | 0 <= i < |c| && c[i].Label?
      ensures c[i].at != x
    {
      if i < |a| {
        assert c[i] == a[i];
      } else {
        assert c[i] == b[i - |a|];
      }
    }
  }

  /** A label not yet defined, appended. */
  lemma Fresh(code: seq<Instr>, x: LabelName, lo: nat, hi: nat, names: set<string>)
    requires Labelled(code, lo, hi, names) && Avoids(code, x) && InRange(x, lo, hi, names)
    ensures Labelled(code + [Label(x)], lo, hi, names)
  {
    var c := code + [Label(x)];
    forall i, j | 0 <= i < j < |c| && c[i].Label? && c[j].Label?
      ensures c[i].at != c[j].at
    {
      assert c[i] == code[i];
      if j < |code| {
        assert c[j] == code[j];
      }
    }
    forall i | 0 <= i < |c| && c[i].Label?
      ensures InRange(c[i].at, lo, hi, names)
    {
      if i < |code| {
        assert c[i] == code[i];
      }
    }
  }

  /** The shape of `visitAnd` and `visitOr`: code with labels up to `x`'s number,
      code with labels above it, and the label `x`. */
  lemma AroundLabel(a: seq<Instr>, b: seq<Instr>, x: LabelName, lo: nat, hi: nat)
    requires x.Numbered? && lo < x.k <= hi
    requires Labelled(a, lo, x.k - 1, {}) && Labelled(b, x.k, hi, {})
    ensures Labelled(a + b + [Label(x)], lo, hi, {})
  {
    Widen(a, lo, x.k - 1, {}, lo, x.k, {});
    Join(a, b, lo, x.k, hi, {}, {});
    AvoidsOutOfRange(a, lo, x.k - 1, {}, x);
    AvoidsOutOfRange(b, x.k, hi, {}, x);
    AvoidsJoin(a, b, x);
    Fresh(a + b, x, lo, hi, {});
  }

  /** The shape of `visitWhile` (with `a` empty) and `visitIf`: two labels with the
      new number `lo + 1` and different prefixes, each after code whose labels are
      above it. */
  lemma TwoLabels(a: seq<Instr>, x: LabelName, b: seq<Instr>, y: LabelName, lo: nat, mid: nat, hi: nat)
    requires x.Numbered? && y.Numbered? && x.k == y.k == lo + 1 && x.prefix != y.prefix
    requires Labelled(a, lo + 1, mid, {}) && Labelled(b, mid, hi, {}) && lo + 1 <= mid <= hi
    ensures Labelled(a + [Label(x)] + b + [Label(y)], lo, hi, {})
  {
    Widen(a, lo + 1, mid, {}, lo, mid, {});
    AvoidsOutOfRange(a, lo + 1, mid, {}, x);
    Fresh(a, x, lo, mid, {});
    Join(a + [Label(x)], b, lo, mid, hi, {}, {});
    AvoidsOutOfRange(a, lo + 1, mid, {}, y);
    assert Avoids([Label(x)], y);
    AvoidsJoin(a, [Label(x)], y);
    AvoidsOutOfRange(b, mid, hi, {}, y);
    AvoidsJoin(a + [Label(x)], b, y);
    Fresh(a + [Label(x)] + b, y, lo, hi, {});
  }

  /** Code with labels in range, then code without labels. */
  lemma ThenPlain(st: State, mid: State, st': State, code: seq<Instr>, lo: nat, hi: nat, names: set<string>)
    requires st.out <= mid.out && st'.out == mid.out + code && NoLabels(code)
    requires Labelled(Added(st, mid), lo, hi, names) && lo <= hi
    ensures Labelled(Added(st, st'), lo, hi, names)
  {
    assert Added(st, st') == Added(st, mid) + code;
    Unlabelled(code, hi, hi, {});
    Join(Added(st, mid), code, lo, hi, hi, names, {});
    assert names + {} == names;
  }

  lemma AddedChain(s0: State, s1: State, s2: State)
    requires s0.out <= s1.out <= s2.out
    ensures Added(s0, s2) == Added(s0, s1) + Added(s1, s2)
  {
    assert s0.out + (Added(s0, s1) + Added(s1, s2)) == s2.out;
  }

  /** What is written from `s0` to `s1`, then from `s1` to `s2`. */
  lemma Sequenced(s0: State, s1: State, s2: State, lo: nat, mid: nat, hi: nat)
    requires s0.out <= s1.out <= s2.out && lo <= mid <= hi
    requires Labelled(Added(s0, s1), lo, mid, {}) && Labelled(Added(s1, s2), mid, hi, {})
    ensures Labelled(Added(s0, s2), lo, hi, {})
  {
    Join(Added(s0, s1), Added(s1, s2), lo, mid, hi, {}, {});
    AddedChain(s0, s1, s2);
  }

  // ------------------------------------------------------------ expressions

  /** The labels an expression writes are new: distinct, and numbered above the
      `uidGen` it started from and up to the one it ends with. */
  lemma {:induction false} ExprLabels(e: Expr, st: State)
    requires GenExpr(e, st).Done?
    ensures var st' := GenExpr(e, st).st; Labelled(Added(st, st'), st.uidGen, st'.uidGen, {})
    decreases e, 4
  {
    var st' := GenExpr(e, st).st;
    match e
    case FunCallExpr(name, _, _, _) =>
      if name == "print_i" {
        PrintLabels(e, st);
      } else {
        assert Added(st, st') == [];
      }
    case BinOp(_, _, _, _) =>
      BinOpLabels(e, st);
    case IntLiteral(_) =>
      assert NoLabels(Added(st, st'));
    case ChrLiteral(_) =>
      assert NoLabels(Added(st, st'));
    case VarExpr(_, _, _) =>
      assert NoLabels(Added(st, st'));
    case SizeOfExpr(_, _) =>
      assert NoLabels(Added(st, st'));
    case NoExpr =>
    case _ =>
      assert Added(st, st') == [];
  }

  lemma {:induction false} PrintLabels(e: Expr, st: State)
    requires e.FunCallExpr? && GenPrint(e, st).Done?
    ensures var st' := GenPrint(e, st).st; Labelled(Added(st, st'), st.uidGen, st'.uidGen, {})
    decreases e, 3
  {
    var a := GenExpr(e.args[0], st);
    ExprLabels(e.args[0], st);
    ThenPlain(st, a.st, GenPrint(e, st).st, [Move(Some(A0), a.val), Li(Some(V0), 1), Syscall],
              st.uidGen, a.st.uidGen, {});
  }

  lemma {:induction false} BinOpLabels(e: Expr, st: State)
    requires e.BinOp? && GenBinOp(e, st).Done?
    ensures var st' := GenBinOp(e, st).st; Labelled(Added(st, st'), st.uidGen, st'.uidGen, {})
    decreases e, 3
  {
    match e.op
    case AND => ShortCircuitLabels(e, st, "endand_");
    case OR => ShortCircuitLabels(e, st, "endor_");
    case GE => InvertedLabels(e, st, LT);
    case LE => InvertedLabels(e, st, GT);
    case NE => InvertedLabels(e, st, EQ);
    case _ => ArithLabels(e, st, e.op);
  }

  lemma {:induction false} InvertedLabels(e: Expr, st: State, op: Op)
    requires e.BinOp? && op in {LT, GT, EQ} && Inverted(GenArith(e, st, op)).Done?
    ensures var st' := Inverted(GenArith(e, st, op)).st; Labelled(Added(st, st'), st.uidGen, st'.uidGen, {})
    decreases e, 2
  {
    var o := GenArith(e, st, op);
    ArithLabels(e, st, op);
    ThenPlain(st, o.st, Inverted(o).st, InvertBool(o.val), st.uidGen, o.st.uidGen, {});
  }

  lemma {:induction false} ArithLabels(e: Expr, st: State, op: Op)
    requires e.BinOp? && op in {ADD, SUB, MUL, DIV, MOD, LT, GT, EQ} && GenArith(e, st, op).Done?
    ensures var st' := GenArith(e, st, op).st; Labelled(Added(st, st'), st.uidGen, st'.uidGen, {})
    decreases e, 1
  {
    var st' := GenArith(e, st, op).st;
    if Folds(op) && e.left.IntLiteral? && e.right.IntLiteral? {
      assert NoLabels(Added(st, st'));
    } else if HasImmediate(op) && e.left.IntLiteral? && !e.right.IntLiteral? {
      ImmediateLabels(e.right, st, op, e.left.i, true);
    } else if HasImmediate(op) && !e.left.IntLiteral? && e.right.IntLiteral? {
      ImmediateLabels(e.left, st, op, e.right.i, false);
    } else {
      GeneralLabels(e, st, op);
    }
  }

  lemma {:induction false} ImmediateLabels(x: Expr, st: State, op: Op, lit: int32, litLeft: bool)
    requires HasImmediate(op) && GenImmediate(x, st, op, lit, litLeft).Done?
    ensures var st' := GenImmediate(x, st, op, lit, litLeft).st;
            Labelled(Added(st, st'), st.uidGen, st'.uidGen, {})
    decreases x, 5
  {
    var o := GenExpr(x, st);
    ExprLabels(x, st);
    var code := ImmediateCode(op, o.val, lit, litLeft);
    assert NoLabels(code);
    ThenPlain(st, o.st, GenImmediate(x, st, op, lit, litLeft).st, code, st.uidGen, o.st.uidGen, {});
  }

  lemma {:induction false} GeneralLabels(e: Expr, st: State, op: Op)
    requires e.BinOp? && GenGeneral(e, st, op).Done?
    ensures var st' := GenGeneral(e, st, op).st; Labelled(Added(st, st'), st.uidGen, st'.uidGen, {})
    decreases e, 0
  {
    var l := GenExpr(e.left, st);
    var rr := GenExpr(e.right, l.st);
    ExprLabels(e.left, st);
    ExprLabels(e.right, l.st);
    Sequenced(st, l.st, rr.st, st.uidGen, l.st.uidGen, rr.st.uidGen);
    var code := GeneralCode(op, l.val, rr.val);
    assert NoLabels(code);
    ThenPlain(st, rr.st, GenGeneral(e, st, op).st, code, st.uidGen, rr.st.uidGen, {});
  }

  /** `visitAnd` and `visitOr`: the label `prefix + k` for the number `k` it takes,
      after the left operand's labels and before the right operand's. */
  lemma {:induction false} ShortCircuitLabels(e: Expr, st: State, prefix: string)
    requires e.BinOp? && GenShortCircuit(e, st, prefix).Done?
    ensures var st' := GenShortCircuit(e, st, prefix).st; Labelled(Added(st, st'), st.uidGen, st'.uidGen, {})
    decreases e, 1
  {
    var l := GenExpr(e.left, st);
    var st1 := Uid(l.st);
    var end := Numbered(prefix, st1.uidGen);
    var s2 := Emit(st1, [Beqz(l.val, end)]);
    var rr := GenExpr(e.right, s2);
    var st' := GenShortCircuit(e, st, prefix).st;
    ExprLabels(e.left, st);
    ExprLabels(e.right, s2);
    ThenPlain(st, l.st, s2, [Beqz(l.val, end)], st.uidGen, l.st.uidGen, {});
    Unlabelled([Move(l.val, rr.val)], rr.st.uidGen, rr.st.uidGen, {});
    Join(Added(s2, rr.st), [Move(l.val, rr.val)], st1.uidGen, rr.st.uidGen, rr.st.uidGen, {}, {});
    AroundLabel(Added(st, s2), Added(s2, rr.st) + [Move(l.val, rr.val)], end, st.uidGen, st'.uidGen);
    assert Added(st, st') == Added(st, s2) + (Added(s2, rr.st) + [Move(l.val, rr.val)]) + [Label(end)];
  }

  // ------------------------------------------------------------- statements

  /** The labels a statement writes are new: distinct, and numbered above the
      `uidGen` it started from and up to the one it ends with. */
  lemma {:induction false} StmtLabels(s: Stmt, st: State)
    requires GenStmt(s, st).Some?
    ensures var st' := GenStmt(s, st).value; Labelled(Added(st, st'), st.uidGen, st'.uidGen, {})
    decreases s, 1
  {
    match s
    case BlockStmt(b) => BlockLabels(b, st);
    case While(_, _) => WhileLabels(s, st);
    case If(_, _, _) => IfLabels(s, st);
    case Assign(_, _) => AssignLabels(s, st);
    case Return(_) =>
      assert Added(st, GenStmt(s, st).value) == [];
    case ExprStmt(x) =>
      var o := GenExpr(x, st);
      ExprLabels(x, st);
      ThenPlain(st, o.st, GenStmt(s, st).value, [], st.uidGen, o.st.uidGen, {});
  }

  /** `visitWhile`: `while_start_k`, the condition and the body, whose labels are
      numbered above k, and `while_end_k`. */
  lemma {:induction false} WhileLabels(s: Stmt, st: State)
    requires s.While? && GenStmt(s, st).Some?
    ensures var st' := GenStmt(s, st).value; Labelled(Added(st, st'), st.uidGen, st'.uidGen, {})
    decreases s, 0
  {
    var st1 := Uid(st);
    var start := Numbered("while_start_", st1.uidGen);
    var end := Numbered("while_end_", st1.uidGen);
    var s2 := Emit(st1, [Label(start)]);
    var cond := GenExpr(s.expr, s2);
    var f := FreeRegister(Emit(cond.st, [Beqz(cond.val, end)]), cond.val).value;
    var b := GenStmt(s.code, f).value;
    assert GenStmt(s, st).value == Emit(b, [J(start), Label(end)]);
    ExprLabels(s.expr, s2);
    StmtLabels(s.code, f);
    WhileShape(st, s2, cond.st, f, b, Emit(b, [J(start), Label(end)]), [Beqz(cond.val, end)], start, end);
  }

  /** The instructions of `visitWhile`, put together. */
  lemma WhileShape(st: State, s2: State, c: State, f: State, b: State, st': State, branch: seq<Instr>,
                   start: LabelName, end: LabelName)
    requires start == Numbered("while_start_", st.uidGen + 1) && end == Numbered("while_end_", st.uidGen + 1)
    requires s2.out == st.out + [Label(start)] && s2.uidGen == st.uidGen + 1
    requires s2.out <= c.out && f.out == c.out + branch && NoLabels(branch) && f.uidGen == c.uidGen
    requires f.out <= b.out && st'.out == b.out + [J(start), Label(end)] && st'.uidGen == b.uidGen
    requires Labelled(Added(s2, c), s2.uidGen, c.uidGen, {}) && s2.uidGen <= c.uidGen
    requires Labelled(Added(f, b), f.uidGen, b.uidGen, {}) && f.uidGen <= b.uidGen
    ensures Labelled(Added(st, st'), st.uidGen, st'.uidGen, {})
  {
    var jump := Emit(b, [J(start)]);
    ThenPlain(s2, c, f, branch, s2.uidGen, c.uidGen, {});
    Sequenced(s2, f, b, s2.uidGen, f.uidGen, b.uidGen);
    ThenPlain(s2, b, jump, [J(start)], s2.uidGen, b.uidGen, {});
    var x := Added(s2, jump);
    TwoLabels([], start, x, end, st.uidGen, s2.uidGen, st'.uidGen);
    assert st'.out == st.out + ([] + [Label(start)] + x + [Label(end)]);
  }

  /** `visitIf`: the condition and the then branch, `if_else_k`, the else branch and
      `if_end_k`, every other label numbered above k. */
  lemma {:induction false} IfLabels(s: Stmt, st: State)
    requires s.If? && GenStmt(s, st).Some?
    ensures var st' := GenStmt(s, st).value; Labelled(Added(st, st'), st.uidGen, st'.uidGen, {})
    decreases s, 0
  {
    var st1 := Uid(st);
    var neg := Numbered("if_else_", st1.uidGen);
    var end := Numbered("if_end_", st1.uidGen);
    var cond := GenExpr(s.expr, st1);
    var s2 := Emit(cond.st, [Beqz(cond.val, neg)]);
    var t := GenStmt(s.code, s2).value;
    var s4 := Emit(t, [J(end), Label(neg)]);
    var el := GenStmt(s.elseCode.value, s4).value;
    assert GenStmt(s, st).value == Emit(el, [Label(end)]);
    ExprLabels(s.expr, st1);
    StmtLabels(s.code, s2);
    StmtLabels(s.elseCode.value, s4);
    IfShape(st, st1, cond.st, s2, t, s4, el, Emit(el, [Label(end)]), cond.val, neg, end);
  }

  /** The instructions of `visitIf`, put together. */
  lemma IfShape(st: State, st1: State, c: State, s2: State, t: State, s4: State, el: State, st': State,
                reg: Operand, neg: LabelName, end: LabelName)
    requires neg == Numbered("if_else_", st.uidGen + 1) && end == Numbered("if_end_", st.uidGen + 1)
    requires st1.out == st.out && st1.uidGen == st.uidGen + 1
    requires st1.out <= c.out && st1.uidGen <= c.uidGen && Labelled(Added(st1, c), st1.uidGen, c.uidGen, {})
    requires s2.out == c.out + [Beqz(reg, neg)] && s2.uidGen == c.uidGen
    requires s2.out <= t.out && s2.uidGen <= t.uidGen && Labelled(Added(s2, t), s2.uidGen, t.uidGen, {})
    requires s4.out == t.out + [J(end), Label(neg)] && s4.uidGen == t.uidGen
    requires s4.out <= el.out && s4.uidGen <= el.uidGen && Labelled(Added(s4, el), s4.uidGen, el.uidGen, {})
    requires st'.out == el.out + [Label(end)] && st'.uidGen == el.uidGen
    ensures Labelled(Added(st, st'), st.uidGen, st'.uidGen, {})
  {
    var s3 := Emit(t, [J(end)]);
    ThenPlain(st1, c, s2, [Beqz(reg, neg)], st1.uidGen, c.uidGen, {});
    Sequenced(st1, s2, t, st1.uidGen, s2.uidGen, t.uidGen);
    ThenPlain(st1, t, s3, [J(end)], st1.uidGen, t.uidGen, {});
    var a := Added(st1, s3);
    var b := Added(s4, el);
    TwoLabels(a, neg, b, end, st.uidGen, t.uidGen, st'.uidGen);
    assert st'.out == st.out + (a + [Label(neg)] + b + [Label(end)]);
  }

  lemma {:induction false} AssignLabels(s: Stmt, st: State)
    requires s.Assign? && GenStmt(s, st).Some?
    ensures var st' := GenStmt(s, st).value; Labelled(Added(st, st'), st.uidGen, st'.uidGen, {})
    decreases s, 0
  {
    var v := GenExpr(s.right, st);
    var a := GenExpr(s.left, v.st);
    var f := FreeRegister(Emit(a.st, [Move(a.val, v.val)]), v.val).value;
    var st' := GenStmt(s, st).value;
    ExprLabels(s.right, st);
    ExprLabels(s.left, v.st);
    Sequenced(st, v.st, a.st, st.uidGen, v.st.uidGen, a.st.uidGen);
    ThenPlain(st, a.st, f, [Move(a.val, v.val)], st.uidGen, a.st.uidGen, {});
    StoreUnlabelled(s, f, a.val, st');
    ThenPlain(st, f, st', Added(f, st'), st.uidGen, a.st.uidGen, {});
  }

  /** The store that ends `visitAssign` writes no label and takes no number. */
  lemma StoreUnlabelled(s: Stmt, f: State, addr: Operand, st': State)
    requires s.Assign?
    requires var stored := match s.left
               case VarExpr(_, Some(vd), _) => Store(f, addr, vd)
               case _ => Some(f);
             stored.Some? && FreeRegister(stored.value, addr) == Some(st')
    ensures f.out <= st'.out && NoLabels(Added(f, st')) && st'.uidGen == f.uidGen
  {
  }

  lemma {:induction false} StmtsLabels(ss: seq<Stmt>, st: State)
    requires GenStmts(ss, st).Some?
    ensures var st' := GenStmts(ss, st).value; Labelled(Added(st, st'), st.uidGen, st'.uidGen, {})
    decreases ss
  {
    var st' := GenStmts(ss, st).value;
    if ss == [] {
      assert Added(st, st') == [];
    } else {
      var init := GenStmts(ss[..|ss| - 1], st).value;
      StmtsLabels(ss[..|ss| - 1], st);
      StmtLabels(ss[|ss| - 1], init);
      Sequenced(st, init, st', st.uidGen, init.uidGen, st'.uidGen);
    }
  }

  /** `visitBlock`: the locals write no label. */
  lemma {:induction false} BlockLabels(b: Block, st: State)
    requires GenBlock(b, st).Some?
    ensures var st' := GenBlock(b, st).value; Labelled(Added(st, st'), st.uidGen, st'.uidGen, {})
    decreases b
  {
    var decls := GenVarDecls(b.vars, st).value;
    var st' := GenBlock(b, st).value;
    LocalsUnlabelled(b.vars, st);
    Unlabelled(Added(st, decls), st.uidGen, st.uidGen, {});
    StmtsLabels(b.code, decls);
    Join(Added(st, decls), Added(decls, st'), st.uidGen, st.uidGen, st'.uidGen, {}, {});
    AddedChain(st, decls, st');
  }

  lemma LocalsUnlabelled(vs: seq<VarDecl>, st: State)
    requires GenVarDecls(vs, st).Some?
    ensures NoLabels(Added(st, GenVarDecls(vs, st).value))
  {
    var decls := GenVarDecls(vs, st).value;
    LocalsGrowTheStack(vs, st);
    var code := Added(st, decls);
    forall i | 0 <= i < |code|
      ensures !code[i].Label?
    {
      assert code[i] == decls.out[|st.out| + i];
    }
  }

  // --------------------------------------------------------------- functions

  /** No two functions have the same name, as name analysis demands. */
  predicate DistinctNames(fs: seq<FunDecl>) {
    forall i, j | 0 <= i < j < |fs| :: fs[i].name != fs[j].name
  }

  function Names(fs: seq<FunDecl>): set<string> {
    set i | 0 <= i < |fs| :: fs[i].name
  }

  /** `visitFunDecl`: the entry label `function_name`, then the body's labels. */
  lemma FunDeclLabels(f: FunDecl, st: State)
    requires GenFunDecl(f, st).Some?
    ensures var st' := GenFunDecl(f, st).value; Labelled(Added(st, st'), st.uidGen, st'.uidGen, {f.name})
  {
    var entry := Emit(st.(functionVarOffsets := 0), [Label(FunctionEntry(f.name))]);
    var st' := GenBlock(f.block, entry).value;
    BlockLabels(f.block, entry);
    assert Labelled([Label(FunctionEntry(f.name))], st.uidGen, st.uidGen, {f.name});
    Join([Label(FunctionEntry(f.name))], Added(entry, st'), st.uidGen, st.uidGen, st'.uidGen, {f.name}, {});
    assert st'.out == st.out + ([Label(FunctionEntry(f.name))] + Added(entry, st'));
    assert {f.name} + {} == {f.name};
  }

  /** Functions in order: their entry labels and every label of their bodies are
      distinct, when their names are. */
  lemma {:induction false} FunDeclsLabels(fs: seq<FunDecl>, st: State)
    requires DistinctNames(fs) && GenFunDecls(fs, st).Some?
    ensures var st' := GenFunDecls(fs, st).value; Labelled(Added(st, st'), st.uidGen, st'.uidGen, Names(fs))
    decreases |fs|
  {
    var st' := GenFunDecls(fs, st).value;
    if fs == [] {
      assert Added(st, st') == [];
    } else {
      var n := |fs| - 1;
      var init := GenFunDecls(fs[..n], st).value;
      assert fs[..n] + fs[n + 1..] == fs[..n];
      WithoutOne(fs, n);
      FunDeclsLabels(fs[..n], st);
      FunDeclLabels(fs[n], init);
      Join(Added(st, init), Added(init, st'), st.uidGen, init.uidGen, st'.uidGen, Names(fs[..n]), {fs[n].name});
      AddedChain(st, init, st');
    }
  }

  /** Every function but the one at `i`, in order. */
  lemma WithoutOne(fs: seq<FunDecl>, i: nat)
    requires DistinctNames(fs) && i < |fs|
    ensures var rest := fs[..i] + fs[i + 1..];
            DistinctNames(rest) && fs[i].name !in Names(rest) && Names(rest) + {fs[i].name} == Names(fs)
  {
    var rest := fs[..i] + fs[i + 1..];
    assert forall j | 0 <= j < |rest| :: rest[j] == if j < i then fs[j] else fs[j + 1];
    forall x | x in Names(fs)
      ensures x in Names(rest) + {fs[i].name}
    {
      var j :| 0 <= j < |fs| && fs[j].name == x;
      if j < i {
        assert rest[j] == fs[j];
      } else if j > i {
        assert rest[j - 1] == fs[j];
      }
    }
  }

  /** `main`, the exit system call and the other functions. */
  lemma TextLabels(fs: seq<FunDecl>, text: State)
    requires DistinctNames(fs) && GenTextSection(fs, text).Some?
    ensures var st' := GenTextSection(fs, text).value; Labelled(Added(text, st'), text.uidGen, st'.uidGen, Names(fs))
  {
    var st' := GenTextSection(fs, text).value;
    var i := MainIndex(fs);
    if i.None? {
      assert Added(text, st') == [];
    } else {
      var main := fs[i.value];
      var m := GenFunDecl(main, text).value;
      FunDeclLabels(main, text);
      var exit := Emit(m, [Li(Some(V0), 10), Syscall]);
      ThenPlain(text, m, exit, [Li(Some(V0), 10), Syscall], text.uidGen, m.uidGen, {main.name});
      var rest := fs[..i.value] + fs[i.value + 1..];
      WithoutOne(fs, i.value);
      FunDeclsLabels(rest, exit);
      Join(Added(text, exit), Added(exit, st'), text.uidGen, exit.uidGen, st'.uidGen, {main.name}, Names(rest));
      AddedChain(text, exit, st');
    }
  }

  /** `.data`, the structs, the globals and `.text` write no label and take no
      number. */
  lemma DataUnlabelled(p: Program, st: State)
    requires GenDataSection(p, st).Some?
    ensures var data := GenDataSection(p, st).value;
            st.out <= data.out && data.uidGen == st.uidGen && NoLabels(Added(st, data))
  {
    var data := GenDataSection(p, st).value;
    var s := GenStructDecls(p.structTypeDecls, Emit(st, [Directive(".data")])).value;
    StructDeclsEmitNothing(p.structTypeDecls, Emit(st, [Directive(".data")]));
    GlobalsShape(p.varDecls, s);
    DataSectionLayout(p, st);
    var n := |st.out|;
    var code := Added(st, data);
    forall i | 0 <= i < |code|
      ensures !code[i].Label?
    {
      assert code[i] == data.out[n + i];
    }
  }

  /** `visitProgram`, with distinct function names: no label is defined twice, and
      each is a function's entry or carries a number `uid()` handed out. */
  lemma ProgramLabels(p: Program, pool: seq<Register>)
    requires DistinctNames(p.funDecls) && GenProgram(p, Initial(pool)).Some?
    ensures var out := GenProgram(p, Initial(pool)).value;
            Labelled(out.out, 0, out.uidGen, Names(p.funDecls)) && UniqueLabels(out.out)
  {
    var st := Initial(pool);
    var data := GenDataSection(p, st).value;
    var st' := GenProgram(p, st).value;
    DataUnlabelled(p, st);
    Unlabelled(Added(st, data), 0, 0, {});
    TextLabels(p.funDecls, data);
    Join(Added(st, data), Added(data, st'), 0, 0, st'.uidGen, {}, Names(p.funDecls));
    AddedChain(st, data, st');
    assert {} + Names(p.funDecls) == Names(p.funDecls);
    assert Added(st, st') == st'.out;
  }
}
