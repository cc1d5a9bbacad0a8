/** The code generator as the Java runs it (`gen/CodeGenerator.java`): an object
    whose fields every visit updates, proved to compute the functions of module
    `CodeGen`.

    Each visit returns `ok == false` for an uncaught exception, after which the
    fields are not described; otherwise its contract gives the new fields and the
    register it returns as the corresponding `CodeGen` function does. */
module Generator {
  import opened Java
  import opened Wrappers
  import opened Ast
  import opened Assembly
  import opened CodeGen

  class CodeGenerator {
    var freeRegs: seq<Register>
    var structs: map<string, StructTypeDecl>
    var offsets: map<VarDecl, int32>
    var functionVarOffsets: int32
    var uidGen: nat
    var out: seq<Instr>

    /** The fields, as a `CodeGen.State`. */
    function Snapshot(): State
      reads this
    {
      State(freeRegs, structs, offsets, functionVarOffsets, uidGen, out)
    }

    /** What an expression visit did: its register and the fields, or an exception. */
    function Result(ok: bool, reg: Operand): Outcome<Operand>
      reads this
    {
      if ok then Done(Snapshot(), reg) else Abort
    }

    /** What a statement or declaration visit did: the fields, or an exception. */
    function After(ok: bool): Option<State>
      reads this
    {
      if ok then Some(Snapshot()) else None
    }

    /** `new CodeGenerator()` with `Register.tmpRegs` as `pool`. */
    constructor (pool: seq<Register>)
      ensures Snapshot() == Initial(pool)
    {
      freeRegs := pool;
      structs := map[];
      offsets := map[];
      functionVarOffsets := 0;
      uidGen := 0;
      out := [];
    }

    // ------------------------------------------------------------ helpers

    method Uid() returns (id: nat)
      modifies this
      ensures Snapshot() == CodeGen.Uid(old(Snapshot())) && id == uidGen
    {
      uidGen := uidGen + 1;
      id := uidGen;
    }

    method GetRegister() returns (ok: bool, r: Register)
      modifies this
      ensures (if ok then Done(Snapshot(), r) else Abort) == CodeGen.GetRegister(old(Snapshot()))
    {
      if freeRegs == [] {
        return false, SP;
      }
      r := freeRegs[|freeRegs| - 1];
      freeRegs := freeRegs[..|freeRegs| - 1];
      ok := true;
    }

    method FreeRegister(reg: Operand) returns (ok: bool)
      modifies this
      ensures After(ok) == CodeGen.FreeRegister(old(Snapshot()), reg)
    {
      if reg.None? {
        return false;
      }
      freeRegs := freeRegs + [reg.value];
      ok := true;
    }

    /** `writeLine` of each instruction in turn. */
    method Write(code: seq<Instr>)
      modifies this
      ensures Snapshot() == Emit(old(Snapshot()), code)
    {
      out := out + code;
    }

    /** The `offset` field of `vd`. */
    function OffsetOf(vd: VarDecl): int32
      reads this
    {
      if vd in offsets then offsets[vd] else -1
    }

    // --------------------------------------------------------------- sizes

    /** `getSizeOf(type)`, with the number of struct lookups it may still make. */
    method SizeOfWith(t: Type, fuel: nat) returns (size: Option<int32>)
      ensures size == SizeOf(t, structs, fuel)
      decreases fuel, t
    {
      match t
      case Base(INT) => size := Some(4);
      case Base(CHAR) => size := Some(1);
      case Base(VOID) => size := Some(0);
      case PointerType(_, _) => size := Some(4);
      case ArrayType(_, elem, n) =>
        var s := SizeOfWith(elem, fuel);
        size := if s.None? then None else Some(MulInt(n, s.value));
      case StructType(_, name) =>
        if name !in structs || fuel == 0 {
          return None;
        }
        var vs := structs[name].variables;
        var cumulative: int32 := 0;
        var i := 0;
        while i < |vs|
          invariant 0 <= i <= |vs|
          invariant MembersSize(vs[..i], structs, fuel - 1) == Some(cumulative)
        {
          var s := SizeOfWith(vs[i].ty, fuel - 1);
          MembersSizeStep(vs, structs, fuel - 1, i);
          if s.None? {
            MembersSizeCrashSticks(vs, structs, fuel - 1, i + 1);
            return None;
          }
          cumulative := AddInt(cumulative, s.value);
          i := i + 1;
        }
        assert vs[..i] == vs;
        size := Some(cumulative);
    }

    method GetSizeOf(t: Type) returns (size: Option<int32>)
      ensures size == Size(t, Snapshot())
    {
      size := SizeOfWith(t, |structs|);
    }

    // --------------------------------------------------------- expressions

    method LoadImmediate(value: int) returns (ok: bool, reg: Operand)
      modifies this
      ensures Result(ok, reg) == CodeGen.LoadImmediate(old(Snapshot()), value)
    {
      reg := None;
      var r;
      ok, r := GetRegister();
      if !ok {
        return;
      }
      reg := Some(r);
      Write([Li(reg, value)]);
    }

    /** `loadLocalVar(vd)`. */
    method LoadLocalVar(vd: VarDecl) returns (ok: bool, reg: Operand)
      modifies this
      ensures Result(ok, reg) == LoadLocal(old(Snapshot()), vd)
    {
      reg := None;
      var offset := OffsetOf(vd);
      var r;
      ok, r := GetRegister();
      if !ok {
        return;
      }
      reg := Some(r);
      Write([Move(reg, Some(SP)), Lw(reg, SubInt(0, offset), reg)]);
    }

    method VisitExpr(e: Expr) returns (ok: bool, reg: Operand)
      modifies this
      ensures Result(ok, reg) == GenExpr(e, old(Snapshot()))
      decreases e, 3
    {
      match e
      case IntLiteral(i) =>
        ok, reg := LoadImmediate(i);
      case ChrLiteral(c) =>
        ok, reg := LoadImmediate(c as int);
      case VarExpr(_, _, _) =>
        ok, reg := VisitVarExpr(e);
      case FunCallExpr(name, _, _, _) =>
        if name == "print_i" {
          ok, reg := VisitPrint(e);
        } else {
          ok, reg := true, None;
        }
      case SizeOfExpr(t, _) =>
        var size := GetSizeOf(t);
        if size.None? {
          return false, None;
        }
        ok, reg := LoadImmediate(size.value);
      case BinOp(_, _, _, _) =>
        ok, reg := VisitBinOp(e);
      case NoExpr =>
        ok, reg := false, None;
      case _ =>
        ok, reg := true, None;
    }

    method VisitVarExpr(e: Expr) returns (ok: bool, reg: Operand)
      requires e.VarExpr?
      modifies this
      ensures Result(ok, reg) == GenExpr(e, old(Snapshot()))
      decreases e, 2
    {
      if e.vd.None? {
        return false, None;
      }
      reg := None;
      if OffsetOf(e.vd.value) == -1 {
        var r;
        ok, r := GetRegister();
        if !ok {
          return;
        }
        reg := Some(r);
        Write([La(reg, e.name)]);
      } else {
        ok, reg := LoadLocalVar(e.vd.value);
      }
    }

    /** `visitPrint_i`. */
    method VisitPrint(e: Expr) returns (ok: bool, reg: Operand)
      requires e.FunCallExpr?
      modifies this
      ensures Result(ok, reg) == GenPrint(e, old(Snapshot()))
      decreases e, 2
    {
      if e.args == [] {
        return false, None;
      }
      reg := None;
      var printThis;
      ok, printThis := VisitExpr(e.args[0]);
      if !ok {
        return;
      }
      Write([Move(Some(A0), printThis), Li(Some(V0), 1), Syscall]);
      ok := FreeRegister(printThis);
      reg := None;
    }

    method InvertBool(r: Operand)
      modifies this
      ensures Snapshot() == Emit(old(Snapshot()), CodeGen.InvertBool(r))
    {
      Write([Addi(r, r, Num(-1)), Negu(r, r)]);
    }

    method VisitBinOp(e: Expr) returns (ok: bool, reg: Operand)
      requires e.BinOp?
      modifies this
      ensures Result(ok, reg) == GenBinOp(e, old(Snapshot()))
      decreases e, 2
    {
      match e.op
      case AND =>
        ok, reg := VisitShortCircuit(e, "endand_");
      case OR =>
        ok, reg := VisitShortCircuit(e, "endor_");
      case GE =>
        ok, reg := VisitArith(e, LT);
        if ok {
          InvertBool(reg);
        }
      case LE =>
        ok, reg := VisitArith(e, GT);
        if ok {
          InvertBool(reg);
        }
      case NE =>
        ok, reg := VisitArith(e, EQ);
        if ok {
          InvertBool(reg);
        }
      case _ =>
        ok, reg := VisitArith(e, e.op);
    }

    /** `visitAdd`, `visitSub`, `visitMul`, `visitDiv`, `visitMod`, `visitLT`,
        `visitGT` and `visitEqual`, lowering `op` on the operands of `e`. */
    method VisitArith(e: Expr, op: Op) returns (ok: bool, reg: Operand)
      requires e.BinOp? && op in {ADD, SUB, MUL, DIV, MOD, LT, GT, EQ}
      modifies this
      ensures Result(ok, reg) == GenArith(e, old(Snapshot()), op)
      decreases e, 1
    {
      if Folds(op) && e.left.IntLiteral? && e.right.IntLiteral? {
        ok, reg := LoadImmediate(Fold(op, e.left.i, e.right.i));
      } else if HasImmediate(op) && e.left.IntLiteral? && !e.right.IntLiteral? {
        ok, reg := VisitImmediate(e.right, op, e.left.i, true);
      } else if HasImmediate(op) && !e.left.IntLiteral? && e.right.IntLiteral? {
        ok, reg := VisitImmediate(e.left, op, e.right.i, false);
      } else {
        ok, reg := VisitGeneral(e, op);
      }
    }

    method VisitImmediate(x: Expr, op: Op, lit: int32, litLeft: bool) returns (ok: bool, reg: Operand)
      requires HasImmediate(op)
      modifies this
      ensures Result(ok, reg) == GenImmediate(x, old(Snapshot()), op, lit, litLeft)
      decreases x, 4
    {
      ok, reg := VisitExpr(x);
      if !ok {
        return;
      }
      Write(ImmediateCode(op, reg, lit, litLeft));
    }

    method VisitGeneral(e: Expr, op: Op) returns (ok: bool, reg: Operand)
      requires e.BinOp?
      modifies this
      ensures Result(ok, reg) == GenGeneral(e, old(Snapshot()), op)
      decreases e, 0
    {
      reg := None;
      var left, right;
      ok, left := VisitExpr(e.left);
      if !ok {
        return;
      }
      ok, right := VisitExpr(e.right);
      if !ok {
        return;
      }
      Write(GeneralCode(op, left, right));
      ok := FreeRegister(right);
      reg := left;
    }

    /** `visitAnd` (`prefix` is `endand_`) and `visitOr` (`endor_`). */
    method VisitShortCircuit(e: Expr, prefix: string) returns (ok: bool, reg: Operand)
      requires e.BinOp?
      modifies this
      ensures Result(ok, reg) == GenShortCircuit(e, old(Snapshot()), prefix)
      decreases e, 1
    {
      reg := None;
      var left, right;
      ok, left := VisitExpr(e.left);
      if !ok {
        return;
      }
      var id := Uid();
      var endIdent := Numbered(prefix, id);
      Write([Beqz(left, endIdent)]);
      ok, right := VisitExpr(e.right);
      if !ok {
        return;
      }
      Write([Move(left, right)]);
      ok := FreeRegister(right);
      if !ok {
        return;
      }
      Write([Label(endIdent)]);
      reg := left;
    }

    // ---------------------------------------------------------- statements

    method VisitStmt(s: Stmt) returns (ok: bool)
      modifies this
      ensures After(ok) == GenStmt(s, old(Snapshot()))
      decreases s, 1
    {
      match s
      case BlockStmt(b) =>
        ok := VisitBlock(b);
      case While(_, _) =>
        ok := VisitWhile(s);
      case If(_, _, _) =>
        ok := VisitIf(s);
      case Assign(_, _) =>
        ok := VisitAssign(s);
      case Return(_) =>
        ok := true;
      case ExprStmt(x) =>
        var r;
        ok, r := VisitExpr(x);
        if ok && r.Some? {
          ok := FreeRegister(r);
        }
    }

    method VisitWhile(s: Stmt) returns (ok: bool)
      requires s.While?
      modifies this
      ensures After(ok) == GenStmt(s, old(Snapshot()))
      decreases s, 0
    {
      var id := Uid();
      var startLine := Numbered("while_start_", id);
      var endLine := Numbered("while_end_", id);
      Write([Label(startLine)]);
      var check;
      ok, check := VisitExpr(s.expr);
      if !ok {
        return;
      }
      Write([Beqz(check, endLine)]);
      ok := FreeRegister(check);
      if !ok {
        return;
      }
      ok := VisitStmt(s.code);
      if !ok {
        return;
      }
      Write([J(startLine), Label(endLine)]);
    }

    method VisitIf(s: Stmt) returns (ok: bool)
      requires s.If?
      modifies this
      ensures After(ok) == GenStmt(s, old(Snapshot()))
      decreases s, 0
    {
      var id := Uid();
      var negativeLine := Numbered("if_else_", id);
      var endLine := Numbered("if_end_", id);
      var condition;
      ok, condition := VisitExpr(s.expr);
      if !ok {
        return;
      }
      Write([Beqz(condition, negativeLine)]);
      ok := VisitStmt(s.code);
      if !ok {
        return;
      }
      Write([J(endLine), Label(negativeLine)]);
      if s.elseCode.None? {
        // `elseCode.accept(this)` on null
        return false;
      }
      ok := VisitStmt(s.elseCode.value);
      if !ok {
        return;
      }
      Write([Label(endLine)]);
    }

    method VisitAssign(s: Stmt) returns (ok: bool)
      requires s.Assign?
      modifies this
      ensures After(ok) == GenStmt(s, old(Snapshot()))
      decreases s, 0
    {
      var toAssign, assignTo;
      ok, toAssign := VisitExpr(s.right);
      if !ok {
        return;
      }
      ok, assignTo := VisitExpr(s.left);
      if !ok {
        return;
      }
      Write([Move(assignTo, toAssign)]);
      ok := FreeRegister(toAssign);
      if !ok {
        return;
      }
      match s.left {
        case VarExpr(_, Some(vd), _) =>
          var addrRegister;
          ok, addrRegister := GetRegister();
          if !ok {
            return;
          }
          Write([Move(Some(addrRegister), Some(SP)), Sw(assignTo, OffsetOf(vd), Some(addrRegister))]);
          ok := FreeRegister(Some(addrRegister));
        case _ =>
          // an array or field access evaluated to null: the `freeRegister` below
          // throws whatever the Java computes before it
      }
      ok := FreeRegister(assignTo);
    }

    /** `visitBlock`: the declarations, then the statements. */
    method VisitBlock(b: Block) returns (ok: bool)
      modifies this
      ensures After(ok) == GenBlock(b, old(Snapshot()))
      decreases b, 2
    {
      ok := VisitVarDecls(b.vars);
      if !ok {
        return;
      }
      ok := VisitStmts(b.code);
    }

    method VisitStmts(ss: seq<Stmt>) returns (ok: bool)
      modifies this
      ensures After(ok) == GenStmts(ss, old(Snapshot()))
      decreases ss, 2
    {
      ghost var st0 := Snapshot();
      var i := 0;
      while i < |ss|
        invariant 0 <= i <= |ss|
        invariant GenStmts(ss[..i], st0) == Some(Snapshot())
      {
        StmtsStep(ss, st0, i);
        ok := VisitStmt(ss[i]);
        if !ok {
          StmtsCrashSticks(ss, st0, i + 1);
          return;
        }
        i := i + 1;
      }
      assert ss[..i] == ss;
      ok := true;
    }

    // -------------------------------------------------------- declarations

    /** `visitVarDecl` for a local. */
    method VisitVarDecl(vd: VarDecl) returns (ok: bool)
      modifies this
      ensures After(ok) == GenVarDecl(vd, old(Snapshot()))
    {
      offsets := offsets[vd := functionVarOffsets];
      var size := GetSizeOf(vd.ty);
      if size.None? {
        return false;
      }
      var effSize := RoundUp4(size.value);
      functionVarOffsets := AddInt(functionVarOffsets, effSize);
      Write([Addi(Some(SP), Some(SP), Minus(effSize))]);
      ok := true;
    }

    method VisitVarDecls(vs: seq<VarDecl>) returns (ok: bool)
      modifies this
      ensures After(ok) == GenVarDecls(vs, old(Snapshot()))
    {
      ghost var st0 := Snapshot();
      var i := 0;
      while i < |vs|
        invariant 0 <= i <= |vs|
        invariant GenVarDecls(vs[..i], st0) == Some(Snapshot())
      {
        VarDeclsStep(vs, st0, i);
        ok := VisitVarDecl(vs[i]);
        if !ok {
          VarDeclsCrashSticks(vs, st0, i + 1);
          return;
        }
        i := i + 1;
      }
      assert vs[..i] == vs;
      ok := true;
    }

    method VisitFunDecl(f: FunDecl) returns (ok: bool)
      modifies this
      ensures After(ok) == GenFunDecl(f, old(Snapshot()))
    {
      functionVarOffsets := 0;
      Write([Label(FunctionEntry(f.name))]);
      ok := VisitBlock(f.block);
    }

    method VisitFunDecls(fs: seq<FunDecl>) returns (ok: bool)
      modifies this
      ensures After(ok) == GenFunDecls(fs, old(Snapshot()))
    {
      ghost var st0 := Snapshot();
      var i := 0;
      while i < |fs|
        invariant 0 <= i <= |fs|
        invariant GenFunDecls(fs[..i], st0) == Some(Snapshot())
      {
        FunDeclsStep(fs, st0, i);
        ok := VisitFunDecl(fs[i]);
        if !ok {
          FunDeclsCrashSticks(fs, st0, i + 1);
          return;
        }
        i := i + 1;
      }
      assert fs[..i] == fs;
      ok := true;
    }

    method VisitStructTypeDecl(d: StructTypeDecl) returns (ok: bool)
      modifies this
      ensures After(ok) == GenStructDecl(d, old(Snapshot()))
    {
      ghost var st0 := Snapshot();
      var vs := d.variables;
      var offset: int32 := 0;
      var i := 0;
      while i < |vs|
        invariant 0 <= i <= |vs|
        invariant Snapshot() == st0.(offsets := offsets)
        invariant MemberOffsets(vs[..i], st0) == Some((offsets, offset))
      {
        MemberOffsetsStep(vs, st0, i);
        offsets := offsets[vs[i] := offset];
        var size := GetSizeOf(vs[i].ty);
        if size.None? {
          MemberOffsetsCrashSticks(vs, st0, i + 1);
          return false;
        }
        offset := AddInt(offset, size.value);
        i := i + 1;
      }
      assert vs[..i] == vs;
      structs := structs[d.name := d];
      ok := true;
    }

    method VisitStructTypeDecls(ds: seq<StructTypeDecl>) returns (ok: bool)
      modifies this
      ensures After(ok) == GenStructDecls(ds, old(Snapshot()))
    {
      ghost var st0 := Snapshot();
      var i := 0;
      while i < |ds|
        invariant 0 <= i <= |ds|
        invariant GenStructDecls(ds[..i], st0) == Some(Snapshot())
      {
        StructDeclsStep(ds, st0, i);
        ok := VisitStructTypeDecl(ds[i]);
        if !ok {
          StructDeclsCrashSticks(ds, st0, i + 1);
          return;
        }
        i := i + 1;
      }
      assert ds[..i] == ds;
      ok := true;
    }

    method VisitGlobal(v: VarDecl) returns (ok: bool)
      modifies this
      ensures After(ok) == GenGlobal(v, old(Snapshot()))
    {
      var size := GetSizeOf(v.ty);
      if size.None? {
        return false;
      }
      Write([Space(v.varName, size.value)]);
      ok := true;
    }

    method VisitGlobals(vs: seq<VarDecl>) returns (ok: bool)
      modifies this
      ensures After(ok) == GenGlobals(vs, old(Snapshot()))
    {
      ghost var st0 := Snapshot();
      var i := 0;
      while i < |vs|
        invariant 0 <= i <= |vs|
        invariant GenGlobals(vs[..i], st0) == Some(Snapshot())
      {
        GlobalsStep(vs, st0, i);
        ok := VisitGlobal(vs[i]);
        if !ok {
          GlobalsCrashSticks(vs, st0, i + 1);
          return;
        }
        i := i + 1;
      }
      assert vs[..i] == vs;
      ok := true;
    }

    /** The `findFirst` of `visitProgram`: the first function named `main`. */
    static method FindMain(fs: seq<FunDecl>) returns (i: Option<nat>)
      ensures i == MainIndex(fs)
    {
      var k := 0;
      while k < |fs|
        invariant 0 <= k <= |fs|
        invariant forall j :: 0 <= j < k ==> fs[j].name != "main"
      {
        if fs[k].name == "main" {
          return Some(k);
        }
        k := k + 1;
      }
      return None;
    }

    method VisitProgram(p: Program) returns (ok: bool)
      modifies this
      ensures After(ok) == GenProgram(p, old(Snapshot()))
    {
      Write([Directive(".data")]);
      ok := VisitStructTypeDecls(p.structTypeDecls);
      if !ok {
        return;
      }
      ok := VisitGlobals(p.varDecls);
      if !ok {
        return;
      }
      Write([Directive(".text")]);
      var maybeMain := FindMain(p.funDecls);
      if maybeMain.None? {
        return true;
      }
      var i := maybeMain.value;
      ok := VisitFunDecl(p.funDecls[i]);
      if !ok {
        return;
      }
      Write([Li(Some(V0), 10), Syscall]);
      ok := VisitFunDecls(p.funDecls[..i] + p.funDecls[i + 1..]);
    }
  }
}
