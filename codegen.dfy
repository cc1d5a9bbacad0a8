/** Code generation (`gen/CodeGenerator.java`), specified as functions of the tree
    and of the generator's state.

    The generator is an early snapshot. It keeps a pool of free temporary
    registers, a table of the struct declarations seen so far, each variable's
    offset, a running frame size, a counter for label numbers and the assembly
    written so far; every visit changes some of them. `State` holds them, and each
    `Gen*` function below is what one `visit*` does to it. A visit that throws
    (an empty pool, `freeRegister(null)`, a null dereference, a missing struct,
    the endless recursion of a struct that contains itself) ends the whole pass:
    that is the outcome `Abort`, and what was written before it is not described.

    The class `Generator.CodeGenerator` runs these visits imperatively and is
    proved to compute these functions. */
module CodeGen {
  import opened Java
  import opened Wrappers
  import opened Ast
  import opened Assembly

  /** The fields of the generator.
      - `freeRegs`: the `Stack<Register>` of free temporaries; its top is the LAST
        element, as for `java.util.Stack`.
      - `structs`: the declarations registered by name.
      - `offsets`: the `offset` field of the `VarDecl` objects the generator has
        written; every other declaration still has the initial `-1`.
      - `functionVarOffsets`: the size of the current function's locals so far.
      - `uidGen`: the last label number handed out.
      - `out`: the instructions written, in order. */
  datatype State = State(
    freeRegs: seq<Register>,
    structs: map<string, StructTypeDecl>,
    offsets: map<VarDecl, int32>,
    functionVarOffsets: int32,
    uidGen: nat,
    out: seq<Instr>)

  /** What a visit does: the new state and what it returns, or an uncaught exception. */
  datatype Outcome<T> = Done(st: State, val: T) | Abort

  /** `new CodeGenerator()`: the pool holds every temporary register, in the order
      `Register.tmpRegs` lists them. */
  function Initial(pool: seq<Register>): State {
    State(pool, map[], map[], 0, 0, [])
  }

  // -------------------------------------------------------------- register pool

  /** `getRegister()`: pops the top of the pool; an empty pool throws. */
  function GetRegister(st: State): Outcome<Register> {
    if st.freeRegs == [] then Abort
    else Done(st.(freeRegs := st.freeRegs[..|st.freeRegs| - 1]), st.freeRegs[|st.freeRegs| - 1])
  }

  /** `freeRegister(reg)`: pushes the register; a null one throws. */
  function FreeRegister(st: State, reg: Operand): Option<State> {
    if reg.None? then None else Some(st.(freeRegs := st.freeRegs + [reg.value]))
  }

  /** `writeLine` of each instruction in turn. */
  function Emit(st: State, code: seq<Instr>): State {
    st.(out := st.out + code)
  }

  /** `uid()`: the next label number, which is the new `uidGen`. */
  function Uid(st: State): State {
    st.(uidGen := st.uidGen + 1)
  }

  /** The `offset` field of a declaration: `-1` until the generator writes it. */
  function Offset(st: State, vd: VarDecl): int32 {
    if vd in st.offsets then st.offsets[vd] else -1
  }

  // ---------------------------------------------------------------------- sizes

  /** `getSizeOf(type)` with at most `fuel` struct lookups in the recursion: INT and
      every pointer 4, CHAR 1, an array its length times its element's size (Java
      `int` arithmetic), a struct the sum of its members' sizes, VOID 0. `None` is an
      exception: a struct name with no declaration yet (`structs.get` is null), or
      the fuel running out. */
  function SizeOf(t: Type, structs: map<string, StructTypeDecl>, fuel: nat): Option<int32>
    decreases fuel, 0, t
  {
    match t
    case Base(INT) => Some(4)
    case Base(CHAR) => Some(1)
    case Base(VOID) => Some(0)
    case PointerType(_, _) => Some(4)
    case ArrayType(_, elem, n) =>
      var s := SizeOf(elem, structs, fuel);
      if s.None? then None else Some(MulInt(n, s.value))
    case StructType(_, name) =>
      if name !in structs || fuel == 0 then None
      else MembersSize(structs[name].variables, structs, fuel - 1)
  }

  /** The summing loop of `getSizeOf` for a struct: `cumulative += getSizeOf(v.type)`
      over the members in order. */
  function MembersSize(vs: seq<VarDecl>, structs: map<string, StructTypeDecl>, fuel: nat)
    : Option<int32>
    decreases fuel, 1, |vs|
  {
    if vs == [] then Some(0)
    else
      var init := MembersSize(vs[..|vs| - 1], structs, fuel);
      var last := SizeOf(vs[|vs| - 1].ty, structs, fuel);
      if init.None? || last.None? then None else Some(AddInt(init.value, last.value))
  }

  /** `getSizeOf(type)` in a state. Each lookup on a path through the struct table
      names a different struct unless the path is a cycle, so one lookup per table
      entry is enough; a cycle recurses without end in Java (a `StackOverflowError`)
      and runs out of fuel here. */
  function Size(t: Type, st: State): Option<int32> {
    SizeOf(t, st.structs, |st.structs|)
  }

  /** `(int) (Math.ceil(size / 4.0) * 4)`: the size rounded up to a multiple of 4,
      computed in `double`, so it cannot wrap; the cast saturates at the largest
      `int`. */
  function RoundUp4(size: int32): (r: int32) {
    var up := (size + 3) / 4 * 4;
    if up < TWO_31 then up else TWO_31 - 1
  }

  // ------------------------------------------------------------- expressions

  /** What evaluating an expression does to the state: struct table, offsets and
      frame size are untouched, label numbers only grow, code is only appended,
      and the pool loses exactly the register returned (its top), or nothing when
      the result is null. */
  predicate ExprStep(st: State, st': State, val: Operand) {
    st'.structs == st.structs && st'.offsets == st.offsets
    && st'.functionVarOffsets == st.functionVarOffsets
    && st.uidGen <= st'.uidGen && st.out <= st'.out
    && if val.Some? then st.freeRegs == st'.freeRegs + [val.value] else st'.freeRegs == st.freeRegs
  }

  /** A register holding `value`: `li r, value` (`visitIntLiteral`, `visitChrLiteral`,
      `visitSizeOfExpr` and the folded binary operations). */
  function LoadImmediate(st: State, value: int): (r: Outcome<Operand>)
    ensures r.Done? ==> ExprStep(st, r.st, r.val) && r.val.Some?
  {
    var g := GetRegister(st);
    if g.Abort? then Abort
    else Done(Emit(g.st, [Li(Some(g.val), value)]), Some(g.val))
  }

  /** `loadLocalVar(vd)`: `move r, $sp` and `lw r, -offset(r)`. */
  function LoadLocal(st: State, vd: VarDecl): (r: Outcome<Operand>)
    ensures r.Done? ==> ExprStep(st, r.st, r.val) && r.val.Some?
  {
    var g := GetRegister(st);
    if g.Abort? then Abort
    else
      var reg := Some(g.val);
      Done(Emit(g.st, [Move(reg, Some(SP)), Lw(reg, SubInt(0, Offset(st, vd)), reg)]), reg)
  }

  /** `e.accept(this)` for an expression. The string literal, array and field
      accesses, value-at and typecasts are not implemented and return null without
      visiting their children; so does a call of anything but `print_i`. */
  function GenExpr(e: Expr, st: State): (r: Outcome<Operand>)
    ensures r.Done? ==> ExprStep(st, r.st, r.val)
    decreases e, 3
  {
    match e
    case IntLiteral(i) => LoadImmediate(st, i)
    case ChrLiteral(c) => LoadImmediate(st, c as int)
    case VarExpr(name, vd, _) =>
      if vd.None? then Abort
      else if Offset(st, vd.value) == -1 then
        // a global: its address, by name
        var g := GetRegister(st);
        if g.Abort? then Abort else Done(Emit(g.st, [La(Some(g.val), name)]), Some(g.val))
      else LoadLocal(st, vd.value)
    case FunCallExpr(name, _, _, _) =>
      if name == "print_i" then GenPrint(e, st) else Done(st, None)
    case SizeOfExpr(t, _) =>
      var size := Size(t, st);
      if size.None? then Abort else LoadImmediate(st, size.value)
    case BinOp(_, _, _, _) => GenBinOp(e, st)
    case NoExpr => Abort
    case _ => Done(st, None)
  }

  /** `visitPrint_i`: the first argument into `$a0`, system call 1, and its register
      back to the pool; a call without arguments throws, and so does an argument
      that evaluates to null. */
  function GenPrint(e: Expr, st: State): (r: Outcome<Operand>)
    requires e.FunCallExpr?
    ensures r.Done? ==> ExprStep(st, r.st, r.val) && r.val.None?
    decreases e, 2
  {
    if e.args == [] then Abort
    else
      var a := GenExpr(e.args[0], st);
      if a.Abort? then Abort
      else
        var f := FreeRegister(Emit(a.st, [Move(Some(A0), a.val), Li(Some(V0), 1), Syscall]), a.val);
        if f.None? then Abort else Done(f.value, None)
  }

  /** `invertBool(r)`: `r := -(r - 1)`. */
  function InvertBool(reg: Operand): seq<Instr> {
    [Addi(reg, reg, Num(-1)), Negu(reg, reg)]
  }

  /** The operations `visitAdd`, `visitSub`, `visitMul`, `visitLT` and `visitGT` fold
      when both operands are integer literals. */
  predicate Folds(op: Op) {
    op == ADD || op == SUB || op == MUL || op == LT || op == GT
  }

  /** The operations with a fast path for one integer-literal operand. */
  predicate HasImmediate(op: Op) {
    op == ADD || op == SUB || op == LT || op == GT
  }

  /** The value folded for two literals, in Java `int` arithmetic; a comparison is
      1 or 0. */
  function Fold(op: Op, a: int32, b: int32): int32
    requires Folds(op)
  {
    match op
    case ADD => AddInt(a, b)
    case SUB => SubInt(a, b)
    case MUL => MulInt(a, b)
    case LT => Bool(a < b)
    case GT => Bool(a > b)
  }

  /** The code of a fast path, on the register of the non-literal operand; `litLeft`
      says the literal was the left operand. */
  function ImmediateCode(op: Op, reg: Operand, lit: int32, litLeft: bool): seq<Instr>
    requires HasImmediate(op)
  {
    match op
    case ADD => [Addi(reg, reg, Num(lit))]
    case SUB => if litLeft then [Negu(reg, reg), Addi(reg, reg, Num(lit))] else [Addi(reg, reg, Minus(lit))]
    case LT => if litLeft then [Slti(reg, reg, lit)] + InvertBool(reg) else [Slti(reg, reg, lit)]
    case GT => if litLeft then [Slti(reg, reg, lit)] else [Slti(reg, reg, lit)] + InvertBool(reg)
  }

  /** The code of the general path, with the left register as destination. */
  function GeneralCode(op: Op, l: Operand, r: Operand): seq<Instr> {
    match op
    case ADD => [Add(l, l, r)]
    case SUB => [Addi(l, l, RegisterImm(r))]
    case MUL => [Mul(l, l, r)]
    case DIV => [Div(l, r), Mflo(l)]
    case MOD => [Div(l, r), Mfhi(l)]
    case LT => [Slt(l, l, r)]
    case GT => [Slt(l, r, l)]
    case _ => [Seq(l, l, r)]
  }

  /** `visitBinOp`: AND and OR branch, GE, LE and NE are LT, GT and EQ followed by
      `invertBool` (which writes `null` into its two instructions when the result is
      null, and does not throw). */
  function GenBinOp(e: Expr, st: State): (r: Outcome<Operand>)
    requires e.BinOp?
    ensures r.Done? ==> ExprStep(st, r.st, r.val)
    decreases e, 2
  {
    match e.op
    case AND => GenShortCircuit(e, st, "endand_")
    case OR => GenShortCircuit(e, st, "endor_")
    case GE => Inverted(GenArith(e, st, LT))
    case LE => Inverted(GenArith(e, st, GT))
    case NE => Inverted(GenArith(e, st, EQ))
    case _ => GenArith(e, st, e.op)
  }

  function Inverted(o: Outcome<Operand>): Outcome<Operand> {
    if o.Abort? then Abort else Done(Emit(o.st, InvertBool(o.val)), o.val)
  }

  /** `visitAdd`, `visitSub`, `visitMul`, `visitDiv`, `visitMod`, `visitLT`, `visitGT`
      and `visitEqual` on the operands of `e`, lowering `op`: two literals fold into
      one `li`; one literal takes the immediate form on the other operand's
      register; anything else evaluates both operands. */
  function GenArith(e: Expr, st: State, op: Op): (r: Outcome<Operand>)
    requires e.BinOp? && op in {ADD, SUB, MUL, DIV, MOD, LT, GT, EQ}
    ensures r.Done? ==> ExprStep(st, r.st, r.val)
    decreases e, 1
  {
    if Folds(op) && e.left.IntLiteral? && e.right.IntLiteral? then
      LoadImmediate(st, Fold(op, e.left.i, e.right.i))
    else if HasImmediate(op) && e.left.IntLiteral? && !e.right.IntLiteral? then
      GenImmediate(e.right, st, op, e.left.i, true)
    else if HasImmediate(op) && !e.left.IntLiteral? && e.right.IntLiteral? then
      GenImmediate(e.left, st, op, e.right.i, false)
    else GenGeneral(e, st, op)
  }

  /** A fast path: the non-literal operand `x`, then the immediate form on its
      register, which is the result. */
  function GenImmediate(x: Expr, st: State, op: Op, lit: int32, litLeft: bool): (r: Outcome<Operand>)
    requires HasImmediate(op)
    ensures r.Done? ==> ExprStep(st, r.st, r.val)
    decreases x, 4
  {
    var o := GenExpr(x, st);
    if o.Abort? then Abort else Done(Emit(o.st, ImmediateCode(op, o.val, lit, litLeft)), o.val)
  }

  /** The general path: left, right, the operation into the left register, and the
      right register back to the pool. */
  function GenGeneral(e: Expr, st: State, op: Op): (r: Outcome<Operand>)
    requires e.BinOp?
    ensures r.Done? ==> ExprStep(st, r.st, r.val)
    decreases e, 0
  {
    var l := GenExpr(e.left, st);
    if l.Abort? then Abort
    else
      var rr := GenExpr(e.right, l.st);
      if rr.Abort? then Abort
      else
        var f := FreeRegister(Emit(rr.st, GeneralCode(op, l.val, rr.val)), rr.val);
        if f.None? then Abort else Done(f.value, l.val)
  }

  /** `visitAnd` and `visitOr`, which differ only in the label's prefix: left;
      `beqz left, prefix_k` with a new label number k; right; `move left, right`;
      the right register back to the pool; the label. */
  function GenShortCircuit(e: Expr, st: State, prefix: string): (r: Outcome<Operand>)
    requires e.BinOp?
    ensures r.Done? ==> ExprStep(st, r.st, r.val)
    decreases e, 1
  {
    var l := GenExpr(e.left, st);
    if l.Abort? then Abort
    else
      var st1 := Uid(l.st);
      var end := Numbered(prefix, st1.uidGen);
      var rr := GenExpr(e.right, Emit(st1, [Beqz(l.val, end)]));
      if rr.Abort? then Abort
      else
        var f := FreeRegister(Emit(rr.st, [Move(l.val, rr.val)]), rr.val);
        if f.None? then Abort else Done(Emit(f.value, [Label(end)]), l.val)
  }

  // ------------------------------------------------------------- statements

  /** What a statement does to the state: the struct table is untouched, label
      numbers only grow and code is only appended. */
  predicate StmtStep(st: State, st': State) {
    st'.structs == st.structs && st.uidGen <= st'.uidGen && st.out <= st'.out
  }

  /** `s.accept(this)` for a statement. No statement visitor returns a register, so
      neither does `visitBlock` nor `visitFunDecl`: only the state is kept. */
  function GenStmt(s: Stmt, st: State): (r: Option<State>)
    ensures r.Some? ==> StmtStep(st, r.value)
  {
    match s
    case BlockStmt(b) => GenBlock(b, st)
    case While(c, body) =>
      var st1 := Uid(st);
      var start := Numbered("while_start_", st1.uidGen);
      var end := Numbered("while_end_", st1.uidGen);
      var cond := GenExpr(c, Emit(st1, [Label(start)]));
      if cond.Abort? then None
      else
        var f := FreeRegister(Emit(cond.st, [Beqz(cond.val, end)]), cond.val);
        if f.None? then None
        else
          var b := GenStmt(body, f.value);
          if b.None? then None else Some(Emit(b.value, [J(start), Label(end)]))
    case If(c, t, el) =>
      // the condition's register is never freed, and the else branch is visited
      // even when it is null
      var st1 := Uid(st);
      var neg := Numbered("if_else_", st1.uidGen);
      var end := Numbered("if_end_", st1.uidGen);
      var cond := GenExpr(c, st1);
      if cond.Abort? then None
      else
        var t' := GenStmt(t, Emit(cond.st, [Beqz(cond.val, neg)]));
        if t'.None? || el.None? then None
        else
          var e' := GenStmt(el.value, Emit(t'.value, [J(end), Label(neg)]));
          if e'.None? then None else Some(Emit(e'.value, [Label(end)]))
    case Assign(l, rhs) =>
      var v := GenExpr(rhs, st);
      if v.Abort? then None
      else
        var a := GenExpr(l, v.st);
        if a.Abort? then None
        else
          var f := FreeRegister(Emit(a.st, [Move(a.val, v.val)]), v.val);
          if f.None? then None
          else
            var stored := match l
              case VarExpr(_, Some(vd), _) => Store(f.value, a.val, vd)
              case _ => Some(f.value);
            // an array or field access on the left evaluates to null, so this
            // last `freeRegister` throws whatever came before it
            if stored.None? then None else FreeRegister(stored.value, a.val)
    case Return(_) => Some(st)
    case ExprStmt(x) =>
      var o := GenExpr(x, st);
      if o.Abort? then None
      else if o.val.None? then Some(o.st)
      else FreeRegister(o.st, o.val)
  }

  /** The store of `visitAssign` to a variable: `move addr, $sp` and
      `sw value, offset(addr)` with a register borrowed from the pool. */
  function Store(st: State, value: Operand, vd: VarDecl): (r: Option<State>)
    ensures r.Some? ==> StmtStep(st, r.value) && r.value.freeRegs == st.freeRegs
  {
    var g := GetRegister(st);
    if g.Abort? then None
    else
      var addr := Some(g.val);
      FreeRegister(Emit(g.st, [Move(addr, Some(SP)), Sw(value, Offset(st, vd), addr)]), addr)
  }

  function GenStmts(ss: seq<Stmt>, st: State): (r: Option<State>)
    ensures r.Some? ==> StmtStep(st, r.value)
  {
    if ss == [] then Some(st)
    else
      var init := GenStmts(ss[..|ss| - 1], st);
      if init.None? then None else GenStmt(ss[|ss| - 1], init.value)
  }

  /** `visitBlock`: the local declarations, then the statements. */
  function GenBlock(b: Block, st: State): (r: Option<State>)
    ensures r.Some? ==> StmtStep(st, r.value)
  {
    var decls := GenVarDecls(b.vars, st);
    if decls.None? then None else GenStmts(b.code, decls.value)
  }

  // ------------------------------------------------------------- declarations

  /** `visitVarDecl` for a local: its offset is the frame size so far, which then
      grows by the size rounded up to a multiple of 4, and the stack pointer moves
      down by as much. */
  function GenVarDecl(vd: VarDecl, st: State): (r: Option<State>)
    ensures r.Some? ==> StmtStep(st, r.value) && r.value.freeRegs == st.freeRegs
  {
    var size := Size(vd.ty, st);
    if size.None? then None
    else
      var eff := RoundUp4(size.value);
      Some(Emit(st.(offsets := st.offsets[vd := st.functionVarOffsets],
                    functionVarOffsets := AddInt(st.functionVarOffsets, eff)),
                [Addi(Some(SP), Some(SP), Minus(eff))]))
  }

  function GenVarDecls(vs: seq<VarDecl>, st: State): (r: Option<State>)
    ensures r.Some? ==> StmtStep(st, r.value) && r.value.freeRegs == st.freeRegs
  {
    if vs == [] then Some(st)
    else
      var init := GenVarDecls(vs[..|vs| - 1], st);
      if init.None? then None else GenVarDecl(vs[|vs| - 1], init.value)
  }

  /** `visitFunDecl`: the frame size back to 0, the entry label, the body. The
      parameters are not visited, so they keep offset -1. */
  function GenFunDecl(f: FunDecl, st: State): (r: Option<State>)
    ensures r.Some? ==> StmtStep(st, r.value)
  {
    GenBlock(f.block, Emit(st.(functionVarOffsets := 0), [Label(FunctionEntry(f.name))]))
  }

  function GenFunDecls(fs: seq<FunDecl>, st: State): (r: Option<State>)
    ensures r.Some? ==> StmtStep(st, r.value)
  {
    if fs == [] then Some(st)
    else
      var init := GenFunDecls(fs[..|fs| - 1], st);
      if init.None? then None else GenFunDecl(fs[|fs| - 1], init.value)
  }

  /** The loop of `visitStructTypeDecl`: each member's offset is the sum of the sizes
      of the members before it; the result is the offsets table and that sum over
      all members. */
  function MemberOffsets(vs: seq<VarDecl>, st: State): Option<(map<VarDecl, int32>, int32)> {
    if vs == [] then Some((st.offsets, 0))
    else
      var init := MemberOffsets(vs[..|vs| - 1], st);
      var size := Size(vs[|vs| - 1].ty, st);
      if init.None? || size.None? then None
      else Some((init.value.0[vs[|vs| - 1] := init.value.1], AddInt(init.value.1, size.value)))
  }

  /** `visitStructTypeDecl`: the member offsets, then the declaration registered
      under its name. */
  function GenStructDecl(d: StructTypeDecl, st: State): Option<State> {
    var m := MemberOffsets(d.variables, st);
    if m.None? then None else Some(st.(offsets := m.value.0, structs := st.structs[d.name := d]))
  }

  function GenStructDecls(ds: seq<StructTypeDecl>, st: State): Option<State> {
    if ds == [] then Some(st)
    else
      var init := GenStructDecls(ds[..|ds| - 1], st);
      if init.None? then None else GenStructDecl(ds[|ds| - 1], init.value)
  }

  /** `visitGlobal`: `name: .space size`. */
  function GenGlobal(v: VarDecl, st: State): Option<State> {
    var size := Size(v.ty, st);
    if size.None? then None else Some(Emit(st, [Space(v.varName, size.value)]))
  }

  function GenGlobals(vs: seq<VarDecl>, st: State): Option<State> {
    if vs == [] then Some(st)
    else
      var init := GenGlobals(vs[..|vs| - 1], st);
      if init.None? then None else GenGlobal(vs[|vs| - 1], init.value)
  }

  /** The position of the first function named `main`. */
  function MainIndex(fs: seq<FunDecl>): (r: Option<nat>)
    ensures r.Some? ==> r.value < |fs| && fs[r.value].name == "main"
                        && forall j :: 0 <= j < r.value ==> fs[j].name != "main"
    ensures r.None? ==> forall f <- fs :: f.name != "main"
  {
    if fs == [] then None
    else if fs[0].name == "main" then Some(0)
    else
      var rest := MainIndex(fs[1..]);
      if rest.None? then None else Some(rest.value + 1)
  }

  /** The first half of `visitProgram`: `.data`, the structs, the globals and
      `.text`. */
  function GenDataSection(p: Program, st: State): Option<State> {
    var s := GenStructDecls(p.structTypeDecls, Emit(st, [Directive(".data")]));
    if s.None? then None
    else
      var g := GenGlobals(p.varDecls, s.value);
      if g.None? then None else Some(Emit(g.value, [Directive(".text")]))
  }

  /** The second half of `visitProgram`: `main`, the exit system call and every
      other function in order; nothing when there is no `main`. */
  function GenTextSection(fs: seq<FunDecl>, text: State): Option<State> {
    var i := MainIndex(fs);
    if i.None? then Some(text)
    else
      var m := GenFunDecl(fs[i.value], text);
      if m.None? then None
      else GenFunDecls(fs[..i.value] + fs[i.value + 1..], Emit(m.value, [Li(Some(V0), 10), Syscall]))
  }

  /** `visitProgram`. */
  function GenProgram(p: Program, st: State): Option<State> {
    var text := GenDataSection(p, st);
    if text.None? then None else GenTextSection(p.funDecls, text.value)
  }

  // --------------------------------------------- one more element of a loop

  lemma MembersSizeStep(vs: seq<VarDecl>, structs: map<string, StructTypeDecl>, fuel: nat, i: nat)
    requires i < |vs|
    ensures MembersSize(vs[..i + 1], structs, fuel)
         == var init := MembersSize(vs[..i], structs, fuel);
            var last := SizeOf(vs[i].ty, structs, fuel);
            if init.None? || last.None? then None else Some(AddInt(init.value, last.value))
  {
    assert vs[..i + 1][..i] == vs[..i];
  }

  lemma {:induction false} MembersSizeCrashSticks(vs: seq<VarDecl>, structs: map<string, StructTypeDecl>,
                                                  fuel: nat, i: nat)
    requires i <= |vs| && MembersSize(vs[..i], structs, fuel).None?
    ensures MembersSize(vs, structs, fuel).None?
    decreases |vs| - i
  {
    if i < |vs| {
      MembersSizeStep(vs, structs, fuel, i);
      MembersSizeCrashSticks(vs, structs, fuel, i + 1);
    } else {
      assert vs[..i] == vs;
    }
  }

  lemma StmtsStep(ss: seq<Stmt>, st: State, i: nat)
    requires i < |ss|
    ensures GenStmts(ss[..i + 1], st)
         == var init := GenStmts(ss[..i], st);
            if init.None? then None else GenStmt(ss[i], init.value)
  {
    assert ss[..i + 1][..i] == ss[..i];
  }

  lemma {:induction false} StmtsCrashSticks(ss: seq<Stmt>, st: State, i: nat)
    requires i <= |ss| && GenStmts(ss[..i], st).None?
    ensures GenStmts(ss, st).None?
    decreases |ss| - i
  {
    if i < |ss| {
      StmtsStep(ss, st, i);
      StmtsCrashSticks(ss, st, i + 1);
    } else {
      assert ss[..i] == ss;
    }
  }

  lemma VarDeclsStep(vs: seq<VarDecl>, st: State, i: nat)
    requires i < |vs|
    ensures GenVarDecls(vs[..i + 1], st)
         == var init := GenVarDecls(vs[..i], st);
            if init.None? then None else GenVarDecl(vs[i], init.value)
  {
    assert vs[..i + 1][..i] == vs[..i];
  }

  lemma {:induction false} VarDeclsCrashSticks(vs: seq<VarDecl>, st: State, i: nat)
    requires i <= |vs| && GenVarDecls(vs[..i], st).None?
    ensures GenVarDecls(vs, st).None?
    decreases |vs| - i
  {
    if i < |vs| {
      VarDeclsStep(vs, st, i);
      VarDeclsCrashSticks(vs, st, i + 1);
    } else {
      assert vs[..i] == vs;
    }
  }

  lemma FunDeclsStep(fs: seq<FunDecl>, st: State, i: nat)
    requires i < |fs|
    ensures GenFunDecls(fs[..i + 1], st)
         == var init := GenFunDecls(fs[..i], st);
            if init.None? then None else GenFunDecl(fs[i], init.value)
  {
    assert fs[..i + 1][..i] == fs[..i];
  }

  lemma {:induction false} FunDeclsCrashSticks(fs: seq<FunDecl>, st: State, i: nat)
    requires i <= |fs| && GenFunDecls(fs[..i], st).None?
    ensures GenFunDecls(fs, st).None?
    decreases |fs| - i
  {
    if i < |fs| {
      FunDeclsStep(fs, st, i);
      FunDeclsCrashSticks(fs, st, i + 1);
    } else {
      assert fs[..i] == fs;
    }
  }

  lemma MemberOffsetsStep(vs: seq<VarDecl>, st: State, i: nat)
    requires i < |vs|
    ensures MemberOffsets(vs[..i + 1], st)
         == var init := MemberOffsets(vs[..i], st);
            var size := Size(vs[i].ty, st);
            if init.None? || size.None? then None
            else Some((init.value.0[vs[i] := init.value.1], AddInt(init.value.1, size.value)))
  {
    assert vs[..i + 1][..i] == vs[..i];
  }

  lemma {:induction false} MemberOffsetsCrashSticks(vs: seq<VarDecl>, st: State, i: nat)
    requires i <= |vs| && MemberOffsets(vs[..i], st).None?
    ensures MemberOffsets(vs, st).None?
    decreases |vs| - i
  {
    if i < |vs| {
      MemberOffsetsStep(vs, st, i);
      MemberOffsetsCrashSticks(vs, st, i + 1);
    } else {
      assert vs[..i] == vs;
    }
  }

  lemma StructDeclsStep(ds: seq<StructTypeDecl>, st: State, i: nat)
    requires i < |ds|
    ensures GenStructDecls(ds[..i + 1], st)
         == var init := GenStructDecls(ds[..i], st);
            if init.None? then None else GenStructDecl(ds[i], init.value)
  {
    assert ds[..i + 1][..i] == ds[..i];
  }

  lemma {:induction false} StructDeclsCrashSticks(ds: seq<StructTypeDecl>, st: State, i: nat)
    requires i <= |ds| && GenStructDecls(ds[..i], st).None?
    ensures GenStructDecls(ds, st).None?
    decreases |ds| - i
  {
    if i < |ds| {
      StructDeclsStep(ds, st, i);
      StructDeclsCrashSticks(ds, st, i + 1);
    } else {
      assert ds[..i] == ds;
    }
  }

  lemma GlobalsStep(vs: seq<VarDecl>, st: State, i: nat)
    requires i < |vs|
    ensures GenGlobals(vs[..i + 1], st)
         == var init := GenGlobals(vs[..i], st);
            if init.None? then None else GenGlobal(vs[i], init.value)
  {
    assert vs[..i + 1][..i] == vs[..i];
  }

  lemma {:induction false} GlobalsCrashSticks(vs: seq<VarDecl>, st: State, i: nat)
    requires i <= |vs| && GenGlobals(vs[..i], st).None?
    ensures GenGlobals(vs, st).None?
    decreases |vs| - i
  {
    if i < |vs| {
      GlobalsStep(vs, st, i);
      GlobalsCrashSticks(vs, st, i + 1);
    } else {
      assert vs[..i] == vs;
    }
  }
}
