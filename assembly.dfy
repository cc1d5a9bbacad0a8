/** The MIPS assembly the code generator writes, one line per instruction
    (`gen/CodeGenerator.java`, `writeLine`).

    A register operand is the register object the generator holds, or Java `null`,
    which string concatenation prints as `null`: several visitors return `null` for
    an expression they do not implement and their callers write it into the next
    instruction regardless.

    For the properties of the lowering, `Run` gives the meaning of straight-line
    code (no branch taken, no memory) on a register file of Java `int`s, and `Go`
    the meaning of code with branches and jumps to its own labels. */
module Assembly {
  import opened Java
  import opened Wrappers

  /** A MIPS register; the temporaries come from the pool the generator is built
      with. */
  datatype Register = Register(name: string)

  const SP: Register := Register("$sp")
  const A0: Register := Register("$a0")
  const V0: Register := Register("$v0")

  /** A register, or the `null` an unimplemented visitor returned. */
  type Operand = Option<Register>

  /** A label: `prefix + uid()` for the labels of control flow, `function_` + name for
      a function's entry. */
  datatype LabelName = Numbered(prefix: string, k: nat) | FunctionEntry(fun: string)

  /** The third operand of `addi`: a number, `-` followed by a number (the text
      `"-" + n`), or a register, which `visitSub` writes where a number belongs. */
  datatype Imm = Num(n: int) | Minus(n: int) | RegisterImm(r: Operand)

  datatype Instr =
    | Directive(directive: string)      // `.data`, `.text`
    | Space(name: string, size: int)    // `name: .space size`
    | Label(at: LabelName)              // `name:`
    | Li(rd: Operand, value: int)
    | La(rd: Operand, symbol: string)
    | Move(rd: Operand, rs: Operand)
    | Lw(rt: Operand, offset: int, base: Operand)
    | Sw(rt: Operand, offset: int, base: Operand)
    | Addi(rd: Operand, rs: Operand, imm: Imm)
    | Add(rd: Operand, rs: Operand, rt: Operand)
    | Negu(rd: Operand, rs: Operand)
    | Mul(rd: Operand, rs: Operand, rt: Operand)
    | Div(rs: Operand, rt: Operand)
    | Mflo(rd: Operand)
    | Mfhi(rd: Operand)
    | Slt(rd: Operand, rs: Operand, rt: Operand)
    | Slti(rd: Operand, rs: Operand, value: int)
    | Seq(rd: Operand, rs: Operand, rt: Operand)
    | Beqz(rs: Operand, target: LabelName)
    | J(target: LabelName)
    | Syscall

  // ------------------------------------------------------ straight-line meaning

  type Registers = map<Register, int32>

  function Read(regs: Registers, r: Register): int32 {
    if r in regs then regs[r] else 0
  }

  function Bool(b: bool): int32 {
    if b then 1 else 0
  }

  /** One arithmetic instruction on known registers, a label, or a `beqz` that does
      not branch; `None` for anything else (a `null` operand, a register where a
      number belongs, a branch taken, a jump, memory, a system call). */
  function Exec(i: Instr, regs: Registers): Option<Registers> {
    match i
    case Li(Some(d), v) => Some(regs[d := Wrap32(v)])
    case Move(Some(d), Some(s)) => Some(regs[d := Read(regs, s)])
    case Addi(Some(d), Some(s), Num(n)) => Some(regs[d := AddInt(Read(regs, s), Wrap32(n))])
    case Addi(Some(d), Some(s), Minus(n)) => Some(regs[d := AddInt(Read(regs, s), Wrap32(-n))])
    case Add(Some(d), Some(s), Some(t)) => Some(regs[d := AddInt(Read(regs, s), Read(regs, t))])
    case Negu(Some(d), Some(s)) => Some(regs[d := SubInt(0, Read(regs, s))])
    case Mul(Some(d), Some(s), Some(t)) => Some(regs[d := MulInt(Read(regs, s), Read(regs, t))])
    case Slt(Some(d), Some(s), Some(t)) => Some(regs[d := Bool(Read(regs, s) < Read(regs, t))])
    case Slti(Some(d), Some(s), v) => Some(regs[d := Bool(Read(regs, s) < Wrap32(v))])
    case Seq(Some(d), Some(s), Some(t)) => Some(regs[d := Bool(Read(regs, s) == Read(regs, t))])
    case Beqz(Some(s), _) => if Read(regs, s) != 0 then Some(regs) else None
    case Label(_) => Some(regs)
    case _ => None
  }

  /** The instructions in order; `None` as soon as one has no straight-line meaning. */
  function Run(code: seq<Instr>, regs: Registers): Option<Registers>
    decreases |code|
  {
    if code == [] then Some(regs)
    else
      var next := Exec(code[0], regs);
      if next.None? then None else Run(code[1..], next.value)
  }

  lemma RunOne(i: Instr, regs: Registers)
    ensures Run([i], regs) == Exec(i, regs)
  {
    assert [i][1..] == [];
  }

  lemma RunCons(i: Instr, rest: seq<Instr>, regs: Registers)
    ensures Run([i] + rest, regs)
         == if Exec(i, regs).None? then None else Run(rest, Exec(i, regs).value)
  {
    assert ([i] + rest)[1..] == rest;
  }

  lemma {:induction false} RunAppend(a: seq<Instr>, b: seq<Instr>, regs: Registers)
    requires Run(a, regs).Some?
    ensures Run(a + b, regs) == Run(b, Run(a, regs).value)
    decreases |a|
  {
    if a != [] {
      assert (a + b)[0] == a[0];
      assert (a + b)[1..] == a[1..] + b;
      RunAppend(a[1..], b, Exec(a[0], regs).value);
    } else {
      assert a + b == b;
    }
  }

  // ------------------------------------------------------- meaning with branches

  /** The position of the first definition of `l` in `code`. */
  function LabelAt(code: seq<Instr>, l: LabelName): (r: Option<nat>)
    ensures r.Some? ==> r.value < |code| && code[r.value] == Label(l)
                        && forall i | 0 <= i < r.value :: code[i] != Label(l)
    ensures r.None? ==> forall i | 0 <= i < |code| :: code[i] != Label(l)
  {
    if code == [] then None
    else if code[0] == Label(l) then Some(0)
    else
      var rest := LabelAt(code[1..], l);
      if rest.None? then None else Some(rest.value + 1)
  }

  /** `code` run from position `pc` for at most `fuel` steps: a `beqz` on zero and a
      `j` go on at their label, anything else as `Exec`; the run ends when it falls
      off the end of `code`. `None` for an instruction without meaning, a label that
      is not there, or a run longer than `fuel`. */
  function Go(code: seq<Instr>, pc: nat, regs: Registers, fuel: nat): Option<Registers>
    decreases fuel
  {
    if pc >= |code| then Some(regs)
    else if fuel == 0 then None
    else
      match code[pc]
      case Beqz(Some(s), l) =>
        if Read(regs, s) != 0 then Go(code, pc + 1, regs, fuel - 1)
        else
          var t := LabelAt(code, l);
          if t.None? then None else Go(code, t.value, regs, fuel - 1)
      case J(l) =>
        var t := LabelAt(code, l);
        if t.None? then None else Go(code, t.value, regs, fuel - 1)
      case _ =>
        var next := Exec(code[pc], regs);
        if next.None? then None else Go(code, pc + 1, next.value, fuel - 1)
  }

  /** Where no branch is taken, `Go` steps through `seg` as `Run` does. */
  lemma {:induction false} GoStraight(code: seq<Instr>, pc: nat, seg: seq<Instr>, regs: Registers, fuel: nat)
    requires pc + |seg| <= |code| && code[pc..pc + |seg|] == seg
    requires Run(seg, regs).Some? && |seg| <= fuel
    ensures Go(code, pc, regs, fuel) == Go(code, pc + |seg|, Run(seg, regs).value, fuel - |seg|)
    decreases |seg|
  {
    if seg != [] {
      var next := Exec(seg[0], regs).value;
      assert code[pc] == seg[0];
      assert code[pc + 1..pc + |seg|] == seg[1..];
      assert Go(code, pc, regs, fuel) == Go(code, pc + 1, next, fuel - 1);
      GoStraight(code, pc + 1, seg[1..], next, fuel - 1);
    }
  }

  /** With branches that are not taken, `Go` from the start is `Run`. */
  lemma GoIsRun(code: seq<Instr>, regs: Registers)
    requires Run(code, regs).Some?
    ensures Go(code, 0, regs, |code|) == Run(code, regs)
  {
    assert code[0..|code|] == code;
    GoStraight(code, 0, code, regs, |code|);
  }
}
