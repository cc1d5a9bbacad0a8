/** The string-literal pre-pass of code generation (`gen/StringLiteralVisitor.java`).

    The pass walks the whole program in source order and, for the k-th string
    literal it meets (k = 1, 2, ...), writes a data directive

        string_k: .asciiz "<the literal, escaped>"

    It reads the `type` annotations of the expressions it passes, so an annotation
    the type checker did not write ends the pass with a `NullPointerException`; the
    functions below return `None` for that outcome.

    The specification gives the literals a program holds, in visiting order
    (`ProgramLiterals`), and the text written for them (`Entries`); the class
    `StringLiteralVisitor` runs the visitor on its counter and writer and is proved
    to write exactly that text. */
module StringLiterals {
  import opened Java
  import opened Wrappers
  import opened Ast
  import TypeChecking

  // ------------------------------------------------------------------ escaping

  const Backspace: char := 8 as char
  const FormFeed: char := 12 as char

  /** The text `visitStrLiteral` writes for one character of a literal: newline, tab,
      quote, backspace, carriage return, form feed and NUL as a backslash and a
      letter; every other character, the backslash included, as itself. */
  function Escape(c: char): (r: string)
    ensures |r| == 1 <==> r == [c]
  {
    if c == '\n' then "\\n"
    else if c == '\t' then "\\t"
    else if c == '"' then "\\\""
    else if c == Backspace then "\\b"
    else if c == '\r' then "\\r"
    else if c == FormFeed then "\\f"
    else if c == '\0' then "\\0"
    else [c]
  }

  /** The loop of `visitStrLiteral` over the characters of the literal. */
  function EscapeString(s: string): string {
    if s == [] then "" else EscapeString(s[..|s| - 1]) + Escape(s[|s| - 1])
  }

  /** The letters that follow a backslash in an escape the pass writes, and the
      character each stands for: how an assembler reads the `.asciiz` text back. */
  predicate EscapeLetter(c: char) {
    c in {'n', 't', '"', 'b', 'r', 'f', '0', '\\'}
  }

  function Unescaped(c: char): char
    requires EscapeLetter(c)
  {
    if c == 'n' then '\n'
    else if c == 't' then '\t'
    else if c == '"' then '"'
    else if c == 'b' then Backspace
    else if c == 'r' then '\r'
    else if c == 'f' then FormFeed
    else if c == '0' then '\0'
    else '\\'
  }

  /** Reading `.asciiz` text: a backslash and an escape letter stand for one
      character. */
  function Unescape(s: string): string
    decreases |s|
  {
    if s == [] then ""
    else if s[0] == '\\' && |s| >= 2 && EscapeLetter(s[1]) then [Unescaped(s[1])] + Unescape(s[2..])
    else [s[0]] + Unescape(s[1..])
  }

  // ------------------------------------------------------------------ output

  /** `"string_" + uid()`. */
  function Label(k: nat): string {
    "string_" + NatToString(k)
  }

  /** Everything `visitStrLiteral` writes for the literal numbered k. */
  function Entry(k: nat, lit: string): string {
    Label(k) + ": .asciiz \"" + EscapeString(lit) + "\"\n"
  }

  /** The entries of `lits` when the counter stood at `from` before the first: the
      i-th literal (from 0) is numbered `from + i + 1`. */
  function Entries(from: nat, lits: seq<string>): string {
    Numbered(Entry, from, lits)
  }

  /** `f(from + 1, lits[0]) + f(from + 2, lits[1]) + ...` */
  function Numbered(f: (nat, string) -> string, from: nat, lits: seq<string>): string {
    if lits == [] then "" else Numbered(f, from, lits[..|lits| - 1]) + f(from + |lits|, lits[|lits| - 1])
  }

  // ------------------------------------------------------------ the traversal

  /** Both parts visited in turn; an exception in either ends the pass. */
  function Both(a: Option<seq<string>>, b: Option<seq<string>>): Option<seq<string>> {
    if a.Some? && b.Some? then Some(a.value + b.value) else None
  }

  /** The string literals below an expression in visiting order, or `None` when the
      visit dereferences a null: a missing `type` annotation, the `vd` of an
      unresolved variable, or the null of a syntax error. Types hold no literal. */
  function Literals(e: Expr): Option<seq<string>> {
    match e
    case NoExpr => None
    case IntLiteral(_) => Some([])
    case ChrLiteral(_) => Some([])
    case StrLiteral(s) => Some([s])
    case VarExpr(_, vd, ty) => if ty.None? || vd.None? then None else Some([])
    case FunCallExpr(_, args, _, ty) => if ty.None? then None else ArgLiterals(args)
    case BinOp(l, _, r, _) => Both(Literals(l), Literals(r))
    case ArrayAccessExpr(a, i, ty) => if ty.None? then None else Both(Literals(a), Literals(i))
    case FieldAccessExpr(s, _, ty) => if ty.None? then None else Literals(s)
    case ValueAtExpr(x, ty) => if ty.None? then None else Literals(x)
    case SizeOfExpr(_, ty) => if ty.None? then None else Some([])
    case TypecastExpr(_, x, ty) => if ty.None? then None else Literals(x)
  }

  /** The arguments of a call, and never the callee's body. */
  function ArgLiterals(args: seq<Expr>): Option<seq<string>> {
    if args == [] then Some([]) else Both(ArgLiterals(args[..|args| - 1]), Literals(args[|args| - 1]))
  }

  /** A missing `else` and the missing value of `return;` are skipped. */
  function StmtLiterals(s: Stmt): Option<seq<string>> {
    match s
    case BlockStmt(b) => BlockLiterals(b)
    case While(c, body) => Both(Literals(c), StmtLiterals(body))
    case If(c, t, el) =>
      Both(Both(Literals(c), StmtLiterals(t)), if el.None? then Some([]) else StmtLiterals(el.value))
    case Assign(l, r) => Both(Literals(l), Literals(r))
    case Return(v) => if v.None? then Some([]) else Literals(v.value)
    case ExprStmt(x) => Literals(x)
  }

  function StmtsLiterals(ss: seq<Stmt>): Option<seq<string>> {
    if ss == [] then Some([]) else Both(StmtsLiterals(ss[..|ss| - 1]), StmtLiterals(ss[|ss| - 1]))
  }

  /** A block's declarations hold only types. */
  function BlockLiterals(b: Block): Option<seq<string>> {
    StmtsLiterals(b.code)
  }

  function FunsLiterals(fs: seq<FunDecl>): Option<seq<string>> {
    if fs == [] then Some([]) else Both(FunsLiterals(fs[..|fs| - 1]), BlockLiterals(fs[|fs| - 1].block))
  }

  /** Structs, globals, then functions; only the functions' bodies hold literals. */
  function ProgramLiterals(p: Program): Option<seq<string>> {
    FunsLiterals(p.funDecls)
  }

  // ------------------------------------------------------------------ properties

  /** Each character is written as itself, or as a backslash and a letter that reads
      back as that character. */
  lemma EscapeTable(c: char)
    ensures Escape(c) == [c]
            || (|Escape(c)| == 2 && Escape(c)[0] == '\\' && EscapeLetter(Escape(c)[1])
                && Unescaped(Escape(c)[1]) == c)
    ensures Escape(c) == [c] <==> c !in {'\n', '\t', '"', Backspace, '\r', FormFeed, '\0'}
  {
  }

  /** A backslash is written as a single backslash, not doubled. */
  lemma BackslashNotDoubled()
    ensures Escape('\\') == "\\"
  {
  }

  lemma {:induction false} EscapeStringCons(c: char, s: string)
    ensures EscapeString([c] + s) == Escape(c) + EscapeString(s)
    decreases |s|
  {
    if s == [] {
      assert [c] + s == [c];
      assert [c][..0] == [];
    } else {
      var x, init, last := [c] + s, s[..|s| - 1], s[|s| - 1];
      assert x[..|x| - 1] == [c] + init;
      assert x[|x| - 1] == last;
      calc {
        EscapeString(x);
        EscapeString([c] + init) + Escape(last);
        { EscapeStringCons(c, init); }
        Escape(c) + EscapeString(init) + Escape(last);
        Escape(c) + (EscapeString(init) + Escape(last));
      }
    }
  }

  /** Reading the written text back gives the literal, for every literal without a
      backslash. */
  lemma {:induction false} EscapeRoundTrip(s: string)
    requires '\\' !in s
    ensures Unescape(EscapeString(s)) == s
    decreases |s|
  {
    if s != [] {
      var c, rest := s[0], s[1..];
      assert s == [c] + rest;
      EscapeStringCons(c, rest);
      EscapeRoundTrip(rest);
      var t := EscapeString(rest);
      EscapeTable(c);
      if Escape(c) == [c] {
        assert ([c] + t)[1..] == t;
      } else {
        assert (Escape(c) + t)[2..] == t;
      }
    }
  }

  /** With backslashes, two different literals can be written alike: a backslash
      followed by `n` and a newline both become `\n`. */
  lemma BackslashMakesEscapingAmbiguous()
    ensures EscapeString(['\\', 'n']) == EscapeString(['\n'])
  {
    assert ['\\', 'n'][..1] == ['\\'] && ['\\'][..0] == [] && ['\n'][..0] == [];
  }

  /** Different numbers give different labels. */
  lemma LabelsDistinct(j: nat, k: nat)
    requires j != k
    ensures Label(j) != Label(k)
  {
    if Label(j) == Label(k) {
      var p := "string_";
      assert NatToString(j) == Label(j)[|p|..];
      assert NatToString(k) == Label(k)[|p|..];
      NatToStringInjective(j, k);
    }
  }

  /** Writing two lists of literals one after the other: the second list is numbered
      on from where the first stopped. */
  lemma EntriesAppend(from: nat, a: seq<string>, b: seq<string>)
    ensures Entries(from, a + b) == Entries(from, a) + Entries(from + |a|, b)
  {
    NumberedAppend(Entry, from, a, b);
  }

  lemma {:induction false} NumberedAppend(f: (nat, string) -> string, from: nat, a: seq<string>, b: seq<string>)
    ensures Numbered(f, from, a + b) == Numbered(f, from, a) + Numbered(f, from + |a|, b)
    decreases |b|
  {
    if b == [] {
      assert a + b == a;
    } else {
      var x, init, last := a + b, b[..|b| - 1], b[|b| - 1];
      assert x[..|x| - 1] == a + init;
      assert x[|x| - 1] == last;
      NumberedAppend(f, from, a, init);
    }
  }

  lemma EntriesOne(from: nat, lit: string)
    ensures Entries(from, [lit]) == Entry(from + 1, lit)
  {
    assert [lit][..0] == [];
    assert Numbered(Entry, from, [lit]) == Numbered(Entry, from, []) + Entry(from + 1, lit);
  }

  /** What `visitStrLiteral` writes piece by piece is the entry. */
  lemma EntryText(before: string, k: nat, lit: string, after: string)
    requires after == before + ("string_" + NatToString(k) + ": .asciiz \"") + EscapeString(lit) + "\"\n"
    ensures after == before + Entry(k, lit)
  {
  }

  /** The i-th entry written carries label `string_(from + i + 1)`, so the labels of
      one run are pairwise distinct. */
  lemma {:induction false} EntriesNumbered(from: nat, lits: seq<string>, i: nat)
    requires i < |lits|
    ensures Entries(from, lits)
         == Entries(from, lits[..i]) + Entry(from + i + 1, lits[i]) + Entries(from + i + 1, lits[i + 1..])
  {
    assert lits == lits[..i] + [lits[i]] + lits[i + 1..];
    EntriesAppend(from, lits[..i] + [lits[i]], lits[i + 1..]);
    EntriesAppend(from, lits[..i], [lits[i]]);
    assert [lits[i]][..0] == [];
  }

  /** Calls contribute their arguments' literals only, whichever function they call. */
  lemma CallsSkipCallee(n: string, args: seq<Expr>, f: FunSig, g: FunSig, t: Type)
    ensures Literals(FunCallExpr(n, args, Some(f), Some(t))) == ArgLiterals(args)
    ensures Literals(FunCallExpr(n, args, Some(f), Some(t)))
         == Literals(FunCallExpr(n, args, Some(g), Some(t)))
  {
  }

  /** The pass after the type checker: `visitFieldAccessExpr` never writes the
      annotation of a field access, so the string pass always ends with an exception
      on one. */
  lemma FieldAccessStopsThePass(e: Expr)
    requires e.FieldAccessExpr? && e.ty.None?
    ensures TypeChecking.CheckExpr(e).Typed? ==> Literals(TypeChecking.CheckExpr(e).node) == None
  {
  }

  /** The type checker never visits an array index, so an index that is a variable
      keeps the empty annotation it was parsed with, and the string pass ends with an
      exception on it. */
  lemma VariableIndexStopsThePass(a: Expr, n: string, vd: Option<VarDecl>, ty: Option<Type>)
    ensures var e := ArrayAccessExpr(a, VarExpr(n, vd, None), ty);
            TypeChecking.CheckExpr(e).Typed? ==> Literals(TypeChecking.CheckExpr(e).node) == None
  {
  }

  /** Text written from counter `id0` and writer contents `out0` up to `id1`, `out1`:
      the entries of `lits`, numbered on. */
  ghost predicate Written(id0: nat, out0: string, id1: nat, out1: string, lits: seq<string>) {
    id1 == id0 + |lits| && out1 == out0 + Entries(id0, lits)
  }

  /** Two visits one after the other write the entries of both lists. */
  lemma WrittenThen(id0: nat, out0: string, id1: nat, out1: string, a: seq<string>,
                    id2: nat, out2: string, b: seq<string>)
    requires Written(id0, out0, id1, out1, a) && Written(id1, out1, id2, out2, b)
    ensures Written(id0, out0, id2, out2, a + b)
  {
    NumberedThen(Entry, id0, out0, out1, a, out2, b);
  }

  lemma NumberedThen(f: (nat, string) -> string, from: nat, out0: string, out1: string, a: seq<string>,
                     out2: string, b: seq<string>)
    requires out1 == out0 + Numbered(f, from, a) && out2 == out1 + Numbered(f, from + |a|, b)
    ensures out2 == out0 + Numbered(f, from, a + b)
  {
    NumberedAppend(f, from, a, b);
  }

  lemma ArgsStep(args: seq<Expr>, i: nat)
    requires i < |args|
    ensures ArgLiterals(args[..i + 1]) == Both(ArgLiterals(args[..i]), Literals(args[i]))
  {
    assert args[..i + 1][..i] == args[..i];
  }

  lemma {:induction false} ArgsCrashSticks(args: seq<Expr>, i: nat)
    requires i <= |args| && ArgLiterals(args[..i]).None?
    ensures ArgLiterals(args).None?
    decreases |args| - i
  {
    if i < |args| {
      ArgsStep(args, i);
      ArgsCrashSticks(args, i + 1);
    } else {
      assert args[..i] == args;
    }
  }

  lemma StmtsStep(ss: seq<Stmt>, i: nat)
    requires i < |ss|
    ensures StmtsLiterals(ss[..i + 1]) == Both(StmtsLiterals(ss[..i]), StmtLiterals(ss[i]))
  {
    assert ss[..i + 1][..i] == ss[..i];
  }

  lemma {:induction false} StmtsCrashSticks(ss: seq<Stmt>, i: nat)
    requires i <= |ss| && StmtsLiterals(ss[..i]).None?
    ensures StmtsLiterals(ss).None?
    decreases |ss| - i
  {
    if i < |ss| {
      StmtsStep(ss, i);
      StmtsCrashSticks(ss, i + 1);
    } else {
      assert ss[..i] == ss;
    }
  }

  lemma FunsStep(fs: seq<FunDecl>, i: nat)
    requires i < |fs|
    ensures FunsLiterals(fs[..i + 1]) == Both(FunsLiterals(fs[..i]), BlockLiterals(fs[i].block))
  {
    assert fs[..i + 1][..i] == fs[..i];
  }

  lemma {:induction false} FunsCrashSticks(fs: seq<FunDecl>, i: nat)
    requires i <= |fs| && FunsLiterals(fs[..i]).None?
    ensures FunsLiterals(fs).None?
    decreases |fs| - i
  {
    if i < |fs| {
      FunsStep(fs, i);
      FunsCrashSticks(fs, i + 1);
    } else {
      assert fs[..i] == fs;
    }
  }

  /** The visitor: the counter behind `uid()` and the text written so far. An
      exception ends a visit with `false`; what was written before it is not
      described. */
  class StringLiteralVisitor {
    var id: nat
    var out: string

    constructor ()
      ensures id == 0 && out == ""
    {
      id := 0;
      out := "";
    }

    /** `uid()`: the counter, incremented first. */
    method Uid() returns (k: nat)
      modifies this
      ensures id == old(id) + 1 && k == id && out == old(out)
    {
      id := id + 1;
      k := id;
    }

    /** `visitStrLiteral`: a fresh label, then each character, escaped. */
    method VisitStrLiteral(lit: string)
      modifies this
      ensures Written(old(id), old(out), id, out, [lit])
    {
      var k := Uid();
      var sid := "string_" + NatToString(k);
      ghost var before := out;
      out := out + (sid + ": .asciiz \"");
      WriteEscaped(lit);
      out := out + "\"\n";
      EntryText(before, k, lit, out);
      EntriesOne(old(id), lit);
    }

    /** The character loop of `visitStrLiteral`. */
    method WriteEscaped(lit: string)
      modifies this
      ensures id == old(id) && out == old(out) + EscapeString(lit)
    {
      var i := 0;
      while i < |lit|
        invariant 0 <= i <= |lit|
        invariant id == old(id) && out == old(out) + EscapeString(lit[..i])
      {
        var w := EscapeChar(lit[i]);
        assert lit[..i + 1][..i] == lit[..i];
        out := out + w;
        i := i + 1;
      }
      assert lit[..i] == lit;
    }

    /** The `switch` of `visitStrLiteral` on one character. */
    static method EscapeChar(c: char) returns (w: string)
      ensures w == Escape(c)
    {
      if c == '\n' {
        w := "\\n";
      } else if c == '\t' {
        w := "\\t";
      } else if c == '\\' {
        w := "\\";
      } else if c == '"' {
        w := "\\\"";
      } else if c == Backspace {
        w := "\\b";
      } else if c == '\r' {
        w := "\\r";
      } else if c == FormFeed {
        w := "\\f";
      } else if c == '\0' {
        w := "\\0";
      } else {
        w := [c];
      }
    }

    /** The `accept` of every expression. */
    method VisitExpr(e: Expr) returns (ok: bool)
      modifies this
      ensures ok <==> Literals(e).Some?
      ensures ok ==> Written(old(id), old(out), id, out, Literals(e).value)
      decreases e, 1
    {
      match e
      case NoExpr => ok := false;
      case IntLiteral(_) => ok := true;
      case ChrLiteral(_) => ok := true;
      case StrLiteral(s) =>
        VisitStrLiteral(s);
        ok := true;
      case VarExpr(_, vd, ty) => ok := ty.Some? && vd.Some?;
      case FunCallExpr(_, args, _, ty) =>
        if ty.None? {
          return false;
        }
        ok := VisitArgs(args);
      case BinOp(l, _, r, _) =>
        ok := VisitExpr(l);
        if ok {
          ghost var id1, out1 := id, out;
          ok := VisitExpr(r);
          if ok {
            WrittenThen(old(id), old(out), id1, out1, Literals(l).value, id, out, Literals(r).value);
          }
        }
      case ArrayAccessExpr(a, i, ty) =>
        ok := VisitExpr(a);
        if ok {
          ghost var id1, out1 := id, out;
          ok := VisitExpr(i);
          if ok {
            WrittenThen(old(id), old(out), id1, out1, Literals(a).value, id, out, Literals(i).value);
          }
        }
        ok := ok && ty.Some?;
      case FieldAccessExpr(x, _, ty) =>
        ok := VisitExpr(x);
        ok := ok && ty.Some?;
      case ValueAtExpr(x, ty) =>
        if ty.None? {
          return false;
        }
        ok := VisitExpr(x);
      case SizeOfExpr(_, ty) => ok := ty.Some?;
      case TypecastExpr(_, x, ty) =>
        ok := VisitExpr(x);
        ok := ok && ty.Some?;
    }

    /** The argument loop of `visitFunCallExpr`. */
    method VisitArgs(args: seq<Expr>) returns (ok: bool)
      modifies this
      ensures ok <==> ArgLiterals(args).Some?
      ensures ok ==> Written(old(id), old(out), id, out, ArgLiterals(args).value)
      decreases args, 2
    {
      var i := 0;
      while i < |args|
        invariant 0 <= i <= |args|
        invariant ArgLiterals(args[..i]).Some?
        invariant Written(old(id), old(out), id, out, ArgLiterals(args[..i]).value)
      {
        ghost var id1, out1 := id, out;
        ok := VisitExpr(args[i]);
        ArgsStep(args, i);
        if !ok {
          ArgsCrashSticks(args, i + 1);
          return;
        }
        WrittenThen(old(id), old(out), id1, out1, ArgLiterals(args[..i]).value, id, out, Literals(args[i]).value);
        i := i + 1;
      }
      assert args[..i] == args;
      ok := true;
    }

    /** The `accept` of every statement. */
    method VisitStmt(s: Stmt) returns (ok: bool)
      modifies this
      ensures ok <==> StmtLiterals(s).Some?
      ensures ok ==> Written(old(id), old(out), id, out, StmtLiterals(s).value)
      decreases s, 1
    {
      match s
      case BlockStmt(b) => ok := VisitBlock(b);
      case While(c, body) =>
        ok := VisitExpr(c);
        if ok {
          ghost var id1, out1 := id, out;
          ok := VisitStmt(body);
          if ok {
            WrittenThen(old(id), old(out), id1, out1, Literals(c).value, id, out, StmtLiterals(body).value);
          }
        }
      case If(c, t, el) => ok := VisitIf(s);
      case Assign(l, r) =>
        ok := VisitExpr(l);
        if ok {
          ghost var id1, out1 := id, out;
          ok := VisitExpr(r);
          if ok {
            WrittenThen(old(id), old(out), id1, out1, Literals(l).value, id, out, Literals(r).value);
          }
        }
      case Return(v) =>
        if v.None? {
          ok := true;
        } else {
          ok := VisitExpr(v.value);
        }
      case ExprStmt(x) => ok := VisitExpr(x);
    }

    /** `visitIf`: the condition, the branch, and the `else` branch when there is one. */
    method VisitIf(s: Stmt) returns (ok: bool)
      requires s.If?
      modifies this
      ensures ok <==> StmtLiterals(s).Some?
      ensures ok ==> Written(old(id), old(out), id, out, StmtLiterals(s).value)
      decreases s, 0
    {
      ok := VisitExpr(s.expr);
      if !ok {
        return;
      }
      ghost var id1, out1 := id, out;
      ok := VisitStmt(s.code);
      if !ok {
        return;
      }
      WrittenThen(old(id), old(out), id1, out1, Literals(s.expr).value, id, out, StmtLiterals(s.code).value);
      ghost var first := Both(Literals(s.expr), StmtLiterals(s.code));
      if s.elseCode.Some? {
        ghost var id2, out2 := id, out;
        ok := VisitStmt(s.elseCode.value);
        if ok {
          WrittenThen(old(id), old(out), id2, out2, first.value, id, out, StmtLiterals(s.elseCode.value).value);
        }
      } else {
        assert first.value + [] == first.value;
      }
    }

    /** `visitBlock`: the declarations hold only types; then the statements. */
    method VisitBlock(b: Block) returns (ok: bool)
      modifies this
      ensures ok <==> BlockLiterals(b).Some?
      ensures ok ==> Written(old(id), old(out), id, out, BlockLiterals(b).value)
      decreases b, 2
    {
      var i := 0;
      while i < |b.code|
        invariant 0 <= i <= |b.code|
        invariant StmtsLiterals(b.code[..i]).Some?
        invariant Written(old(id), old(out), id, out, StmtsLiterals(b.code[..i]).value)
      {
        ghost var id1, out1 := id, out;
        ok := VisitStmt(b.code[i]);
        StmtsStep(b.code, i);
        if !ok {
          StmtsCrashSticks(b.code, i + 1);
          return;
        }
        WrittenThen(old(id), old(out), id1, out1, StmtsLiterals(b.code[..i]).value,
                    id, out, StmtLiterals(b.code[i]).value);
        i := i + 1;
      }
      assert b.code[..i] == b.code;
      ok := true;
    }

    /** `visitProgram`: structs and globals hold only types; then every function's
        body. */
    method VisitProgram(p: Program) returns (ok: bool)
      modifies this
      ensures ok <==> ProgramLiterals(p).Some?
      ensures ok ==> Written(old(id), old(out), id, out, ProgramLiterals(p).value)
    {
      var fs := p.funDecls;
      var i := 0;
      while i < |fs|
        invariant 0 <= i <= |fs|
        invariant FunsLiterals(fs[..i]).Some?
        invariant Written(old(id), old(out), id, out, FunsLiterals(fs[..i]).value)
      {
        ghost var id1, out1 := id, out;
        ok := VisitBlock(fs[i].block);
        FunsStep(fs, i);
        if !ok {
          FunsCrashSticks(fs, i + 1);
          return;
        }
        WrittenThen(old(id), old(out), id1, out1, FunsLiterals(fs[..i]).value,
                    id, out, BlockLiterals(fs[i].block).value);
        i := i + 1;
      }
      assert fs[..i] == fs;
      ok := true;
    }
  }
}
