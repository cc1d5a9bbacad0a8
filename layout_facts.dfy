/** What `gen/CodeGenerator.java` computes for the layout of data: type sizes,
    struct member offsets, the offsets of locals, and the order of the sections of
    the program it writes. Stated about the functions of `CodeGen`. */
module LayoutFacts {
  import opened Java
  import opened Wrappers
  import opened Ast
  import opened Assembly
  import opened CodeGen

  // ---------------------------------------------------------------------- sizes

  /** More fuel never changes a size that was found: the fuel only cuts off the
      endless recursion of a cycle. */
  lemma {:induction false} SizeOfMoreFuel(t: Type, structs: map<string, StructTypeDecl>, fuel: nat, more: nat)
    requires fuel <= more && SizeOf(t, structs, fuel).Some?
    ensures SizeOf(t, structs, more) == SizeOf(t, structs, fuel)
    decreases fuel, 0, t
  {
    match t
    case ArrayType(_, elem, _) =>
      SizeOfMoreFuel(elem, structs, fuel, more);
    case StructType(_, name) =>
      MembersSizeMoreFuel(structs[name].variables, structs, fuel - 1, more - 1);
    case _ =>
  }

  lemma {:induction false} MembersSizeMoreFuel(vs: seq<VarDecl>, structs: map<string, StructTypeDecl>,
                                               fuel: nat, more: nat)
    requires fuel <= more && MembersSize(vs, structs, fuel).Some?
    ensures MembersSize(vs, structs, more) == MembersSize(vs, structs, fuel)
    decreases fuel, 1, |vs|
  {
    if vs != [] {
      MembersSizeMoreFuel(vs[..|vs| - 1], structs, fuel, more);
      SizeOfMoreFuel(vs[|vs| - 1].ty, structs, fuel, more);
    }
  }

  /** A struct's size is the sum, in declaration order, of its members' sizes, each
      computed as `getSizeOf` computes it anywhere else. */
  lemma {:induction false} StructSizeIsMemberSum(s: Site, name: string, st: State)
    requires Size(StructType(s, name), st).Some?
    ensures name in st.structs
    ensures Size(StructType(s, name), st) == MembersSize(st.structs[name].variables, st.structs, |st.structs|)
  {
    MembersSizeMoreFuel(st.structs[name].variables, st.structs, |st.structs| - 1, |st.structs|);
  }

  /** A struct with a member of its own type has no size, however much fuel:
      `getSizeOf` recurses without end. */
  lemma {:induction false} SelfContainingStructHasNoSize(s: Site, name: string, structs: map<string, StructTypeDecl>,
                                                         fuel: nat, i: nat, s': Site)
    requires name in structs && i < |structs[name].variables|
    requires structs[name].variables[i].ty == StructType(s', name)
    ensures SizeOf(StructType(s, name), structs, fuel).None?
    decreases fuel
  {
    if fuel > 0 {
      var vs := structs[name].variables;
      SelfContainingStructHasNoSize(s', name, structs, fuel - 1, i, s');
      MembersSizeStep(vs, structs, fuel - 1, i);
      MembersSizeCrashSticks(vs, structs, fuel - 1, i + 1);
    }
  }

  /** `ceil(size / 4.0) * 4` is the least multiple of 4 not below the size, until it
      no longer fits an `int` and the cast saturates. */
  lemma {:induction false} RoundUp4Bounds(size: int32)
    ensures size <= TWO_31 - 4 ==> RoundUp4(size) % 4 == 0 && size <= RoundUp4(size) < size + 4
    ensures size > TWO_31 - 4 ==> RoundUp4(size) == TWO_31 - 1
  {
    var q := (size + 3) / 4;
    assert 4 * q <= size + 3 < 4 * q + 4;
  }

  // ------------------------------------------------------------------- offsets

  /** No declaration object occurs twice. */
  predicate Distinct(vs: seq<VarDecl>) {
    forall i, j | 0 <= i < j < |vs| :: vs[i] != vs[j]
  }

  /** The loop of `visitStructTypeDecl` crashes exactly when some member has no
      size, and its total is the size of the members together. */
  lemma {:induction false} MemberOffsetsTotal(vs: seq<VarDecl>, st: State)
    ensures MemberOffsets(vs, st).Some? <==> MembersSize(vs, st.structs, |st.structs|).Some?
    ensures MemberOffsets(vs, st).Some? ==>
              MemberOffsets(vs, st).value.1 == MembersSize(vs, st.structs, |st.structs|).value
  {
    if vs != [] {
      var n := |vs|;
      var init := vs[..n - 1];
      var fuel := |st.structs|;
      MemberOffsetsTotal(init, st);
      var size := Size(vs[n - 1].ty, st);
      assert MembersSize(vs, st.structs, fuel)
          == if MembersSize(init, st.structs, fuel).None? || size.None? then None
             else Some(AddInt(MembersSize(init, st.structs, fuel).value, size.value));
    }
  }

  /** One member's offset is the sum of the sizes of the members before it. */
  lemma {:induction false} MemberOffsetIsPrefixSum(vs: seq<VarDecl>, st: State, i: nat)
    requires Distinct(vs) && i < |vs| && MemberOffsets(vs, st).Some?
    ensures MembersSize(vs[..i], st.structs, |st.structs|).Some?
    ensures vs[i] in MemberOffsets(vs, st).value.0
    ensures MemberOffsets(vs, st).value.0[vs[i]] == MembersSize(vs[..i], st.structs, |st.structs|).value
    decreases |vs|
  {
    var n := |vs|;
    var init := vs[..n - 1];
    var last := vs[n - 1];
    var before := MemberOffsets(init, st);
    assert before.Some?;
    assert MemberOffsets(vs, st).value.0 == before.value.0[last := before.value.1];
    if i == n - 1 {
      MemberOffsetsTotal(init, st);
      assert vs[..i] == init;
    } else {
      assert Distinct(init);
      MemberOffsetIsPrefixSum(init, st, i);
      assert vs[..i] == init[..i];
      assert vs[i] == init[i] && init[i] != last;
    }
  }

  /** The loop writes the offsets of the members and of nothing else. */
  lemma {:induction false} MemberOffsetsKeepOthers(vs: seq<VarDecl>, st: State, v: VarDecl)
    requires MemberOffsets(vs, st).Some? && v in st.offsets && v !in vs
    ensures v in MemberOffsets(vs, st).value.0 && MemberOffsets(vs, st).value.0[v] == st.offsets[v]
  {
    if vs != [] {
      var init := vs[..|vs| - 1];
      assert MemberOffsets(init, st).Some?;
      assert v !in init by {
        forall k | 0 <= k < |init| ensures init[k] != v {
          assert init[k] == vs[k];
        }
      }
      MemberOffsetsKeepOthers(init, st, v);
    }
  }

  /** `visitStructTypeDecl` gives each member the sum of the sizes of the members
      before it as its offset, and leaves the offsets of other declarations alone. */
  lemma {:induction false} MemberOffsetsArePrefixSums(vs: seq<VarDecl>, st: State)
    requires Distinct(vs) && MemberOffsets(vs, st).Some?
    ensures var m := MemberOffsets(vs, st).value.0;
            forall i | 0 <= i < |vs| ::
              MembersSize(vs[..i], st.structs, |st.structs|).Some?
              && vs[i] in m && m[vs[i]] == MembersSize(vs[..i], st.structs, |st.structs|).value
    ensures var m := MemberOffsets(vs, st).value.0;
            forall v | v in st.offsets && v !in vs :: v in m && m[v] == st.offsets[v]
  {
    forall i | 0 <= i < |vs|
      ensures MembersSize(vs[..i], st.structs, |st.structs|).Some?
      ensures vs[i] in MemberOffsets(vs, st).value.0
      ensures MemberOffsets(vs, st).value.0[vs[i]] == MembersSize(vs[..i], st.structs, |st.structs|).value
    {
      MemberOffsetIsPrefixSum(vs, st, i);
    }
    forall v | v in st.offsets && v !in vs
      ensures v in MemberOffsets(vs, st).value.0 && MemberOffsets(vs, st).value.0[v] == st.offsets[v]
    {
      MemberOffsetsKeepOthers(vs, st, v);
    }
  }

  /** The locals before a declaration that was reached were declared too. */
  lemma {:induction false} VarDeclsPrefix(vs: seq<VarDecl>, st: State, i: nat)
    requires i <= |vs| && GenVarDecls(vs, st).Some?
    ensures GenVarDecls(vs[..i], st).Some?
  {
    if GenVarDecls(vs[..i], st).None? {
      VarDeclsCrashSticks(vs, st, i);
    }
  }

  /** One local's offset is the frame size reached by the locals before it. */
  lemma {:induction false} LocalOffsetIsFrameBefore(vs: seq<VarDecl>, st: State, i: nat)
    requires Distinct(vs) && i < |vs| && GenVarDecls(vs, st).Some?
    ensures GenVarDecls(vs[..i], st).Some?
    ensures vs[i] in GenVarDecls(vs, st).value.offsets
    ensures GenVarDecls(vs, st).value.offsets[vs[i]] == GenVarDecls(vs[..i], st).value.functionVarOffsets
    decreases |vs|
  {
    var n := |vs|;
    var init := vs[..n - 1];
    var last := vs[n - 1];
    var mid := GenVarDecls(init, st);
    assert mid.Some?;
    assert GenVarDecls(vs, st) == GenVarDecl(last, mid.value);
    assert GenVarDecls(vs, st).value.offsets == mid.value.offsets[last := mid.value.functionVarOffsets];
    if i == n - 1 {
      assert vs[..i] == init;
    } else {
      assert Distinct(init);
      LocalOffsetIsFrameBefore(init, st, i);
      assert vs[..i] == init[..i];
      assert vs[i] == init[i] && init[i] != last;
    }
  }

  /** One more local grows the frame by its size rounded up to a multiple of 4. */
  lemma {:induction false} FrameGrowsByRoundUp4(vs: seq<VarDecl>, st: State, i: nat)
    requires i < |vs| && GenVarDecls(vs[..i + 1], st).Some?
    ensures GenVarDecls(vs[..i], st).Some? && Size(vs[i].ty, st).Some?
    ensures GenVarDecls(vs[..i + 1], st).value.functionVarOffsets
         == AddInt(GenVarDecls(vs[..i], st).value.functionVarOffsets, RoundUp4(Size(vs[i].ty, st).value))
  {
    VarDeclsStep(vs, st, i);
    var mid := GenVarDecls(vs[..i], st);
    assert mid.Some?;
    assert Size(vs[i].ty, mid.value) == Size(vs[i].ty, st);
  }

  /** `visitVarDecl` over consecutive locals: the first gets the frame size so far,
      each next one the previous offset plus the previous size rounded up to a
      multiple of 4, and the frame size ends that far past the last one. */
  lemma {:induction false} LocalsSpacedByRoundUp4(vs: seq<VarDecl>, st: State)
    requires Distinct(vs) && GenVarDecls(vs, st).Some?
    ensures forall i | 0 <= i < |vs| :: Size(vs[i].ty, st).Some? && vs[i] in GenVarDecls(vs, st).value.offsets
    ensures var st' := GenVarDecls(vs, st).value;
            vs != [] ==> st'.offsets[vs[0]] == st.functionVarOffsets
    ensures var st' := GenVarDecls(vs, st).value;
            forall i | 0 <= i < |vs| - 1 ::
              st'.offsets[vs[i + 1]] == AddInt(st'.offsets[vs[i]], RoundUp4(Size(vs[i].ty, st).value))
    ensures var st' := GenVarDecls(vs, st).value;
            vs != [] ==>
              st'.functionVarOffsets
              == AddInt(st'.offsets[vs[|vs| - 1]], RoundUp4(Size(vs[|vs| - 1].ty, st).value))
  {
    forall i | 0 <= i < |vs|
      ensures Size(vs[i].ty, st).Some? && vs[i] in GenVarDecls(vs, st).value.offsets
    {
      LocalOffsetIsFrameBefore(vs, st, i);
      VarDeclsPrefix(vs, st, i + 1);
      FrameGrowsByRoundUp4(vs, st, i);
    }
    forall i | 0 <= i < |vs| - 1
      ensures var st' := GenVarDecls(vs, st).value;
              st'.offsets[vs[i + 1]] == AddInt(st'.offsets[vs[i]], RoundUp4(Size(vs[i].ty, st).value))
    {
      LocalsAdjacent(vs, st, i);
    }
    if vs != [] {
      LocalOffsetIsFrameBefore(vs, st, 0);
      assert vs[..0] == [];
      var n := |vs|;
      assert vs[..n] == vs;
      LocalOffsetIsFrameBefore(vs, st, n - 1);
      FrameGrowsByRoundUp4(vs, st, n - 1);
    }
  }

  /** Two consecutive locals lie the first one's rounded size apart. */
  lemma {:induction false} LocalsAdjacent(vs: seq<VarDecl>, st: State, i: nat)
    requires Distinct(vs) && i + 1 < |vs| && GenVarDecls(vs, st).Some?
    ensures Size(vs[i].ty, st).Some?
    ensures var st' := GenVarDecls(vs, st).value;
            vs[i] in st'.offsets && vs[i + 1] in st'.offsets
            && st'.offsets[vs[i + 1]] == AddInt(st'.offsets[vs[i]], RoundUp4(Size(vs[i].ty, st).value))
  {
    LocalOffsetIsFrameBefore(vs, st, i);
    LocalOffsetIsFrameBefore(vs, st, i + 1);
    FrameGrowsByRoundUp4(vs, st, i);
  }

  /** One `addi` per local, and nothing else. */
  lemma {:induction false} VarDeclsOutLength(vs: seq<VarDecl>, st: State)
    requires GenVarDecls(vs, st).Some?
    ensures |GenVarDecls(vs, st).value.out| == |st.out| + |vs|
  {
    if vs != [] {
      var init := vs[..|vs| - 1];
      assert GenVarDecls(init, st).Some?;
      VarDeclsOutLength(init, st);
    }
  }

  /** The instruction a local writes: `addi $sp, $sp, -size`, its size rounded up. */
  lemma {:induction false} LocalMovesStack(vs: seq<VarDecl>, st: State, i: nat)
    requires i < |vs| && GenVarDecls(vs, st).Some?
    ensures Size(vs[i].ty, st).Some? && |st.out| + i < |GenVarDecls(vs, st).value.out|
    ensures GenVarDecls(vs, st).value.out[|st.out| + i]
         == Addi(Some(SP), Some(SP), Minus(RoundUp4(Size(vs[i].ty, st).value)))
    decreases |vs|
  {
    var n := |vs|;
    var init := vs[..n - 1];
    var mid := GenVarDecls(init, st);
    assert mid.Some?;
    assert GenVarDecls(vs, st) == GenVarDecl(vs[n - 1], mid.value);
    VarDeclsOutLength(init, st);
    if i == n - 1 {
      assert Size(vs[i].ty, mid.value) == Size(vs[i].ty, st);
    } else {
      LocalMovesStack(init, st, i);
      assert vs[i] == init[i];
    }
  }

  /** Each local moves the stack pointer down by its size rounded up to 4, with one
      `addi $sp, $sp, -size` per declaration and nothing else. */
  lemma {:induction false} LocalsGrowTheStack(vs: seq<VarDecl>, st: State)
    requires GenVarDecls(vs, st).Some?
    ensures forall i | 0 <= i < |vs| :: Size(vs[i].ty, st).Some?
    ensures var out := GenVarDecls(vs, st).value.out;
            |out| == |st.out| + |vs|
            && forall i | 0 <= i < |vs| ::
                 out[|st.out| + i] == Addi(Some(SP), Some(SP), Minus(RoundUp4(Size(vs[i].ty, st).value)))
  {
    VarDeclsOutLength(vs, st);
    forall i | 0 <= i < |vs|
      ensures Size(vs[i].ty, st).Some?
      ensures GenVarDecls(vs, st).value.out[|st.out| + i]
           == Addi(Some(SP), Some(SP), Minus(RoundUp4(Size(vs[i].ty, st).value)))
    {
      LocalMovesStack(vs, st, i);
    }
  }

  // ------------------------------------------------------------- declarations

  /** The globals crash the pass exactly when one of them has no size; otherwise
      they only append one instruction each. */
  lemma {:induction false} GlobalsShape(vs: seq<VarDecl>, st: State)
    ensures GenGlobals(vs, st).Some? <==> forall i | 0 <= i < |vs| :: Size(vs[i].ty, st).Some?
    ensures GenGlobals(vs, st).Some? ==>
              var st' := GenGlobals(vs, st).value;
              st' == st.(out := st'.out) && |st'.out| == |st.out| + |vs| && st.out <= st'.out
  {
    if vs != [] {
      var n := |vs|;
      var init := vs[..n - 1];
      GlobalsShape(init, st);
      var mid := GenGlobals(init, st);
      assert GenGlobals(vs, st) == if mid.None? then None else GenGlobal(vs[n - 1], mid.value);
      if mid.Some? {
        assert Size(vs[n - 1].ty, mid.value) == Size(vs[n - 1].ty, st);
      }
      assert forall i | 0 <= i < n - 1 :: init[i] == vs[i];
    }
  }

  /** The instruction a global writes: `name: .space size`. */
  lemma {:induction false} GlobalIsSpace(vs: seq<VarDecl>, st: State, i: nat)
    requires i < |vs| && GenGlobals(vs, st).Some?
    ensures Size(vs[i].ty, st).Some? && |st.out| + i < |GenGlobals(vs, st).value.out|
    ensures GenGlobals(vs, st).value.out[|st.out| + i] == Space(vs[i].varName, Size(vs[i].ty, st).value)
    decreases |vs|
  {
    var n := |vs|;
    var init := vs[..n - 1];
    var mid := GenGlobals(init, st);
    assert mid.Some?;
    assert GenGlobals(vs, st) == GenGlobal(vs[n - 1], mid.value);
    GlobalsShape(init, st);
    if i == n - 1 {
      assert Size(vs[i].ty, mid.value) == Size(vs[i].ty, st);
    } else {
      GlobalIsSpace(init, st, i);
      assert vs[i] == init[i];
    }
  }

  /** The globals are written as `name: .space size`, one per declaration and in
      order, and nothing else changes; the pass crashes exactly when some global
      has no size. */
  lemma {:induction false} GlobalsAreSpaces(vs: seq<VarDecl>, st: State)
    ensures GenGlobals(vs, st).Some? <==> forall i | 0 <= i < |vs| :: Size(vs[i].ty, st).Some?
    ensures GenGlobals(vs, st).Some? ==>
              var st' := GenGlobals(vs, st).value;
              st' == st.(out := st'.out) && |st'.out| == |st.out| + |vs| && st.out <= st'.out
              && forall i | 0 <= i < |vs| :: st'.out[|st.out| + i] == Space(vs[i].varName, Size(vs[i].ty, st).value)
  {
    GlobalsShape(vs, st);
    if GenGlobals(vs, st).Some? {
      forall i | 0 <= i < |vs|
        ensures GenGlobals(vs, st).value.out[|st.out| + i] == Space(vs[i].varName, Size(vs[i].ty, st).value)
      {
        GlobalIsSpace(vs, st, i);
      }
    }
  }

  /** Struct declarations write no code and touch neither the pool, the label
      counter nor the frame size. */
  lemma {:induction false} StructDeclsEmitNothing(ds: seq<StructTypeDecl>, st: State)
    requires GenStructDecls(ds, st).Some?
    ensures var st' := GenStructDecls(ds, st).value;
            st'.out == st.out && st'.freeRegs == st.freeRegs && st'.uidGen == st.uidGen
            && st'.functionVarOffsets == st.functionVarOffsets
  {
    if ds != [] {
      var init := ds[..|ds| - 1];
      assert GenStructDecls(init, st).Some?;
      StructDeclsEmitNothing(init, st);
    }
  }

  /** The struct table afterwards: every declared name is registered, under the last
      declaration of that name, and the names known before stay known. */
  lemma {:induction false} StructsRegistered(ds: seq<StructTypeDecl>, st: State, i: nat)
    requires i < |ds| && GenStructDecls(ds, st).Some?
    requires forall j | i < j < |ds| :: ds[j].name != ds[i].name
    ensures ds[i].name in GenStructDecls(ds, st).value.structs
    ensures GenStructDecls(ds, st).value.structs[ds[i].name] == ds[i]
    decreases |ds|
  {
    var n := |ds|;
    var init := ds[..n - 1];
    var mid := GenStructDecls(init, st);
    assert mid.Some?;
    assert GenStructDecls(ds, st) == GenStructDecl(ds[n - 1], mid.value);
    if i < n - 1 {
      assert forall j | i < j < |init| :: init[j] == ds[j];
      StructsRegistered(init, st, i);
      assert init[i] == ds[i];
    }
  }

  // ------------------------------------------------------------------ program

  /** `out` continues `before` with `.data`, one `.space` per global in `vs`, in
      order and under the global's name, and `.text`. */
  ghost predicate DataLayout(out: seq<Instr>, before: seq<Instr>, vs: seq<VarDecl>) {
    var n := |before|;
    |out| >= n + |vs| + 2 && out[..n] == before && out[n] == Directive(".data")
    && (forall j | n < j <= n + |vs| :: out[j].Space? && out[j].name == vs[j - n - 1].varName)
    && out[n + |vs| + 1] == Directive(".text")
  }

  /** Writing more keeps the layout of what was written. */
  lemma {:induction false} DataLayoutExtends(out: seq<Instr>, more: seq<Instr>, before: seq<Instr>, vs: seq<VarDecl>)
    requires DataLayout(out, before, vs) && out <= more
    ensures DataLayout(more, before, vs)
  {
    var n := |before|;
    assert more[..n] == out[..n];
    assert more[n] == out[n] && more[n + |vs| + 1] == out[n + |vs| + 1];
    forall j | n < j <= n + |vs|
      ensures more[j].Space? && more[j].name == vs[j - n - 1].varName
    {
      assert more[j] == out[j];
    }
  }

  /** The globals and `.text` written after `.data`. */
  lemma {:induction false} GlobalsAfterData(st: State, s: State, vs: seq<VarDecl>)
    requires s.out == st.out + [Directive(".data")] && GenGlobals(vs, s).Some?
    ensures var out := GenGlobals(vs, s).value.out + [Directive(".text")];
            |out| == |st.out| + |vs| + 2 && DataLayout(out, st.out, vs)
  {
    var n := |st.out|;
    GlobalsShape(vs, s);
    var gl := GenGlobals(vs, s).value.out;
    var out := gl + [Directive(".text")];
    assert s.out <= gl && |gl| == n + 1 + |vs|;
    assert out[..n] == gl[..n] == s.out[..n] == st.out;
    assert out[n] == gl[n] == s.out[n];
    forall j | n < j <= n + |vs|
      ensures out[j].Space? && out[j].name == vs[j - n - 1].varName
    {
      GlobalIsSpace(vs, s, j - n - 1);
      assert out[j] == gl[j];
    }
  }

  /** Up to the functions: `.data`, one `.space` per global, `.text`, and nothing
      else. */
  lemma {:induction false} DataSectionLayout(p: Program, st: State)
    requires GenDataSection(p, st).Some?
    ensures var out := GenDataSection(p, st).value.out;
            |out| == |st.out| + |p.varDecls| + 2 && DataLayout(out, st.out, p.varDecls)
  {
    var data := Emit(st, [Directive(".data")]);
    var s := GenStructDecls(p.structTypeDecls, data).value;
    StructDeclsEmitNothing(p.structTypeDecls, data);
    GlobalsAfterData(st, s, p.varDecls);
    assert GenDataSection(p, st).value.out == GenGlobals(p.varDecls, s).value.out + [Directive(".text")];
  }

  /** `main`'s entry label, its body, the exit system call and the other functions. */
  lemma {:induction false} MainThenExit(text: State, main: FunDecl, rest: seq<FunDecl>, st': State)
    requires GenFunDecl(main, text).Some?
    requires GenFunDecls(rest, Emit(GenFunDecl(main, text).value, [Li(Some(V0), 10), Syscall])) == Some(st')
    ensures var k := |text.out|;
            text.out <= st'.out && |st'.out| > k && st'.out[k] == Label(FunctionEntry(main.name))
            && exists j | k < j < |st'.out| - 1 :: st'.out[j] == Li(Some(V0), 10) && st'.out[j + 1] == Syscall
  {
    var entry := Emit(text.(functionVarOffsets := 0), [Label(FunctionEntry(main.name))]);
    var m := GenFunDecl(main, text).value;
    assert m == GenBlock(main.block, entry).value;
    var exit := Emit(m, [Li(Some(V0), 10), Syscall]);
    var out := st'.out;
    assert entry.out <= m.out && exit.out <= out;
    var k := |text.out|;
    var j := |m.out|;
    assert out[k] == entry.out[k];
    assert out[j] == exit.out[j] && out[j + 1] == exit.out[j + 1];
  }

  /** The functions come after `.text`: with a `main`, its entry label first and
      the exit system call after its body; without one, nothing at all. */
  lemma {:induction false} TextSectionLayout(fs: seq<FunDecl>, text: State, st': State)
    requires GenTextSection(fs, text) == Some(st')
    ensures text.out <= st'.out
    ensures MainIndex(fs).None? <==> |st'.out| == |text.out|
    ensures var k := |text.out|;
            MainIndex(fs).Some? ==>
              |st'.out| > k && st'.out[k] == Label(FunctionEntry("main"))
              && exists j | k < j < |st'.out| - 1 :: st'.out[j] == Li(Some(V0), 10) && st'.out[j + 1] == Syscall
  {
    var i := MainIndex(fs);
    if i.Some? {
      MainThenExit(text, fs[i.value], fs[..i.value] + fs[i.value + 1..], st');
    }
  }

  /** What `visitProgram` writes first: `.data`, one `.space` per global, `.text`. */
  lemma {:induction false} ProgramLayout(p: Program, st: State, st': State)
    requires GenProgram(p, st) == Some(st')
    ensures DataLayout(st'.out, st.out, p.varDecls)
  {
    var data := GenDataSection(p, st).value;
    TextSectionLayout(p.funDecls, data, st');
    DataSectionLayout(p, st);
    DataLayoutExtends(data.out, st'.out, st.out, p.varDecls);
  }

  /** With a `main`, its entry label comes right after `.text` (and the exit system
      call after its body, as `TextSectionLayout` states); without one, nothing comes
      after `.text`. */
  lemma {:induction false} MainComesFirst(p: Program, st: State, st': State)
    requires GenProgram(p, st) == Some(st')
    ensures MainIndex(p.funDecls).None? <==> |st'.out| == |st.out| + |p.varDecls| + 2
    ensures var k := |st.out| + |p.varDecls| + 2;
            MainIndex(p.funDecls).Some? ==> |st'.out| > k && st'.out[k] == Label(FunctionEntry("main"))
  {
    var data := GenDataSection(p, st).value;
    DataSectionSize(p, st);
    MainAfter(p.funDecls, data, st', |st.out| + |p.varDecls| + 2);
  }

  lemma DataSectionSize(p: Program, st: State)
    requires GenDataSection(p, st).Some?
    ensures |GenDataSection(p, st).value.out| == |st.out| + |p.varDecls| + 2
  {
    DataSectionLayout(p, st);
  }

  lemma {:induction false} MainAfter(fs: seq<FunDecl>, text: State, st': State, k: nat)
    requires GenTextSection(fs, text) == Some(st') && |text.out| == k
    ensures MainIndex(fs).None? <==> |st'.out| == k
    ensures MainIndex(fs).Some? ==> |st'.out| > k && st'.out[k] == Label(FunctionEntry("main"))
  {
    TextSectionLayout(fs, text, st');
  }
}
