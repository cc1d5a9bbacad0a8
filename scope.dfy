/** Symbol tables (`sem/Scope.java`, `sem/VarSymbol.java`, `sem/FunSymbol.java`).

    A scope is a mutable table from names to symbols with a fixed link to the scope
    around it. The chain of tables, outermost first, is the scope's environment
    `Env()`; `Find` is the lookup on such an environment, and `Lookup` is proved to
    be it. */
module Scopes {
  import opened Wrappers
  import opened Ast

  /** A variable's declaration, or the part of a function declaration a call reads. */
  datatype Symbol = VarSymbol(variable: VarDecl) | FunSymbol(fun: FunSig)
  {
    function Name(): string {
      match this
      case VarSymbol(v) => v.varName
      case FunSymbol(f) => f.name
    }
  }

  type Table = map<string, Symbol>

  /** Tables of nested scopes, outermost first. */
  type Env = seq<Table>

  /** The innermost binding of `name`: the last table that binds it. */
  function Find(env: Env, name: string): (r: Option<Symbol>)
    decreases |env|
  {
    if env == [] then None
    else if name in env[|env| - 1] then Some(env[|env| - 1][name])
    else Find(env[..|env| - 1], name)
  }

  /** A name is found exactly when some table of the environment binds it. */
  lemma {:induction false} FoundIffBound(env: Env, name: string)
    ensures Find(env, name).Some? <==> exists i :: 0 <= i < |env| && name in env[i]
    decreases |env|
  {
    if env != [] && name !in env[|env| - 1] {
      var init := env[..|env| - 1];
      FoundIffBound(init, name);
      assert forall i :: 0 <= i < |init| ==> init[i] == env[i];
    }
  }

  /** Adding `sym` to the innermost table: the new environment, and whether the name
      was already bound in that table. */
  function Bind(env: Env, sym: Symbol): (r: (Env, bool))
    requires env != []
    ensures |r.0| == |env| && r.0[..|env| - 1] == env[..|env| - 1]
    ensures r.0[|env| - 1] == env[|env| - 1][sym.Name() := sym]
    ensures r.1 <==> sym.Name() in env[|env| - 1]
  {
    var last := env[|env| - 1];
    (env[..|env| - 1] + [last[sym.Name() := sym]], sym.Name() in last)
  }

  /** An inner binding hides every outer one. */
  lemma {:induction false} FindInnermost(env: Env, name: string, i: nat)
    requires i < |env| && name in env[i]
    requires forall j :: i < j < |env| ==> name !in env[j]
    ensures Find(env, name) == Some(env[i][name])
    decreases |env|
  {
    if i < |env| - 1 {
      FindInnermost(env[..|env| - 1], name, i);
    }
  }

  /** A name the innermost table does not bind is looked up in the scopes around it. */
  lemma FindOuter(outer: Env, t: Table, name: string)
    requires name !in t
    ensures Find(outer + [t], name) == Find(outer, name)
  {
    assert (outer + [t])[..|outer|] == outer;
  }

  /** After a bind, the name finds the new symbol, and every other name finds what it
      found before. */
  lemma {:induction false} FindAfterBind(env: Env, sym: Symbol, name: string)
    requires env != []
    ensures Find(Bind(env, sym).0, name)
         == if name == sym.Name() then Some(sym) else Find(env, name)
  {
    var env' := Bind(env, sym).0;
    if name != sym.Name() && name !in env[|env| - 1] {
      assert env'[..|env'| - 1] == env[..|env| - 1];
    }
  }

  class Scope {
    const outer: Scope?
    var symbolTable: Table
    /** The number of scopes around this one; it keeps the chain finite. */
    ghost const depth: nat
    /** Every scope around this one. */
    ghost const ancestors: set<Scope>

    ghost predicate Valid()
      decreases depth
    {
      if outer == null then ancestors == {}
      else outer.depth < depth && ancestors == {outer} + outer.ancestors && outer.Valid()
    }

    /** This scope and every scope around it. */
    ghost function Chain(): (c: set<Scope>)
      requires Valid()
      ensures this in c
      ensures forall s <- c :: s.depth <= depth
      decreases depth
    {
      if outer == null then {this} else {this} + outer.Chain()
    }

    lemma {:induction false} ChainIsAncestors()
      requires Valid()
      ensures Chain() == {this} + ancestors
      decreases depth
    {
      if outer != null {
        outer.ChainIsAncestors();
      }
    }

    /** The tables of the chain, outermost first. */
    ghost function Env(): (e: Env)
      requires Valid()
      reads this, ancestors
      ensures e != [] && e[|e| - 1] == symbolTable
      decreases depth
    {
      ChainIsAncestors();
      if outer == null then [symbolTable] else outer.Env() + [symbolTable]
    }

    /** `new Scope()` and `new Scope(outer)`: an empty table. */
    constructor (outer: Scope?)
      requires outer != null ==> outer.Valid()
      ensures Valid() && this.outer == outer && symbolTable == map[]
      ensures outer == null ==> Env() == [map[]]
      ensures outer != null ==> Env() == outer.Env() + [map[]]
    {
      this.outer := outer;
      depth := if outer == null then 0 else outer.depth + 1;
      ancestors := if outer == null then {} else {outer} + outer.ancestors;
      symbolTable := map[];
    }

    /** `lookupCurrent(name)`: the binding in this scope's own table, or null. */
    function LookupCurrent(name: string): (r: Option<Symbol>)
      reads this
    {
      if name in symbolTable then Some(symbolTable[name]) else None
    }

    /** `lookup(name)`: this table first, then the scopes around it. */
    function Lookup(name: string): (r: Option<Symbol>)
      requires Valid()
      reads this, ancestors
      decreases depth
    {
      if LookupCurrent(name).Some? then LookupCurrent(name)
      else if outer != null then outer.Lookup(name)
      else None
    }

    /** `lookup` is the innermost binding of the environment. */
    lemma {:induction false} LookupIsFind(name: string)
      requires Valid()
      ensures Lookup(name) == Find(Env(), name)
      decreases depth
    {
      if outer != null {
        outer.LookupIsFind(name);
        if name !in symbolTable {
          FindOuter(outer.Env(), symbolTable, name);
        }
      }
    }

    /** A scope made with `new Scope()` that binds nothing finds nothing. */
    lemma EmptyRootFindsNothing(name: string)
      requires Valid() && outer == null && symbolTable == map[]
      ensures Lookup(name) == None
    {
    }

    /** Every scope around this one is a different object. */
    lemma {:induction false} NotAround()
      requires Valid()
      ensures forall s <- ancestors :: s.depth < depth
      ensures this !in ancestors
      decreases depth
    {
      if outer != null {
        outer.NotAround();
      }
    }

    /** `put(sym, visitor)`: reports a duplicate when the name is already bound in this
        very table, and binds it anyway. No scope around this one changes. */
    method Put(sym: Symbol) returns (duplicate: bool)
      requires Valid()
      modifies this
      ensures Valid()
      ensures duplicate <==> sym.Name() in old(symbolTable)
      ensures symbolTable == old(symbolTable)[sym.Name() := sym]
      ensures LookupCurrent(sym.Name()) == Some(sym)
      ensures outer != null ==> outer.Env() == old(outer.Env())
      ensures Env() == Bind(old(Env()), sym).0
    {
      duplicate := LookupCurrent(sym.Name()).Some?;
      symbolTable := symbolTable[sym.Name() := sym];
      if outer != null {
        NotAround();
        assert old(Env()) == old(outer.Env()) + [old(symbolTable)];
      }
    }
  }
}
