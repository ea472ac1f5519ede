/** What the operations of the pass do, stated against the pure scope
    operations: the guarded insert, the invokable signature, struct fields,
    method receivers, initialisers and the stages of a package. */
module EntryProperties {
  import opened Base
  import opened Ast
  import opened Symbols
  import opened InitFunctions
  import opened EntrySpec
  import opened EntryValidity
  import PackageNodes

  /** The scope left by entering the named bindings of `vs` one after the
      other, the j-th named one with handle `n + j`. */
  function EnterAll(sc: Scope, vs: seq<VarNode>, n: nat): Scope
  {
    if vs == [] then sc
    else
      var k := |vs| - 1;
      var s := EnterAll(sc, vs[..k], n);
      if vs[k].name == EMPTY then s else Define(s, vs[k].name, n + |Named(vs[..k])|)
  }

  /** The REDECLARED_SYMBOL diagnostics those successive entries report. */
  function RedeclaredAll(sc: Scope, vs: seq<VarNode>, n: nat): seq<Diagnostic>
  {
    if vs == [] then []
    else
      var k := |vs| - 1;
      RedeclaredAll(sc, vs[..k], n)
        + if vs[k].name == EMPTY then [] else Redeclared(EnterAll(sc, vs[..k], n), vs[k].name, vs[k].id)
  }

  /** The variable symbols the named bindings of `vs` get, in order. */
  function VarSymbols(rt: Resolver, vs: seq<VarNode>, env: Env, owner: SymbolId): seq<Symbol>
  {
    if vs == [] then []
    else
      var k := |vs| - 1;
      VarSymbols(rt, vs[..k], env, owner)
        + if vs[k].name == EMPTY then [] else [VarSymbolOf(vs[k], env.pkgID, owner, rt(vs[k].typeNode, env))]
  }

  /** Entering bindings keeps the owner and every existing binding; a name
      becomes bound iff it was already, or it is the name of a binding other than EMPTY. */
  lemma {:induction false} EnterAllBinds(sc: Scope, vs: seq<VarNode>, n: nat, x: Name)
    ensures EnterAll(sc, vs, n).owner == sc.owner
    ensures x in EnterAll(sc, vs, n).entries <==> x in sc.entries || (x != EMPTY && x in NamesOf(vs))
    ensures x in sc.entries ==> EnterAll(sc, vs, n).entries[x] == sc.entries[x]
  {
    if vs != [] {
      var k := |vs| - 1;
      EnterAllBinds(sc, vs[..k], n, x);
      assert NamesOf(vs) == NamesOf(vs[..k]) + [vs[k].name];
    }
  }

  /** The first binding of a fresh name wins: the name is bound to that
      binding's handle, `n` plus the number of named bindings before it. */
  lemma {:induction false} EnterAllFirstWins(sc: Scope, vs: seq<VarNode>, n: nat, j: nat)
    requires j < |vs| && vs[j].name != EMPTY && vs[j].name !in sc.entries
    requires forall i | 0 <= i < j :: vs[i].name != vs[j].name
    ensures vs[j].name in EnterAll(sc, vs, n).entries
    ensures EnterAll(sc, vs, n).entries[vs[j].name] == n + |Named(vs[..j])|
  {
    var k := |vs| - 1;
    if j < k {
      assert vs[..k][..j] == vs[..j];
      EnterAllFirstWins(sc, vs[..k], n, j);
    } else {
      EnterAllBinds(sc, vs[..k], n, vs[j].name);
      forall i | 0 <= i < k
        ensures NamesOf(vs[..k])[i] != vs[j].name
      {
      }
    }
  }

  /** One diagnostic at most per binding, each a REDECLARED_SYMBOL at a
      binding of the list; none when the names are distinct and fresh. */
  lemma {:induction false} RedeclaredAllCount(sc: Scope, vs: seq<VarNode>, n: nat)
    ensures |RedeclaredAll(sc, vs, n)| <= |vs|
    ensures forall d | d in RedeclaredAll(sc, vs, n) :: d.code == RedeclaredSymbol
    ensures (forall i, j | 0 <= i < j < |vs| :: vs[i].name != vs[j].name) && (forall i | 0 <= i < |vs| :: vs[i].name !in sc.entries)
            ==> RedeclaredAll(sc, vs, n) == []
  {
    if vs != [] {
      var k := |vs| - 1;
      RedeclaredAllCount(sc, vs[..k], n);
      EnterAllBinds(sc, vs[..k], n, vs[k].name);
    }
  }

  /** The j-th variable symbol is the one of the j-th named binding. */
  lemma {:induction false} VarSymbolsAt(rt: Resolver, vs: seq<VarNode>, env: Env, owner: SymbolId)
    ensures |VarSymbols(rt, vs, env, owner)| == |Named(vs)|
    ensures forall j | 0 <= j < |Named(vs)| ::
              VarSymbols(rt, vs, env, owner)[j] == VarSymbolOf(Named(vs)[j], env.pkgID, owner, rt(Named(vs)[j].typeNode, env))
  {
    if vs != [] {
      VarSymbolsAt(rt, vs[..|vs| - 1], env, owner);
    }
  }

  /** Visiting bindings in order enters the named ones one after the other
      in the environment's scope, with one diagnostic per name already bound,
      and changes no other scope. */
  lemma {:induction false} VisitVariablesScopes(st: PassState, rt: Resolver, vs: seq<VarNode>, env: Env)
    requires env.scope < |st.scopes|
    ensures var r := VisitVariables(st, rt, vs, env);
            && r.scopes[env.scope] == EnterAll(st.scopes[env.scope], vs, |st.symbols|)
            && (forall i | 0 <= i < |st.scopes| && i != env.scope :: r.scopes[i] == st.scopes[i])
            && r.diagnostics == st.diagnostics + RedeclaredAll(st.scopes[env.scope], vs, |st.symbols|)
  {
    if vs != [] {
      var k := |vs| - 1;
      VisitVariablesScopes(st, rt, vs[..k], env);
      VisitVariableScopes(VisitVariables(st, rt, vs[..k], env), rt, vs[k], env,
                          EnterAll(st.scopes[env.scope], vs[..k], |st.symbols|), |st.symbols| + |Named(vs[..k])|);
    }
  }

  /** visit(variable) on a scope and a next handle already known. */
  lemma VisitVariableScopes(st: PassState, rt: Resolver, v: VarNode, env: Env, sc: Scope, n: nat)
    requires env.scope < |st.scopes| && st.scopes[env.scope] == sc && |st.symbols| == n
    ensures var r := VisitVariable(st, rt, v, env);
            && r.scopes[env.scope] == (if v.name == EMPTY then sc else Define(sc, v.name, n))
            && (forall i | 0 <= i < |st.scopes| && i != env.scope :: r.scopes[i] == st.scopes[i])
            && r.diagnostics == st.diagnostics + (if v.name == EMPTY then [] else Redeclared(sc, v.name, v.id))
  {
  }

  /** The named bindings get consecutive variable symbols, owned by the
      owner of the scope they are entered in. */
  lemma {:induction false} VisitVariablesSymbols(st: PassState, rt: Resolver, vs: seq<VarNode>, env: Env)
    requires env.scope < |st.scopes|
    ensures VisitVariables(st, rt, vs, env).symbols == st.symbols + VarSymbols(rt, vs, env, st.scopes[env.scope].owner)
  {
    if vs != [] {
      var k := |vs| - 1;
      VisitVariablesSymbols(st, rt, vs[..k], env);
      VisitVariablesScopes(st, rt, vs[..k], env);
      EnterAllBinds(st.scopes[env.scope], vs[..k], |st.symbols|, vs[k].name);
    }
  }

  /** Every binding is typed and every named one given its symbol;
      initialisers, package environments and loaded packages are left alone. */
  lemma {:induction false} VisitVariablesNodes(st: PassState, rt: Resolver, vs: seq<VarNode>, env: Env)
    requires env.scope < |st.scopes|
    ensures var r := VisitVariables(st, rt, vs, env);
            && (forall v | v in vs :: v.id in r.nodeType)
            && (forall v | v in vs && v.name != EMPTY :: v.id in r.nodeSymbol)
            && r.initFunctions == st.initFunctions && r.packageEnvs == st.packageEnvs && r.pkgSymbols == st.pkgSymbols
  {
    if vs != [] {
      var k := |vs| - 1;
      var s := VisitVariables(st, rt, vs[..k], env);
      VisitVariablesNodes(st, rt, vs[..k], env);
      VisitVariableNodes(s, rt, vs[k], env);
      assert VisitVariables(st, rt, vs, env) == VisitVariable(s, rt, vs[k], env);
      assert forall v | v in vs :: v in vs[..k] || v == vs[k];
    }
  }

  /** One binding: it is typed, given its symbol when named, and no node
      loses its type or symbol. */
  lemma VisitVariableNodes(st: PassState, rt: Resolver, v: VarNode, env: Env)
    requires env.scope < |st.scopes|
    ensures var r := VisitVariable(st, rt, v, env);
            && v.id in r.nodeType && (forall x | x in st.nodeType :: x in r.nodeType)
            && (v.name != EMPTY ==> v.id in r.nodeSymbol) && (forall x | x in st.nodeSymbol :: x in r.nodeSymbol)
            && r.initFunctions == st.initFunctions && r.packageEnvs == st.packageEnvs && r.pkgSymbols == st.pkgSymbols
  {
  }

  /** The guarded insert: the symbol always gets a fresh, empty scope of its
      own; it is entered in the current scope under its name exactly when the
      name is not bound there, and otherwise that scope is unchanged and one
      REDECLARED_SYMBOL is logged at `pos`. Nothing else changes. */
  lemma DefineSymbolGuarded(st: PassState, pos: NodeId, id: SymbolId, env: Env)
    requires id < |st.symbols| && env.scope < |st.scopes|
    ensures var r := DefineSymbol(st, pos, id, env);
            var name := st.symbols[id].name;
            var sc := st.scopes[env.scope];
            && r.symbols[id] == st.symbols[id].(scope := Some(|st.scopes|))
            && r.scopes[|st.scopes|] == Scope(id, map[])
            && (name !in sc.entries ==> r.scopes[env.scope] == sc.(entries := sc.entries[name := id]) && r.diagnostics == st.diagnostics)
            && (name in sc.entries ==> r.scopes[env.scope] == sc && r.diagnostics == st.diagnostics + [Diagnostic(pos, RedeclaredSymbol, [name])])
            && (forall i | 0 <= i < |st.symbols| && i != id :: r.symbols[i] == st.symbols[i])
            && (forall i | 0 <= i < |st.scopes| && i != env.scope :: r.scopes[i] == st.scopes[i])
            && r.nodeSymbol == st.nodeSymbol && r.nodeType == st.nodeType
  {
  }

  /** A binding named EMPTY is typed but gets no symbol and enters no scope. */
  lemma VisitVariableUnnamed(st: PassState, rt: Resolver, v: VarNode, env: Env)
    requires env.scope < |st.scopes| && v.name == EMPTY
    ensures var r := VisitVariable(st, rt, v, env);
            && r.nodeType[v.id] == rt(v.typeNode, env)
            && r.symbols == st.symbols && r.scopes == st.scopes && r.diagnostics == st.diagnostics
            && r.nodeSymbol == st.nodeSymbol
  {
  }

  /** Every symbol VarSymbols yields is a variable of the given owner,
      public when every binding is. */
  lemma {:induction false} VarSymbolsAreVariables(rt: Resolver, vs: seq<VarNode>, env: Env, owner: SymbolId)
    ensures forall s | s in VarSymbols(rt, vs, env, owner) :: s.kind == VariableSym && s.owner == Some(owner) && s.scope.None?
    ensures (forall j | 0 <= j < |vs| :: Public in vs[j].flags) ==> forall s | s in VarSymbols(rt, vs, env, owner) :: Public in s.flags
  {
    if vs != [] {
      VarSymbolsAreVariables(rt, vs[..|vs| - 1], env, owner);
    }
  }

  /** defineInvokableSymbolParams on symbols: the parameters' and then the
      named return bindings' variable symbols are appended, all owned by the
      invokable, and the invokable records their handles and its type. */
  lemma DefineInvokableSymbolParamsSymbols(st: PassState, rt: Resolver, node: Invokable, id: SymbolId, fnEnv: Env)
    requires id < |st.symbols| && fnEnv.scope < |st.scopes| && st.scopes[fnEnv.scope].owner == id
    requires forall j | 0 <= j < |node.params| :: node.params[j].name != EMPTY
    ensures var r := DefineInvokableSymbolParams(st, rt, node, id, fnEnv);
            var n, np := |st.symbols|, |node.params|;
            var all := st.symbols + VarSymbols(rt, node.params, fnEnv, id) + VarSymbols(rt, node.retParams, fnEnv, id);
            r.symbols == all[id := st.symbols[id].(
                           params := Range(n, np),
                           retParams := Range(n + np, |Named(node.retParams)|),
                           symType := InvokableType(TypesOf(rt, node.params, fnEnv), TypesOf(rt, node.retParams, fnEnv), None))]
  {
    var st2 := VisitVariables(VisitVariables(st, rt, node.params, fnEnv), rt, node.retParams, fnEnv);
    ParamsThenRetsSymbols(st, rt, node.params, node.retParams, fnEnv, id);
    assert st2.symbols[id] == st.symbols[id];
    DefineInvokableSymbolParamsShape(st, rt, node, id, fnEnv);
    CompletedInvokableIs(st, st2, rt, node, id, fnEnv);
  }

  lemma CompletedInvokableIs(st: PassState, st2: PassState, rt: Resolver, node: Invokable, id: SymbolId, fnEnv: Env)
    requires id < |st.symbols| && id < |st2.symbols| && st2.symbols[id] == st.symbols[id]
    ensures CompletedInvokable(st, st2, rt, node, id, fnEnv) == st.symbols[id].(
              params := Range(|st.symbols|, |node.params|),
              retParams := Range(|st.symbols| + |node.params|, |Named(node.retParams)|),
              symType := InvokableType(TypesOf(rt, node.params, fnEnv), TypesOf(rt, node.retParams, fnEnv), None))
  {
  }

  /** Visiting named parameters, then return bindings, in a scope appends
      their variable symbols, all owned by the scope's owner. */
  lemma ParamsThenRetsSymbols(st: PassState, rt: Resolver, ps: seq<VarNode>, rs: seq<VarNode>, fnEnv: Env, owner: SymbolId)
    requires fnEnv.scope < |st.scopes| && st.scopes[fnEnv.scope].owner == owner
    requires forall j | 0 <= j < |ps| :: ps[j].name != EMPTY
    ensures VisitVariables(VisitVariables(st, rt, ps, fnEnv), rt, rs, fnEnv).symbols
              == st.symbols + VarSymbols(rt, ps, fnEnv, owner) + VarSymbols(rt, rs, fnEnv, owner)
  {
    var st1 := VisitVariables(st, rt, ps, fnEnv);
    VisitVariablesSymbols(st, rt, ps, fnEnv);
    VisitVariablesScopes(st, rt, ps, fnEnv);
    EnterAllBinds(st.scopes[fnEnv.scope], ps, |st.symbols|, EMPTY);
    assert st1.scopes[fnEnv.scope].owner == owner;
    VisitVariablesSymbols(st1, rt, rs, fnEnv);
  }

  /** defineInvokableSymbolParams on the invokable's own symbol: it records
      its parameter symbols, its named return symbols and its type. */
  lemma DefineInvokableSymbolParamsRecord(st: PassState, rt: Resolver, node: Invokable, id: SymbolId, fnEnv: Env)
    requires id < |st.symbols| && fnEnv.scope < |st.scopes|
    requires forall j | 0 <= j < |node.params| :: node.params[j].name != EMPTY
    ensures var r := DefineInvokableSymbolParams(st, rt, node, id, fnEnv);
            id < |r.symbols| && r.symbols[id] == st.symbols[id].(
              params := Range(|st.symbols|, |node.params|),
              retParams := Range(|st.symbols| + |node.params|, |Named(node.retParams)|),
              symType := InvokableType(TypesOf(rt, node.params, fnEnv), TypesOf(rt, node.retParams, fnEnv), None))
  {
    var st1 := VisitVariables(st, rt, node.params, fnEnv);
    VisitVariablesSymbols(st, rt, node.params, fnEnv);
    VisitVariablesSymbols(st1, rt, node.retParams, fnEnv);
    assert VisitVariables(st1, rt, node.retParams, fnEnv).symbols[id] == st.symbols[id];
    DefineInvokableSymbolParamsShape(st, rt, node, id, fnEnv);
  }

  /** defineInvokableSymbolParams on scopes: the parameters, then the named
      return bindings, are entered in the invokable's scope; no other scope
      changes; the diagnostics are the two entries' in that order. */
  lemma DefineInvokableSymbolParamsScopes(st: PassState, rt: Resolver, node: Invokable, id: SymbolId, fnEnv: Env)
    requires id < |st.symbols| && fnEnv.scope < |st.scopes|
    requires forall j | 0 <= j < |node.params| :: node.params[j].name != EMPTY
    ensures var r := DefineInvokableSymbolParams(st, rt, node, id, fnEnv);
            var n, np := |st.symbols|, |node.params|;
            var sc := st.scopes[fnEnv.scope];
            && r.scopes[fnEnv.scope] == EnterAll(EnterAll(sc, node.params, n), node.retParams, n + np)
            && (forall i | 0 <= i < |st.scopes| && i != fnEnv.scope :: r.scopes[i] == st.scopes[i])
            && r.diagnostics == st.diagnostics + RedeclaredAll(sc, node.params, n)
                 + RedeclaredAll(EnterAll(sc, node.params, n), node.retParams, n + np)
  {
    EntryValidity.SignatureRecorded(st, rt, node, id, fnEnv);
    ParamsThenRetsScopes(st, rt, node.params, node.retParams, fnEnv, |st.symbols|, |st.symbols| + |node.params|);
  }

  /** Visiting named parameters from handle `n`, then return bindings from
      handle `m`, enters both in order in the scope, with their diagnostics. */
  lemma ParamsThenRetsScopes(st: PassState, rt: Resolver, ps: seq<VarNode>, rs: seq<VarNode>, fnEnv: Env, n: nat, m: nat)
    requires fnEnv.scope < |st.scopes| && n == |st.symbols| && m == n + |ps|
    requires forall j | 0 <= j < |ps| :: ps[j].name != EMPTY
    ensures var r := VisitVariables(VisitVariables(st, rt, ps, fnEnv), rt, rs, fnEnv);
            var sc := st.scopes[fnEnv.scope];
            && r.scopes[fnEnv.scope] == EnterAll(EnterAll(sc, ps, n), rs, m)
            && (forall i | 0 <= i < |st.scopes| && i != fnEnv.scope :: r.scopes[i] == st.scopes[i])
            && r.diagnostics == st.diagnostics + RedeclaredAll(sc, ps, n) + RedeclaredAll(EnterAll(sc, ps, n), rs, m)
  {
    var st1 := VisitVariables(st, rt, ps, fnEnv);
    VisitVariablesScopes(st, rt, ps, fnEnv);
    NamedAll(ps);
    VisitVariablesScopesFrom(st1, rt, rs, fnEnv, EnterAll(st.scopes[fnEnv.scope], ps, n), m);
  }

  /** VisitVariablesScopes for a scope and a next handle already known. */
  lemma VisitVariablesScopesFrom(st: PassState, rt: Resolver, vs: seq<VarNode>, env: Env, sc: Scope, n: nat)
    requires env.scope < |st.scopes| && st.scopes[env.scope] == sc && |st.symbols| == n
    ensures var r := VisitVariables(st, rt, vs, env);
            && r.scopes[env.scope] == EnterAll(sc, vs, n)
            && (forall i | 0 <= i < |st.scopes| && i != env.scope :: r.scopes[i] == st.scopes[i])
            && r.diagnostics == st.diagnostics + RedeclaredAll(sc, vs, n)
  {
    VisitVariablesScopes(st, rt, vs, env);
  }

  /** defineInvokableSymbol is the guarded insert of its symbol followed by
      the definition of its parameters in the symbol's fresh scope. */
  lemma DefineInvokableSymbolSteps(st: PassState, rt: Resolver, node: Invokable, id: SymbolId, env: Env)
    requires id < |st.symbols| && env.scope < |st.scopes|
    requires forall j | 0 <= j < |node.params| :: node.params[j].name != EMPTY
    ensures var st2 := DefineSymbol(st.(nodeSymbol := st.nodeSymbol[node.id := id]), node.id, id, env);
            && |st2.symbols| == |st.symbols| && st2.scopes[|st.scopes|] == Scope(id, map[])
            && DefineInvokableSymbol(st, rt, node, id, env)
               == DefineInvokableSymbolParams(st2, rt, node, id, Env(|st.scopes|, env.pkgID))
  {
  }

  /** The signature an invokable gets: its parameter symbols are the next
      handles, its return symbols follow, one per named return binding; its
      type lists the parameters' types and one type per return binding,
      named or not. */
  lemma DefineInvokableSymbolSignature(st: PassState, rt: Resolver, node: Invokable, id: SymbolId, env: Env)
    requires id < |st.symbols| && env.scope < |st.scopes|
    requires forall j | 0 <= j < |node.params| :: node.params[j].name != EMPTY
    ensures var r := DefineInvokableSymbol(st, rt, node, id, env);
            var n0, np := |st.symbols|, |node.params|;
            var fnEnv := Env(|st.scopes|, env.pkgID);
            var sym := r.symbols[id];
            && SameIdentity(st.symbols[id], sym)
            && sym.scope == Some(|st.scopes|)
            && sym.params == Range(n0, np)
            && sym.retParams == Range(n0 + np, |Named(node.retParams)|)
            && sym.symType == InvokableType(TypesOf(rt, node.params, fnEnv), TypesOf(rt, node.retParams, fnEnv), None)
            && |sym.symType.paramTypes| == np && |sym.symType.retTypes| == |node.retParams|
  {
    var st1 := st.(nodeSymbol := st.nodeSymbol[node.id := id]);
    var st2 := DefineSymbol(st1, node.id, id, env);
    var fnEnv := Env(|st.scopes|, env.pkgID);
    DefineInvokableSymbolSteps(st, rt, node, id, env);
    DefineSymbolGuarded(st1, node.id, id, env);
    DefineInvokableSymbolParamsRecord(st2, rt, node, id, fnEnv);
  }

  /** Reading past the prefix of an appended sequence, one element of the
      prefix being replaced. */
  lemma AppendedAt<X>(syms: seq<X>, pre: seq<X>, a: seq<X>, b: seq<X>, id: nat, x: X)
    requires id < |pre| && syms == (pre + a + b)[id := x]
    ensures forall j | 0 <= j < |a| :: |pre| + j < |syms| && syms[|pre| + j] == a[j]
  {
  }

  /** ... and past the first appended part, whose length is `k`. */
  lemma AppendedPastAt<X>(syms: seq<X>, pre: seq<X>, a: seq<X>, b: seq<X>, id: nat, x: X, k: nat)
    requires id < |pre| && k == |a| && syms == (pre + a + b)[id := x]
    ensures forall j | 0 <= j < |b| :: |pre| + k + j < |syms| && syms[|pre| + k + j] == b[j]
  {
  }

  /** defineInvokableSymbolParams, pointwise: one variable symbol per
      parameter, owned by the invokable and typed in its scope. */
  lemma DefineInvokableSymbolParamsAt(st: PassState, rt: Resolver, node: Invokable, id: SymbolId, fnEnv: Env)
    requires id < |st.symbols| && fnEnv.scope < |st.scopes| && st.scopes[fnEnv.scope].owner == id
    requires forall j | 0 <= j < |node.params| :: node.params[j].name != EMPTY
    ensures var r := DefineInvokableSymbolParams(st, rt, node, id, fnEnv);
            forall j | 0 <= j < |node.params| ::
              r.symbols[|st.symbols| + j] == VarSymbolOf(node.params[j], fnEnv.pkgID, id, rt(node.params[j].typeNode, fnEnv))
  {
    var syms := DefineInvokableSymbolParams(st, rt, node, id, fnEnv).symbols;
    DefineInvokableSymbolParamsSymbols(st, rt, node, id, fnEnv);
    ParamSymbolsAt(st.symbols, syms, rt, node, id, fnEnv, syms[id]);
  }

  lemma ParamSymbolsAt(pre: seq<Symbol>, syms: seq<Symbol>, rt: Resolver, node: Invokable, id: SymbolId, fnEnv: Env, x: Symbol)
    requires id < |pre| && forall j | 0 <= j < |node.params| :: node.params[j].name != EMPTY
    requires syms == (pre + VarSymbols(rt, node.params, fnEnv, id) + VarSymbols(rt, node.retParams, fnEnv, id))[id := x]
    ensures forall j | 0 <= j < |node.params| ::
              |pre| + j < |syms| && syms[|pre| + j] == VarSymbolOf(node.params[j], fnEnv.pkgID, id, rt(node.params[j].typeNode, fnEnv))
  {
    var a, b := VarSymbols(rt, node.params, fnEnv, id), VarSymbols(rt, node.retParams, fnEnv, id);
    NamedAll(node.params);
    VarSymbolsAt(rt, node.params, fnEnv, id);
    AppendedAt(syms, pre, a, b, id, x);
    forall j | 0 <= j < |node.params|
      ensures |pre| + j < |syms| && syms[|pre| + j] == VarSymbolOf(node.params[j], fnEnv.pkgID, id, rt(node.params[j].typeNode, fnEnv))
    {
      assert Named(node.params)[j] == node.params[j];
      assert syms[|pre| + j] == a[j];
    }
  }

  /** ... and then one variable symbol per named return binding. */
  lemma DefineInvokableSymbolRetsAt(st: PassState, rt: Resolver, node: Invokable, id: SymbolId, fnEnv: Env)
    requires id < |st.symbols| && fnEnv.scope < |st.scopes| && st.scopes[fnEnv.scope].owner == id
    requires forall j | 0 <= j < |node.params| :: node.params[j].name != EMPTY
    ensures var r := DefineInvokableSymbolParams(st, rt, node, id, fnEnv);
            forall j | 0 <= j < |Named(node.retParams)| ::
              var v := Named(node.retParams)[j];
              r.symbols[|st.symbols| + |node.params| + j] == VarSymbolOf(v, fnEnv.pkgID, id, rt(v.typeNode, fnEnv))
  {
    var syms := DefineInvokableSymbolParams(st, rt, node, id, fnEnv).symbols;
    DefineInvokableSymbolParamsSymbols(st, rt, node, id, fnEnv);
    RetSymbolsAt(st.symbols, syms, rt, node, id, fnEnv, syms[id]);
  }

  lemma RetSymbolsAt(pre: seq<Symbol>, syms: seq<Symbol>, rt: Resolver, node: Invokable, id: SymbolId, fnEnv: Env, x: Symbol)
    requires id < |pre| && forall j | 0 <= j < |node.params| :: node.params[j].name != EMPTY
    requires syms == (pre + VarSymbols(rt, node.params, fnEnv, id) + VarSymbols(rt, node.retParams, fnEnv, id))[id := x]
    ensures forall j | 0 <= j < |Named(node.retParams)| ::
              var v := Named(node.retParams)[j];
              |pre| + |node.params| + j < |syms| && syms[|pre| + |node.params| + j] == VarSymbolOf(v, fnEnv.pkgID, id, rt(v.typeNode, fnEnv))
  {
    var a, b := VarSymbols(rt, node.params, fnEnv, id), VarSymbols(rt, node.retParams, fnEnv, id);
    NamedAll(node.params);
    VarSymbolsAt(rt, node.params, fnEnv, id);
    VarSymbolsAt(rt, node.retParams, fnEnv, id);
    AppendedPastAt(syms, pre, a, b, id, x, |node.params|);
    forall j | 0 <= j < |Named(node.retParams)|
      ensures |pre| + |node.params| + j < |syms| && syms[|pre| + |node.params| + j] == b[j]
    {
    }
  }

  /** The parameter symbols of an invokable: one variable per parameter,
      owned by the invokable and typed in its scope, then one per named
      return binding. */
  lemma DefineInvokableSymbolParamSymbols(st: PassState, rt: Resolver, node: Invokable, id: SymbolId, env: Env)
    requires id < |st.symbols| && env.scope < |st.scopes|
    requires forall j | 0 <= j < |node.params| :: node.params[j].name != EMPTY
    ensures var r := DefineInvokableSymbol(st, rt, node, id, env);
            var n0, np := |st.symbols|, |node.params|;
            var fnEnv := Env(|st.scopes|, env.pkgID);
            && (forall j | 0 <= j < np ::
                  r.symbols[n0 + j] == VarSymbolOf(node.params[j], env.pkgID, id, rt(node.params[j].typeNode, fnEnv)))
            && (forall j | 0 <= j < |Named(node.retParams)| ::
                  var v := Named(node.retParams)[j];
                  r.symbols[n0 + np + j] == VarSymbolOf(v, env.pkgID, id, rt(v.typeNode, fnEnv)))
  {
    var st2 := DefineSymbol(st.(nodeSymbol := st.nodeSymbol[node.id := id]), node.id, id, env);
    DefineInvokableSymbolSteps(st, rt, node, id, env);
    DefineInvokableSymbolParamsAt(st2, rt, node, id, Env(|st.scopes|, env.pkgID));
    DefineInvokableSymbolRetsAt(st2, rt, node, id, Env(|st.scopes|, env.pkgID));
  }

  /** The invokable's parameter types are the types of its parameter symbols. */
  lemma DefineInvokableSymbolParamTypes(st: PassState, rt: Resolver, node: Invokable, id: SymbolId, env: Env)
    requires id < |st.symbols| && env.scope < |st.scopes|
    requires forall j | 0 <= j < |node.params| :: node.params[j].name != EMPTY
    ensures var r := DefineInvokableSymbol(st, rt, node, id, env);
            var sym := r.symbols[id];
            && |sym.params| == |sym.symType.paramTypes|
            && (forall j | 0 <= j < |sym.params| :: sym.params[j] < |r.symbols| && sym.symType.paramTypes[j] == r.symbols[sym.params[j]].symType)
  {
    var st2 := DefineSymbol(st.(nodeSymbol := st.nodeSymbol[node.id := id]), node.id, id, env);
    DefineInvokableSymbolSteps(st, rt, node, id, env);
    ParamTypesMatch(st2, rt, node, id, Env(|st.scopes|, env.pkgID));
  }

  /** At the parameters step: each parameter type is the type of the matching parameter symbol. */
  lemma ParamTypesMatch(st: PassState, rt: Resolver, node: Invokable, id: SymbolId, fnEnv: Env)
    requires id < |st.symbols| && fnEnv.scope < |st.scopes| && st.scopes[fnEnv.scope].owner == id
    requires forall j | 0 <= j < |node.params| :: node.params[j].name != EMPTY
    ensures var r := DefineInvokableSymbolParams(st, rt, node, id, fnEnv);
            var sym := r.symbols[id];
            && |sym.params| == |sym.symType.paramTypes|
            && (forall j | 0 <= j < |sym.params| :: sym.params[j] < |r.symbols| && sym.symType.paramTypes[j] == r.symbols[sym.params[j]].symType)
  {
    var r := DefineInvokableSymbolParams(st, rt, node, id, fnEnv);
    DefineInvokableSymbolParamsRecord(st, rt, node, id, fnEnv);
    DefineInvokableSymbolParamsAt(st, rt, node, id, fnEnv);
    ParamTypesAt(r.symbols, r.symbols[id], |st.symbols|, rt, node.params, fnEnv, id);
  }

  lemma ParamTypesAt(syms: seq<Symbol>, sym: Symbol, n: nat, rt: Resolver, ps: seq<VarNode>, fnEnv: Env, id: SymbolId)
    requires sym.params == Range(n, |ps|) && sym.symType.InvokableType? && sym.symType.paramTypes == TypesOf(rt, ps, fnEnv)
    requires forall j | 0 <= j < |ps| :: n + j < |syms| && syms[n + j] == VarSymbolOf(ps[j], fnEnv.pkgID, id, rt(ps[j].typeNode, fnEnv))
    ensures |sym.params| == |sym.symType.paramTypes|
    ensures forall j | 0 <= j < |sym.params| :: sym.params[j] < |syms| && sym.symType.paramTypes[j] == syms[sym.params[j]].symType
  {
  }

  /** The scopes an invokable's definition touches: its name is entered in
      the current scope by the guarded insert; its parameters, then its named
      return bindings, are entered one after the other in its own fresh
      scope, which thus binds exactly their names and never EMPTY. The
      diagnostics are the guarded insert's, then the parameters', then the
      return bindings'. */
  lemma DefineInvokableSymbolScopes(st: PassState, rt: Resolver, node: Invokable, id: SymbolId, env: Env)
    requires id < |st.symbols| && env.scope < |st.scopes|
    requires forall j | 0 <= j < |node.params| :: node.params[j].name != EMPTY
    ensures var r := DefineInvokableSymbol(st, rt, node, id, env);
            var n0, np := |st.symbols|, |node.params|;
            var sc := st.scopes[env.scope];
            var name := st.symbols[id].name;
            var own := EnterAll(EnterAll(Scope(id, map[]), node.params, n0), node.retParams, n0 + np);
            && r.scopes[|st.scopes|] == own
            && r.scopes[env.scope] == Define(sc, name, id)
            && (forall i | 0 <= i < |st.scopes| && i != env.scope :: r.scopes[i] == st.scopes[i])
            && r.diagnostics == st.diagnostics + Redeclared(sc, name, node.id)
                 + RedeclaredAll(Scope(id, map[]), node.params, n0)
                 + RedeclaredAll(EnterAll(Scope(id, map[]), node.params, n0), node.retParams, n0 + np)
  {
    var st1 := st.(nodeSymbol := st.nodeSymbol[node.id := id]);
    var st2 := DefineSymbol(st1, node.id, id, env);
    var fnEnv := Env(|st.scopes|, env.pkgID);
    DefineInvokableSymbolSteps(st, rt, node, id, env);
    DefineSymbolGuarded(st1, node.id, id, env);
    DefineInvokableSymbolParamsScopes(st2, rt, node, id, fnEnv);
  }

  /** An invokable's own scope binds exactly the names of its bindings, never EMPTY. */
  lemma OwnScopeBinds(id: SymbolId, ps: seq<VarNode>, rs: seq<VarNode>, n: nat, x: Name)
    ensures x in EnterAll(EnterAll(Scope(id, map[]), ps, n), rs, n + |ps|).entries
            <==> x != EMPTY && (x in NamesOf(ps) || x in NamesOf(rs))
  {
    EnterAllBinds(Scope(id, map[]), ps, n, x);
    EnterAllBinds(EnterAll(Scope(id, map[]), ps, n), rs, n + |ps|, x);
  }

  /** visit(struct): the struct gets the next handle, its node is given that
      symbol, and the symbol is a struct of the current package, owned by the
      current scope's owner, with its own fresh scope and a struct type whose
      field list starts empty. The guarded insert enters it in the current
      scope. */
  lemma VisitStructShape(st: PassState, s: StructNode, env: Env)
    requires env.scope < |st.scopes|
    ensures var r := VisitStruct(st, s, env);
            var id := |st.symbols|;
            var sc := st.scopes[env.scope];
            && r.nodeSymbol == st.nodeSymbol[s.id := id]
            && r.symbols[id].kind == StructSym && r.symbols[id].name == s.name && r.symbols[id].flags == s.flags
            && r.symbols[id].pkgID == env.pkgID && r.symbols[id].owner == Some(sc.owner)
            && r.symbols[id].scope == Some(|st.scopes|)
            && r.symbols[id].symType == StructType(id, s.name, env.pkgID)
            && r.symbols[id].fields == []
            && r.scopes[|st.scopes|] == Scope(id, map[])
            && r.scopes[env.scope] == Define(sc, s.name, id)
            && r.diagnostics == st.diagnostics + Redeclared(sc, s.name, s.id)
            && (forall i | 0 <= i < |st.symbols| :: r.symbols[i] == st.symbols[i])
            && (forall i | 0 <= i < |st.scopes| && i != env.scope :: r.scopes[i] == st.scopes[i])
  {
    var id := |st.symbols|;
    var st1 := NewSlot(st, NewSymbol(StructSym, s.flags, s.name, env.pkgID, Some(OwnerOf(st, env)), NoType));
    var st2 := st1.(nodeSymbol := st1.nodeSymbol[s.id := id]);
    DefineSymbolGuarded(st2, s.id, id, env);
  }

  /** defineStructFields, for a struct whose node has a symbol with a scope:
      the declared fields, each made public, are entered in order in the
      struct's own scope; they get the next handles, public variable symbols
      owned by the struct's scope owner; and the struct's field list becomes
      the declared fields in order, as (name, resolved type) pairs. No other
      scope changes. */
  lemma DefineStructFieldsOfEffect(st: PassState, rt: Resolver, s: StructNode, env: Env)
    requires NodeScope(st, s.id).Some?
    ensures var r := DefineStructFieldsOf(st, rt, s, env);
            var (sid, sc) := NodeScope(st, s.id).value;
            var fields := MakePublic(s.fields);
            var senv := Env(sc, env.pkgID);
            && |r.symbols[sid].fields| == |s.fields|
            && (forall j | 0 <= j < |s.fields| ::
                  r.symbols[sid].fields[j] == StructField(s.fields[j].name, rt(s.fields[j].typeNode, senv)))
            && r.scopes[sc] == EnterAll(st.scopes[sc], fields, |st.symbols|)
            && (forall i | 0 <= i < |st.scopes| && i != sc :: r.scopes[i] == st.scopes[i])
            && r.diagnostics == st.diagnostics + RedeclaredAll(st.scopes[sc], fields, |st.symbols|)
  {
    var (sid, sc) := NodeScope(st, s.id).value;
    var fields := MakePublic(s.fields);
    var senv := Env(sc, env.pkgID);
    VisitVariablesScopes(st, rt, fields, senv);
  }

  /** The symbols defineStructFields leaves: the field symbols appended,
      and the struct's field list set. */
  lemma DefineStructFieldsOfSymbols(st: PassState, rt: Resolver, s: StructNode, env: Env)
    requires NodeScope(st, s.id).Some?
    ensures var (sid, sc) := NodeScope(st, s.id).value;
            var fields := MakePublic(s.fields);
            var senv := Env(sc, env.pkgID);
            var all := st.symbols + VarSymbols(rt, fields, senv, st.scopes[sc].owner);
            DefineStructFieldsOf(st, rt, s, env).symbols == all[sid := all[sid].(fields := FieldsOf(rt, fields, senv))]
  {
    var (sid, sc) := NodeScope(st, s.id).value;
    VisitVariablesSymbols(st, rt, MakePublic(s.fields), Env(sc, env.pkgID));
  }

  /** Every symbol defineStructFields adds is a public variable owned by the
      owner of the struct's scope, one per named field. */
  lemma DefineStructFieldsOfPublic(st: PassState, rt: Resolver, s: StructNode, env: Env)
    requires NodeScope(st, s.id).Some?
    ensures var r := DefineStructFieldsOf(st, rt, s, env);
            var (sid, sc) := NodeScope(st, s.id).value;
            && |r.symbols| == |st.symbols| + |Named(s.fields)|
            && forall x | x in r.symbols[|st.symbols|..] ::
                 x.kind == VariableSym && Public in x.flags && x.owner == Some(st.scopes[sc].owner)
  {
    var (sid, sc) := NodeScope(st, s.id).value;
    var fields := MakePublic(s.fields);
    var senv := Env(sc, env.pkgID);
    var vs := VarSymbols(rt, fields, senv, st.scopes[sc].owner);
    DefineStructFieldsOfSymbols(st, rt, s, env);
    VarSymbolsAreVariables(rt, fields, senv, st.scopes[sc].owner);
    VarSymbolsAt(rt, fields, senv, st.scopes[sc].owner);
    NamedMakePublic(s.fields);
    AppendedTail(st.symbols, vs, sid, (st.symbols + vs)[sid].(fields := FieldsOf(rt, fields, senv)));
  }

  /** Past the prefix, an appended sequence with one prefix element replaced
      is the appended part. */
  lemma AppendedTail<X>(pre: seq<X>, a: seq<X>, id: nat, x: X)
    requires id < |pre|
    ensures (pre + a)[id := x][|pre|..] == a
  {
    assert forall i | 0 <= i < |a| :: (pre + a)[id := x][|pre|..][i] == a[i];
  }

  /** Making bindings public does not change which of them are named. */
  lemma {:induction false} NamedMakePublic(vs: seq<VarNode>)
    ensures |Named(MakePublic(vs))| == |Named(vs)|
  {
    if vs != [] {
      var k := |vs| - 1;
      NamedMakePublic(vs[..k]);
      assert MakePublic(vs)[..k] == MakePublic(vs[..k]);
    }
  }

  /** The receiver part of visit(function): the receiver gets the next
      handle, a variable owned by the function and typed in the function's
      scope; the function symbol records it as its receiver and its type as
      the receiver type; the receiver is entered in the function's scope by
      the guarded insert, after a same-named field of the receiver type is
      reported. Nothing else changes. */
  lemma DefineReceiverEffect(st: PassState, rt: Resolver, f: Invokable, id: SymbolId, rtype: Type, fnEnv: Env)
    requires f.receiver.Some? && f.receiver.value.name != EMPTY
    requires id < |st.symbols| && fnEnv.scope < |st.scopes| && st.symbols[id].symType.InvokableType?
    requires st.scopes[fnEnv.scope].owner == id
    ensures var r := DefineReceiver(st, rt, f, id, rtype, fnEnv);
            var recv := f.receiver.value;
            var rid := |st.symbols|;
            var t := rt(recv.typeNode, fnEnv);
            var sc := st.scopes[fnEnv.scope];
            && r.symbols[rid] == VarSymbolOf(recv, fnEnv.pkgID, id, t)
            && r.symbols[id] == st.symbols[id].(receiverSymbol := Some(rid),
                                                symType := st.symbols[id].symType.(receiverType := Some(t)))
            && (forall i | 0 <= i < |st.symbols| && i != id :: r.symbols[i] == st.symbols[i])
            && r.scopes == st.scopes[fnEnv.scope := Define(sc, recv.name, rid)]
            && r.diagnostics == st.diagnostics + FieldClash(st, f, rtype) + Redeclared(sc, recv.name, recv.id)
  {
  }

  /** visit(function) in steps: the receiver is validated, the function
      symbol takes the next handle, it is defined with its parameters, and
      then its receiver, for a method, in the function's own scope. */
  lemma VisitFunctionSteps(st: PassState, rt: Resolver, f: Invokable, env: Env)
    requires env.scope < |st.scopes| && WellFormedInvokable(f)
    ensures var rtype := ReceiverType(rt, f, env);
            var st1 := ValidateFuncReceiver(st, rt, f, env);
            var st2 := NewSlot(st1, NewSymbol(FunctionSym, f.flags, FuncSymbolName(f.name, rtype), env.pkgID,
                                              Some(st.scopes[env.scope].owner), NoType));
            var st3 := DefineInvokableSymbol(st2, rt, f, |st.symbols|, env);
            && st1.symbols == st.symbols && st1.scopes == st.scopes
            && st3.symbols[|st.symbols|].symType.InvokableType?
            && st3.scopes[|st.scopes|].owner == |st.symbols|
            && VisitFunction(st, rt, f, env)
               == if f.receiver.None? then st3
                  else DefineReceiver(st3, rt, f, |st.symbols|, rtype.value, Env(|st.scopes|, env.pkgID))
  {
    var rtype := ReceiverType(rt, f, env);
    var st1 := ValidateFuncReceiver(st, rt, f, env);
    var st2 := NewSlot(st1, NewSymbol(FunctionSym, f.flags, FuncSymbolName(f.name, rtype), env.pkgID,
                                      Some(st.scopes[env.scope].owner), NoType));
    DefineInvokableSymbolScopes(st2, rt, f, |st.symbols|, env);
    EnterAllBinds(Scope(|st.symbols|, map[]), f.params, |st2.symbols|, EMPTY);
    EnterAllBinds(EnterAll(Scope(|st.symbols|, map[]), f.params, |st2.symbols|), f.retParams, |st2.symbols| + |f.params|, EMPTY);
  }

  /** defineInvokableSymbolParams changes no symbol that existed before but
      the invokable's own. */
  lemma DefineInvokableSymbolParamsOthers(st: PassState, rt: Resolver, node: Invokable, id: SymbolId, fnEnv: Env)
    requires id < |st.symbols| && fnEnv.scope < |st.scopes| && st.scopes[fnEnv.scope].owner == id
    requires forall j | 0 <= j < |node.params| :: node.params[j].name != EMPTY
    ensures var r := DefineInvokableSymbolParams(st, rt, node, id, fnEnv);
            forall i | 0 <= i < |st.symbols| && i != id :: r.symbols[i] == st.symbols[i]
  {
    DefineInvokableSymbolParamsSymbols(st, rt, node, id, fnEnv);
  }

  /** defineInvokableSymbol changes no symbol that existed before but the
      invokable's own. */
  lemma DefineInvokableSymbolOthers(st: PassState, rt: Resolver, node: Invokable, id: SymbolId, env: Env)
    requires id < |st.symbols| && env.scope < |st.scopes|
    requires forall j | 0 <= j < |node.params| :: node.params[j].name != EMPTY
    ensures var r := DefineInvokableSymbol(st, rt, node, id, env);
            forall i | 0 <= i < |st.symbols| && i != id :: r.symbols[i] == st.symbols[i]
  {
    var st1 := st.(nodeSymbol := st.nodeSymbol[node.id := id]);
    var st2 := DefineSymbol(st1, node.id, id, env);
    DefineInvokableSymbolSteps(st, rt, node, id, env);
    DefineSymbolGuarded(st1, node.id, id, env);
    DefineInvokableSymbolParamsOthers(st2, rt, node, id, Env(|st.scopes|, env.pkgID));
  }

  /** A field found in a struct's scope is still found once the state has
      grown, provided the struct keeps its scope. */
  lemma LookupFieldStable(st: PassState, st': PassState, t: Type, n: Name)
    requires LookupField(st, t, n).Some? && Grows(st, st')
    requires st'.symbols[t.tsym].scope == st.symbols[t.tsym].scope
    ensures LookupField(st', t, n) == LookupField(st, t, n)
  {
    var sc := st.symbols[t.tsym].scope.value;
    assert st'.scopes[sc].entries[n] == st.scopes[sc].entries[n];
  }

  /** visit(function), the function symbol: it takes the next handle and is
      a function of the current package, owned by the current scope's owner,
      named `T.f` for a method on T and `f` otherwise, with the function's
      own flags and its own fresh scope. */
  lemma VisitFunctionSymbol(st: PassState, rt: Resolver, f: Invokable, env: Env)
    requires env.scope < |st.scopes| && WellFormedInvokable(f)
    ensures var r := VisitFunction(st, rt, f, env);
            var id := |st.symbols|;
            && r.symbols[id].kind == FunctionSym && r.symbols[id].name == FuncSymbolName(f.name, ReceiverType(rt, f, env))
            && r.symbols[id].flags == f.flags && r.symbols[id].pkgID == env.pkgID
            && r.symbols[id].owner == Some(st.scopes[env.scope].owner)
            && r.symbols[id].scope == Some(|st.scopes|)
  {
    var rtype := ReceiverType(rt, f, env);
    var st1 := ValidateFuncReceiver(st, rt, f, env);
    var st2 := NewSlot(st1, NewSymbol(FunctionSym, f.flags, FuncSymbolName(f.name, rtype), env.pkgID,
                                      Some(st.scopes[env.scope].owner), NoType));
    var st3 := DefineInvokableSymbol(st2, rt, f, |st.symbols|, env);
    VisitFunctionSteps(st, rt, f, env);
    DefineInvokableSymbolSignature(st2, rt, f, |st.symbols|, env);
    if f.receiver.Some? {
      DefineReceiverEffect(st3, rt, f, |st.symbols|, rtype.value, Env(|st.scopes|, env.pkgID));
    }
  }

  /** visit(function), the scopes outside the function: the guarded insert
      enters the function symbol in the current scope under its symbol name;
      no other scope that existed before changes. */
  lemma VisitFunctionScopes(st: PassState, rt: Resolver, f: Invokable, env: Env)
    requires env.scope < |st.scopes| && WellFormedInvokable(f)
    ensures var r := VisitFunction(st, rt, f, env);
            var name := FuncSymbolName(f.name, ReceiverType(rt, f, env));
            && r.scopes[env.scope] == Define(st.scopes[env.scope], name, |st.symbols|)
            && (forall i | 0 <= i < |st.scopes| && i != env.scope :: r.scopes[i] == st.scopes[i])
  {
    var rtype := ReceiverType(rt, f, env);
    var st1 := ValidateFuncReceiver(st, rt, f, env);
    var st2 := NewSlot(st1, NewSymbol(FunctionSym, f.flags, FuncSymbolName(f.name, rtype), env.pkgID,
                                      Some(st.scopes[env.scope].owner), NoType));
    var st3 := DefineInvokableSymbol(st2, rt, f, |st.symbols|, env);
    VisitFunctionSteps(st, rt, f, env);
    DefineInvokableSymbolScopes(st2, rt, f, |st.symbols|, env);
    if f.receiver.Some? {
      DefineReceiverEffect(st3, rt, f, |st.symbols|, rtype.value, Env(|st.scopes|, env.pkgID));
    }
  }

  /** visit(function), a method's receiver: it gets the handle after the
      function's parameters and named return bindings, a variable owned by
      the function and resolved in the function's scope; the function symbol
      records it as its receiver, and its type as the receiver type of the
      function's type. */
  lemma VisitFunctionReceiver(st: PassState, rt: Resolver, f: Invokable, env: Env)
    requires env.scope < |st.scopes| && WellFormedInvokable(f) && f.receiver.Some?
    ensures ReceiverLinked(VisitFunction(st, rt, f, env), rt, f.receiver.value, |st.symbols|,
                           |st.symbols| + 1 + |f.params| + |Named(f.retParams)|, Env(|st.scopes|, env.pkgID))
  {
    var rid := |st.symbols| + 1 + |f.params| + |Named(f.retParams)|;
    VisitMethodIs(st, rt, f, env, rid);
    ReceiverRecorded(FunctionDefined(st, rt, f, env), VisitFunction(st, rt, f, env), rt, f, |st.symbols|,
                     ReceiverType(rt, f, env).value, Env(|st.scopes|, env.pkgID), rid);
  }

  /** The state visit(function) reaches before it defines the receiver. */
  ghost function FunctionDefined(st: PassState, rt: Resolver, f: Invokable, env: Env): PassState
    requires env.scope < |st.scopes| && WellFormedInvokable(f)
  {
    var st1 := ValidateFuncReceiver(st, rt, f, env);
    var st2 := NewSlot(st1, NewSymbol(FunctionSym, f.flags, FuncSymbolName(f.name, ReceiverType(rt, f, env)), env.pkgID,
                                      Some(st.scopes[env.scope].owner), NoType));
    DefineInvokableSymbol(st2, rt, f, |st.symbols|, env)
  }

  lemma VisitMethodIs(st: PassState, rt: Resolver, f: Invokable, env: Env, rid: nat)
    requires env.scope < |st.scopes| && WellFormedInvokable(f) && f.receiver.Some?
    requires rid == |st.symbols| + 1 + |f.params| + |Named(f.retParams)|
    ensures var st3 := FunctionDefined(st, rt, f, env);
            && |st.symbols| < |st3.symbols| == rid && |st.scopes| < |st3.scopes|
            && st3.symbols[|st.symbols|].symType.InvokableType?
            && st3.scopes[|st.scopes|].owner == |st.symbols|
            && VisitFunction(st, rt, f, env)
               == DefineReceiver(st3, rt, f, |st.symbols|, ReceiverType(rt, f, env).value, Env(|st.scopes|, env.pkgID))
  {
    VisitFunctionSteps(st, rt, f, env);
  }

  /** Invokable `id` has the receiver `recv`: its symbol is the last one,
      with handle `rid`, a variable owned by the invokable and resolved in
      `fnEnv`; the invokable's symbol records it, and its type as the
      receiver type of the invokable's type. */
  ghost predicate ReceiverLinked(r: PassState, rt: Resolver, recv: VarNode, id: SymbolId, rid: SymbolId, fnEnv: Env)
  {
    && id < |r.symbols| == rid + 1
    && r.symbols[rid] == VarSymbolOf(recv, fnEnv.pkgID, id, rt(recv.typeNode, fnEnv))
    && r.symbols[id].receiverSymbol == Some(rid)
    && r.symbols[id].symType.InvokableType?
    && r.symbols[id].symType.receiverType == Some(r.symbols[rid].symType)
  }

  /** defineNode(receiver) after the signature: the receiver takes the next
      handle and the function symbol records it. */
  lemma ReceiverRecorded(st: PassState, r: PassState, rt: Resolver, f: Invokable, id: SymbolId, rtype: Type, fnEnv: Env, rid: SymbolId)
    requires f.receiver.Some? && f.receiver.value.name != EMPTY
    requires id < |st.symbols| && fnEnv.scope < |st.scopes| && st.symbols[id].symType.InvokableType?
    requires st.scopes[fnEnv.scope].owner == id
    requires r == DefineReceiver(st, rt, f, id, rtype, fnEnv) && rid == |st.symbols|
    ensures ReceiverLinked(r, rt, f.receiver.value, id, rid, fnEnv)
  {
    DefineReceiverEffect(st, rt, f, id, rtype, fnEnv);
  }

  /** ... and the receiver is bound in the function's own scope. */
  lemma VisitFunctionReceiverBound(st: PassState, rt: Resolver, f: Invokable, env: Env)
    requires env.scope < |st.scopes| && WellFormedInvokable(f) && f.receiver.Some?
    ensures f.receiver.value.name in VisitFunction(st, rt, f, env).scopes[|st.scopes|].entries
  {
    var rtype := ReceiverType(rt, f, env);
    var st1 := ValidateFuncReceiver(st, rt, f, env);
    var st2 := NewSlot(st1, NewSymbol(FunctionSym, f.flags, FuncSymbolName(f.name, rtype), env.pkgID,
                                      Some(st.scopes[env.scope].owner), NoType));
    var st3 := DefineInvokableSymbol(st2, rt, f, |st.symbols|, env);
    VisitFunctionSteps(st, rt, f, env);
    DefineReceiverEffect(st3, rt, f, |st.symbols|, rtype.value, Env(|st.scopes|, env.pkgID));
  }

  /** visit(function), the receiver check comes first: for a method the
      diagnostics start with those of validateFuncReceiver, on the receiver
      type resolved in the enclosing environment. */
  lemma VisitFunctionReceiverDiagnostics(st: PassState, rt: Resolver, f: Invokable, env: Env)
    requires env.scope < |st.scopes| && WellFormedInvokable(f) && f.receiver.Some?
    ensures var recv := f.receiver.value;
            st.diagnostics + ReceiverDiagnostics(recv.id, f.name, rt(recv.typeNode, env), env.pkgID)
              <= VisitFunction(st, rt, f, env).diagnostics
  {
    var rtype := ReceiverType(rt, f, env);
    var st1 := ValidateFuncReceiver(st, rt, f, env);
    var st2 := NewSlot(st1, NewSymbol(FunctionSym, f.flags, FuncSymbolName(f.name, rtype), env.pkgID,
                                      Some(st.scopes[env.scope].owner), NoType));
    var st3 := DefineInvokableSymbol(st2, rt, f, |st.symbols|, env);
    VisitFunctionSteps(st, rt, f, env);
    DefineInvokableSymbolGrows(st2, rt, f, |st.symbols|, env);
    DefineReceiverGrows(st3, rt, f, |st.symbols|, rtype.value, Env(|st.scopes|, env.pkgID));
  }

  /** visit(function), a plain function: the diagnostics are the guarded
      insert's, then its parameters', then its return bindings'. */
  lemma VisitFunctionPlainDiagnostics(st: PassState, rt: Resolver, f: Invokable, env: Env)
    requires env.scope < |st.scopes| && WellFormedInvokable(f) && f.receiver.None?
    ensures var n := |st.symbols| + 1;
            var own := Scope(|st.symbols|, map[]);
            VisitFunction(st, rt, f, env).diagnostics
              == st.diagnostics + Redeclared(st.scopes[env.scope], f.name, f.id)
                 + RedeclaredAll(own, f.params, n)
                 + RedeclaredAll(EnterAll(own, f.params, n), f.retParams, n + |f.params|)
  {
    var st1 := ValidateFuncReceiver(st, rt, f, env);
    var st2 := NewSlot(st1, NewSymbol(FunctionSym, f.flags, f.name, env.pkgID,
                                      Some(st.scopes[env.scope].owner), NoType));
    VisitFunctionSteps(st, rt, f, env);
    DefineInvokableSymbolScopes(st2, rt, f, |st.symbols|, env);
  }

  /** visit(function), a method: the diagnostics are, in order, the receiver
      validation's, the guarded insert of the dotted name, the parameters',
      the return bindings', the field clash check made once the signature is
      defined, and the receiver's insert into the function's scope. */
  lemma VisitMethodDiagnostics(st: PassState, rt: Resolver, f: Invokable, env: Env)
    requires env.scope < |st.scopes| && WellFormedInvokable(f) && f.receiver.Some?
    ensures var recv := f.receiver.value;
            var t := rt(recv.typeNode, env);
            var n := |st.symbols| + 1;
            var own := Scope(|st.symbols|, map[]);
            var own1 := EnterAll(EnterAll(own, f.params, n), f.retParams, n + |f.params|);
            VisitFunction(st, rt, f, env).diagnostics
              == st.diagnostics + ReceiverDiagnostics(recv.id, f.name, t, env.pkgID)
                 + Redeclared(st.scopes[env.scope], FuncSymbolName(f.name, Some(t)), f.id)
                 + RedeclaredAll(own, f.params, n)
                 + RedeclaredAll(EnterAll(own, f.params, n), f.retParams, n + |f.params|)
                 + FieldClash(FunctionDefined(st, rt, f, env), f, t)
                 + Redeclared(own1, recv.name, recv.id)
  {
    var rtype := ReceiverType(rt, f, env);
    var st1 := ValidateFuncReceiver(st, rt, f, env);
    var st2 := NewSlot(st1, NewSymbol(FunctionSym, f.flags, FuncSymbolName(f.name, rtype), env.pkgID,
                                      Some(st.scopes[env.scope].owner), NoType));
    var st3 := FunctionDefined(st, rt, f, env);
    VisitMethodIs(st, rt, f, env, |st.symbols| + 1 + |f.params| + |Named(f.retParams)|);
    DefineInvokableSymbolScopes(st2, rt, f, |st.symbols|, env);
    DefineReceiverEffect(st3, rt, f, |st.symbols|, rtype.value, Env(|st.scopes|, env.pkgID));
  }

  /** A field found before visit(function) is still found when the method's
      field check runs, after its parameters are defined. */
  lemma FieldFoundAtCheck(st: PassState, rt: Resolver, f: Invokable, env: Env)
    requires env.scope < |st.scopes| && WellFormedInvokable(f) && f.receiver.Some?
    requires LookupField(st, rt(f.receiver.value.typeNode, env), f.name).Some?
    ensures var t := ReceiverType(rt, f, env).value;
            LookupField(FunctionDefined(st, rt, f, env), t, f.name) == LookupField(st, t, f.name)
  {
    FunctionDefinedKeeps(st, rt, f, env);
    LookupFieldStable(st, FunctionDefined(st, rt, f, env), ReceiverType(rt, f, env).value, f.name);
  }

  /** Up to the receiver, visit(function) only adds to the state and leaves
      every symbol that existed before as it was. */
  lemma FunctionDefinedKeeps(st: PassState, rt: Resolver, f: Invokable, env: Env)
    requires env.scope < |st.scopes| && WellFormedInvokable(f)
    ensures var r := FunctionDefined(st, rt, f, env);
            Grows(st, r) && forall i | 0 <= i < |st.symbols| :: r.symbols[i] == st.symbols[i]
  {
    var rtype := ReceiverType(rt, f, env);
    var st1 := ValidateFuncReceiver(st, rt, f, env);
    var st2 := NewSlot(st1, NewSymbol(FunctionSym, f.flags, FuncSymbolName(f.name, rtype), env.pkgID,
                                      Some(st.scopes[env.scope].owner), NoType));
    var st3 := DefineInvokableSymbol(st2, rt, f, |st.symbols|, env);
    ValidateFuncReceiverKeeps(st, rt, f, env);
    assert Grows(st1, st2);
    DefineInvokableSymbolGrows(st2, rt, f, |st.symbols|, env);
    GrowsTrans(st, st1, st2);
    GrowsTrans(st, st2, st3);
    DefineInvokableSymbolOthers(st2, rt, f, |st.symbols|, env);
  }

  /** visit(function), a method named like a field of its receiver struct:
      STRUCT_FIELD_AND_FUNC_WITH_SAME_NAME is reported, and (by
      VisitFunctionReceiver) the receiver is still defined and recorded. */
  lemma VisitFunctionFieldClash(st: PassState, rt: Resolver, f: Invokable, env: Env)
    requires env.scope < |st.scopes| && WellFormedInvokable(f) && f.receiver.Some?
    requires LookupField(st, rt(f.receiver.value.typeNode, env), f.name).Some?
    ensures var t := rt(f.receiver.value.typeNode, env);
            Diagnostic(f.id, StructFieldAndFuncWithSameName, [f.name, TypeString(t)]) in VisitFunction(st, rt, f, env).diagnostics
  {
    var t := ReceiverType(rt, f, env).value;
    var st3 := FunctionDefined(st, rt, f, env);
    VisitMethodIs(st, rt, f, env, |st.symbols| + 1 + |f.params| + |Named(f.retParams)|);
    FieldFoundAtCheck(st, rt, f, env);
    DefineReceiverEffect(st3, rt, f, |st.symbols|, t, Env(|st.scopes|, env.pkgID));
    var d := Diagnostic(f.id, StructFieldAndFuncWithSameName, [f.name, TypeString(t)]);
    assert FieldClash(st3, f, t) == [d];
  }

  /** A map has the same entry for `k` in both states. */
  predicate SameAt<K, V(==)>(m0: map<K, V>, m1: map<K, V>, k: K)
  {
    (k in m0 <==> k in m1) && (k in m0 ==> m0[k] == m1[k])
  }

  /** The tables the definition of bindings never writes. */
  predicate SameTables(st: PassState, r: PassState)
  {
    r.initFunctions == st.initFunctions && r.packageEnvs == st.packageEnvs && r.pkgSymbols == st.pkgSymbols
  }

  /** Visiting bindings annotates only the bindings' own nodes. */
  lemma {:induction false} VisitVariablesNodeFrame(st: PassState, rt: Resolver, vs: seq<VarNode>, env: Env, k: NodeId)
    requires env.scope < |st.scopes| && forall j | 0 <= j < |vs| :: vs[j].id != k
    ensures var r := VisitVariables(st, rt, vs, env);
            SameAt(st.nodeSymbol, r.nodeSymbol, k) && SameAt(st.nodeType, r.nodeType, k) && SameTables(st, r)
  {
    if vs != [] {
      VisitVariablesNodeFrame(st, rt, vs[..|vs| - 1], env, k);
    }
  }

  /** defineInvokableSymbolParams annotates only the parameters' and return
      bindings' nodes. */
  lemma DefineInvokableSymbolParamsNodeFrame(st: PassState, rt: Resolver, node: Invokable, id: SymbolId, fnEnv: Env, k: NodeId)
    requires id < |st.symbols| && fnEnv.scope < |st.scopes|
    requires forall j | 0 <= j < |node.params| :: node.params[j].name != EMPTY
    requires forall j | 0 <= j < |node.params| :: node.params[j].id != k
    requires forall j | 0 <= j < |node.retParams| :: node.retParams[j].id != k
    ensures var r := DefineInvokableSymbolParams(st, rt, node, id, fnEnv);
            SameAt(st.nodeSymbol, r.nodeSymbol, k) && SameTables(st, r)
  {
    var st1 := VisitVariables(st, rt, node.params, fnEnv);
    VisitVariablesNodeFrame(st, rt, node.params, fnEnv, k);
    VisitVariablesNodeFrame(st1, rt, node.retParams, fnEnv, k);
  }

  /** Which nodes of an invokable visit(function) annotates: the function's
      own, its parameters', its return bindings' and its receiver's. */
  predicate OwnsNode(f: Invokable, k: NodeId)
  {
    || k == f.id
    || (exists j | 0 <= j < |f.params| :: f.params[j].id == k)
    || (exists j | 0 <= j < |f.retParams| :: f.retParams[j].id == k)
    || (f.receiver.Some? && f.receiver.value.id == k)
  }

  /** visit(function) gives symbols only to the function's own nodes. */
  lemma VisitFunctionNodeFrame(st: PassState, rt: Resolver, f: Invokable, env: Env, k: NodeId)
    requires env.scope < |st.scopes| && WellFormedInvokable(f) && !OwnsNode(f, k)
    ensures SameAt(st.nodeSymbol, VisitFunction(st, rt, f, env).nodeSymbol, k)
  {
    var rtype := ReceiverType(rt, f, env);
    var st1 := ValidateFuncReceiver(st, rt, f, env);
    var st2 := NewSlot(st1, NewSymbol(FunctionSym, f.flags, FuncSymbolName(f.name, rtype), env.pkgID,
                                      Some(st.scopes[env.scope].owner), NoType));
    var st2' := DefineSymbol(st2.(nodeSymbol := st2.nodeSymbol[f.id := |st.symbols|]), f.id, |st.symbols|, env);
    VisitFunctionSteps(st, rt, f, env);
    DefineInvokableSymbolSteps(st2, rt, f, |st.symbols|, env);
    DefineInvokableSymbolParamsNodeFrame(st2', rt, f, |st.symbols|, Env(|st.scopes|, env.pkgID), k);
  }

  /** visit(function) leaves initialisers, package environments and loaded
      packages untouched. */
  lemma VisitFunctionTables(st: PassState, rt: Resolver, f: Invokable, env: Env)
    requires env.scope < |st.scopes| && WellFormedInvokable(f)
    ensures SameTables(st, VisitFunction(st, rt, f, env))
  {
    var rtype := ReceiverType(rt, f, env);
    var st1 := ValidateFuncReceiver(st, rt, f, env);
    var st2 := NewSlot(st1, NewSymbol(FunctionSym, f.flags, FuncSymbolName(f.name, rtype), env.pkgID,
                                      Some(st.scopes[env.scope].owner), NoType));
    var st2' := DefineSymbol(st2.(nodeSymbol := st2.nodeSymbol[f.id := |st.symbols|]), f.id, |st.symbols|, env);
    var fnEnv := Env(|st.scopes|, env.pkgID);
    VisitFunctionSteps(st, rt, f, env);
    DefineInvokableSymbolSteps(st2, rt, f, |st.symbols|, env);
    VisitVariablesNodes(st2', rt, f.params, fnEnv);
    VisitVariablesNodes(VisitVariables(st2', rt, f.params, fnEnv), rt, f.retParams, fnEnv);
  }

  /** None of an invokable's parameters, return bindings or receiver is the
      invokable's own node (in the tree they are distinct objects). */
  predicate ChildNodesDistinct(f: Invokable)
  {
    && (forall j | 0 <= j < |f.params| :: f.params[j].id != f.id)
    && (forall j | 0 <= j < |f.retParams| :: f.retParams[j].id != f.id)
    && (f.receiver.Some? ==> f.receiver.value.id != f.id)
  }

  /** defineInvokableSymbol attaches the symbol to the invokable's node, and
      the visit of its parameters leaves that annotation alone. */
  lemma DefineInvokableSymbolNode(st: PassState, rt: Resolver, node: Invokable, id: SymbolId, env: Env)
    requires id < |st.symbols| && env.scope < |st.scopes|
    requires forall j | 0 <= j < |node.params| :: node.params[j].name != EMPTY
    requires ChildNodesDistinct(node)
    ensures var r := DefineInvokableSymbol(st, rt, node, id, env);
            node.id in r.nodeSymbol && r.nodeSymbol[node.id] == id
  {
    var st2 := DefineSymbol(st.(nodeSymbol := st.nodeSymbol[node.id := id]), node.id, id, env);
    DefineInvokableSymbolSteps(st, rt, node, id, env);
    DefineInvokableSymbolParamsNodeFrame(st2, rt, node, id, Env(|st.scopes|, env.pkgID), node.id);
  }

  /** visit(function) attaches the new function symbol to the function's node. */
  lemma VisitFunctionNode(st: PassState, rt: Resolver, f: Invokable, env: Env)
    requires env.scope < |st.scopes| && WellFormedInvokable(f) && ChildNodesDistinct(f)
    ensures var r := VisitFunction(st, rt, f, env);
            f.id in r.nodeSymbol && r.nodeSymbol[f.id] == |st.symbols|
  {
    var rtype := ReceiverType(rt, f, env);
    var st1 := ValidateFuncReceiver(st, rt, f, env);
    var st2 := NewSlot(st1, NewSymbol(FunctionSym, f.flags, FuncSymbolName(f.name, rtype), env.pkgID,
                                      Some(st.scopes[env.scope].owner), NoType));
    VisitFunctionSteps(st, rt, f, env);
    DefineInvokableSymbolNode(st2, rt, f, |st.symbols|, env);
  }

  /** visit(action) and visit(resource) attach the new member symbol to the
      member's node. */
  lemma VisitMemberNode(st: PassState, rt: Resolver, kind: SymKind, a: Invokable, env: Env)
    requires env.scope < |st.scopes| && WellFormedInvokable(a) && ChildNodesDistinct(a)
    ensures var r := VisitMember(st, rt, kind, a, env);
            a.id in r.nodeSymbol && r.nodeSymbol[a.id] == |st.symbols|
  {
    var st1 := NewSlot(st, NewSymbol(kind, a.flags, a.name, env.pkgID, Some(OwnerOf(st, env)), NoType));
    DefineInvokableSymbolNode(st1, rt, a, |st.symbols|, env);
  }

  /** No two bindings of `vs` are the same node. */
  predicate DistinctNodes(vs: seq<VarNode>)
  {
    forall i, j | 0 <= i < j < |vs| :: vs[i].id != vs[j].id
  }

  /** Visiting bindings attaches to the j-th named binding's node the j-th
      new symbol, its own. */
  lemma {:induction false} VisitVariablesNodeSymbols(st: PassState, rt: Resolver, vs: seq<VarNode>, env: Env)
    requires env.scope < |st.scopes| && DistinctNodes(vs)
    ensures var r := VisitVariables(st, rt, vs, env);
            forall j | 0 <= j < |Named(vs)| :: Named(vs)[j].id in r.nodeSymbol && r.nodeSymbol[Named(vs)[j].id] == |st.symbols| + j
  {
    if vs != [] {
      var k := |vs| - 1;
      var init := vs[..k];
      var r0 := VisitVariables(st, rt, init, env);
      assert vs == init + [vs[k]];
      NamedSnoc(init, vs[k]);
      VisitVariablesNodeSymbols(st, rt, init, env);
      forall j | 0 <= j < |Named(init)|
        ensures Named(init)[j].id != vs[k].id
      {
        NamedMembers(init, Named(init)[j]);
        var i :| 0 <= i < |init| && init[i] == Named(init)[j];
        assert vs[i] == init[i];
      }
    }
  }

  /** visit(connector), the initialiser: the connector's node is given the
      connector's symbol and its synthesised initialiser, and neither is
      overwritten by the visit of the initialiser. */
  lemma VisitConnectorInit(st: PassState, rt: Resolver, c: ConnectorNode, env: Env)
    requires env.scope < |st.scopes|
    ensures var r := VisitConnector(st, rt, c, env);
            && c.id in r.nodeSymbol && r.nodeSymbol[c.id] == |st.symbols|
            && c.id in r.initFunctions && r.initFunctions[c.id] == ConnectorInit(c)
  {
    var id := |st.symbols|;
    var st1 := NewSlot(st, NewSymbol(ConnectorSym, c.flags, c.name, env.pkgID, Some(OwnerOf(st, env)), NoType));
    var st2 := st1.(nodeSymbol := st1.nodeSymbol[c.id := id]);
    var init := ConnectorInit(c);
    var st3 := st2.(initFunctions := st2.initFunctions[c.id := init]);
    assert init.params[0].id == ConnectorParamOf(c.id);
    VisitFunctionNodeFrame(st3, rt, init, env, c.id);
    VisitFunctionTables(st3, rt, init, env);
  }

  /** visit(connector), the order: the connector takes the next handle and
      its initialiser the one after; the initialiser, named after the
      connector with the init suffix, is defined first, so its scope comes
      before the connector's and its name enters the current scope before
      the connector's name does. */
  lemma VisitConnectorOrder(st: PassState, rt: Resolver, c: ConnectorNode, env: Env)
    requires env.scope < |st.scopes|
    ensures var r := VisitConnector(st, rt, c, env);
            var id := |st.symbols|;
            var sc := st.scopes[env.scope];
            var initName := c.name + INIT_FUNCTION_SUFFIX;
            && r.symbols[id].kind == ConnectorSym && r.symbols[id].name == c.name
            && r.symbols[id].flags == c.flags && r.symbols[id].owner == Some(sc.owner)
            && r.symbols[id].scope == Some(|st.scopes| + 1)
            && r.symbols[id + 1].kind == FunctionSym && r.symbols[id + 1].name == initName
            && r.symbols[id + 1].scope == Some(|st.scopes|)
            && r.scopes[env.scope] == Define(Define(sc, initName, id + 1), c.name, id)
  {
    var id := |st.symbols|;
    var st1 := NewSlot(st, NewSymbol(ConnectorSym, c.flags, c.name, env.pkgID, Some(OwnerOf(st, env)), NoType));
    var st2 := st1.(nodeSymbol := st1.nodeSymbol[c.id := id]);
    var init := ConnectorInit(c);
    var st3 := st2.(initFunctions := st2.initFunctions[c.id := init]);
    var st4 := VisitFunction(st3, rt, init, env);
    VisitFunctionSymbol(st3, rt, init, env);
    VisitFunctionScopes(st3, rt, init, env);
    VisitFunctionGrows(st3, rt, init, env);
    DefineSymbolGuarded(st4, c.id, id, env);
  }

  /** visit(service), the initialiser: as for a connector. */
  lemma VisitServiceInit(st: PassState, rt: Resolver, s: ServiceNode, env: Env)
    requires env.scope < |st.scopes|
    ensures var r := VisitService(st, rt, s, env);
            && s.id in r.nodeSymbol && r.nodeSymbol[s.id] == |st.symbols|
            && s.id in r.initFunctions && r.initFunctions[s.id] == ServiceInit(s)
  {
    var id := |st.symbols|;
    var st1 := NewSlot(st, NewSymbol(ServiceSym, s.flags, s.name, env.pkgID, Some(OwnerOf(st, env)), NoType));
    var st2 := st1.(nodeSymbol := st1.nodeSymbol[s.id := id]);
    var init := ServiceInit(s);
    var st3 := st2.(initFunctions := st2.initFunctions[s.id := init]);
    VisitFunctionNodeFrame(st3, rt, init, env, s.id);
    VisitFunctionTables(st3, rt, init, env);
  }

  /** visit(service), the order: as for a connector, the initialiser is
      defined before the service. */
  lemma VisitServiceOrder(st: PassState, rt: Resolver, s: ServiceNode, env: Env)
    requires env.scope < |st.scopes|
    ensures var r := VisitService(st, rt, s, env);
            var id := |st.symbols|;
            var sc := st.scopes[env.scope];
            var initName := s.name + INIT_FUNCTION_SUFFIX;
            && r.symbols[id].kind == ServiceSym && r.symbols[id].name == s.name
            && r.symbols[id].flags == s.flags && r.symbols[id].owner == Some(sc.owner)
            && r.symbols[id].scope == Some(|st.scopes| + 1)
            && r.symbols[id + 1].kind == FunctionSym && r.symbols[id + 1].name == initName
            && r.symbols[id + 1].scope == Some(|st.scopes|)
            && r.scopes[env.scope] == Define(Define(sc, initName, id + 1), s.name, id)
  {
    var id := |st.symbols|;
    var st1 := NewSlot(st, NewSymbol(ServiceSym, s.flags, s.name, env.pkgID, Some(OwnerOf(st, env)), NoType));
    var st2 := st1.(nodeSymbol := st1.nodeSymbol[s.id := id]);
    var init := ServiceInit(s);
    var st3 := st2.(initFunctions := st2.initFunctions[s.id := init]);
    var st4 := VisitFunction(st3, rt, init, env);
    VisitFunctionSymbol(st3, rt, init, env);
    VisitFunctionScopes(st3, rt, init, env);
    VisitFunctionGrows(st3, rt, init, env);
    DefineSymbolGuarded(st4, s.id, id, env);
  }

  /** The symbols defineInvokableSymbolParams appends are the variables of
      the parameters, then of the named return bindings. */
  lemma DefineInvokableSymbolParamsNew(st: PassState, rt: Resolver, node: Invokable, id: SymbolId, fnEnv: Env)
    requires id < |st.symbols| && fnEnv.scope < |st.scopes| && st.scopes[fnEnv.scope].owner == id
    requires forall j | 0 <= j < |node.params| :: node.params[j].name != EMPTY
    ensures DefineInvokableSymbolParams(st, rt, node, id, fnEnv).symbols[|st.symbols|..]
            == VarSymbols(rt, node.params, fnEnv, id) + VarSymbols(rt, node.retParams, fnEnv, id)
  {
    var vs1, vs2 := VarSymbols(rt, node.params, fnEnv, id), VarSymbols(rt, node.retParams, fnEnv, id);
    DefineInvokableSymbolParamsSymbols(st, rt, node, id, fnEnv);
    assert st.symbols + vs1 + vs2 == st.symbols + (vs1 + vs2);
    var n, np := |st.symbols|, |node.params|;
    AppendedTail(st.symbols, vs1 + vs2, id, st.symbols[id].(
                   params := Range(n, np),
                   retParams := Range(n + np, |Named(node.retParams)|),
                   symType := InvokableType(TypesOf(rt, node.params, fnEnv), TypesOf(rt, node.retParams, fnEnv), None)));
  }

  /** Every symbol defineInvokableSymbol adds is a variable owned by the invokable. */
  lemma DefineInvokableSymbolNewVariables(st: PassState, rt: Resolver, node: Invokable, id: SymbolId, env: Env)
    requires id < |st.symbols| && env.scope < |st.scopes|
    requires forall j | 0 <= j < |node.params| :: node.params[j].name != EMPTY
    ensures var r := DefineInvokableSymbol(st, rt, node, id, env);
            forall i | |st.symbols| <= i < |r.symbols| :: r.symbols[i].kind == VariableSym && r.symbols[i].owner == Some(id)
  {
    var st2 := DefineSymbol(st.(nodeSymbol := st.nodeSymbol[node.id := id]), node.id, id, env);
    var fnEnv := Env(|st.scopes|, env.pkgID);
    var r := DefineInvokableSymbol(st, rt, node, id, env);
    DefineInvokableSymbolSteps(st, rt, node, id, env);
    DefineInvokableSymbolParamsNew(st2, rt, node, id, fnEnv);
    VarSymbolsAreVariables(rt, node.params, fnEnv, id);
    VarSymbolsAreVariables(rt, node.retParams, fnEnv, id);
    forall i | |st.symbols| <= i < |r.symbols|
      ensures r.symbols[i].kind == VariableSym && r.symbols[i].owner == Some(id)
    {
      assert r.symbols[i] == r.symbols[|st.symbols|..][i - |st.symbols|];
    }
  }

  /** Every symbol of kind `kind` added between the two states is public. */
  ghost predicate NewOfKindPublic(st: PassState, r: PassState, kind: SymKind)
  {
    forall i | |st.symbols| <= i < |r.symbols| && r.symbols[i].kind == kind :: Public in r.symbols[i].flags
  }

  /** visit(action) and visit(resource): the member symbol takes the next
      handle with the member's own kind and flags; every other symbol added
      is one of its parameters. */
  lemma VisitMemberShape(st: PassState, rt: Resolver, kind: SymKind, a: Invokable, env: Env)
    requires env.scope < |st.scopes| && WellFormedInvokable(a)
    ensures var r := VisitMember(st, rt, kind, a, env);
            && r.symbols[|st.symbols|].kind == kind && r.symbols[|st.symbols|].flags == a.flags
            && r.symbols[|st.symbols|].name == a.name
            && forall i | |st.symbols| < i < |r.symbols| :: r.symbols[i].kind == VariableSym
  {
    var id := |st.symbols|;
    var st1 := NewSlot(st, NewSymbol(kind, a.flags, a.name, env.pkgID, Some(OwnerOf(st, env)), NoType));
    DefineInvokableSymbolSignature(st1, rt, a, id, env);
    DefineInvokableSymbolNewVariables(st1, rt, a, id, env);
  }

  /** Visiting public members of a non-variable kind adds only public symbols of that kind. */
  lemma {:induction false} VisitMembersPublic(st: PassState, rt: Resolver, kind: SymKind, fs: seq<Invokable>, env: Env)
    requires env.scope < |st.scopes| && forall j | 0 <= j < |fs| :: WellFormedInvokable(fs[j])
    requires kind != VariableSym && forall j | 0 <= j < |fs| :: Public in fs[j].flags
    ensures NewOfKindPublic(st, VisitMembers(st, rt, kind, fs, env), kind)
  {
    if fs != [] {
      var k := |fs| - 1;
      var r0 := VisitMembers(st, rt, kind, fs[..k], env);
      var r := VisitMember(r0, rt, kind, fs[k], env);
      VisitMembersPublic(st, rt, kind, fs[..k], env);
      VisitMemberGrows(r0, rt, kind, fs[k], env);
      VisitMemberShape(r0, rt, kind, fs[k], env);
      assert VisitMembers(st, rt, kind, fs, env) == r;
      forall i | |st.symbols| <= i < |r.symbols| && r.symbols[i].kind == kind
        ensures Public in r.symbols[i].flags
      {
        if i < |r0.symbols| {
          assert SameIdentity(r0.symbols[i], r.symbols[i]);
        }
      }
    }
  }

  /** defineActions, for one connector: every action symbol it adds is public. */
  lemma DefineActionsOfPublic(st: PassState, rt: Resolver, c: ConnectorNode, env: Env)
    requires WellFormedConnector(c)
    ensures NewOfKindPublic(st, DefineActionsOf(st, rt, c, env), ActionSym)
  {
    match NodeScope(st, c.id)
    case None =>
    case Some((_, sc)) =>
      VisitMembersPublic(st, rt, ActionSym, PublicInvokables(c.actions), Env(sc, env.pkgID));
  }

  /** defineActions: every action symbol the stage adds is public. */
  lemma {:induction false} DefineActionsPublic(st: PassState, rt: Resolver, cs: seq<ConnectorNode>, env: Env)
    requires forall j | 0 <= j < |cs| :: WellFormedConnector(cs[j])
    ensures NewOfKindPublic(st, DefineActions(st, rt, cs, env), ActionSym)
  {
    if cs != [] {
      var k := |cs| - 1;
      var r0 := DefineActions(st, rt, cs[..k], env);
      DefineActionsPublic(st, rt, cs[..k], env);
      DefineActionsOfKeeps(r0, rt, cs[k], env);
      DefineActionsOfPublic(r0, rt, cs[k], env);
    }
  }

  lemma NewOfKindPublicTrans(s0: PassState, s1: PassState, s2: PassState, kind: SymKind)
    requires NewOfKindPublic(s0, s1, kind) && NewOfKindPublic(s1, s2, kind) && Grows(s1, s2) && |s0.symbols| <= |s1.symbols|
    ensures NewOfKindPublic(s0, s2, kind)
  {
    forall i | |s0.symbols| <= i < |s2.symbols| && s2.symbols[i].kind == kind
      ensures Public in s2.symbols[i].flags
    {
      if i < |s1.symbols| {
        assert SameIdentity(s1.symbols[i], s2.symbols[i]);
      }
    }
  }

  /** visit(service) adds exactly two symbols: the service and its initialiser. */
  lemma VisitServiceAdds(st: PassState, rt: Resolver, s: ServiceNode, env: Env)
    requires env.scope < |st.scopes|
    ensures var r := VisitService(st, rt, s, env);
            && |r.symbols| == |st.symbols| + 2
            && r.symbols[|st.symbols|].kind == ServiceSym && r.symbols[|st.symbols| + 1].kind == FunctionSym
  {
    VisitServiceOrder(st, rt, s, env);
    assert Named([]) == [];
  }

  /** defineServices, for one service: every resource symbol it adds is public. */
  lemma DefineServiceOfPublic(st: PassState, rt: Resolver, s: ServiceNode, env: Env)
    requires env.scope < |st.scopes| && WellFormedService(s)
    ensures NewOfKindPublic(st, DefineServiceOf(st, rt, s, env), ResourceSym)
  {
    var st1 := VisitService(st, rt, s, env);
    VisitServiceAdds(st, rt, s, env);
    assert NewOfKindPublic(st, st1, ResourceSym);
    match NodeScope(st1, s.id)
    case None =>
    case Some((_, sc)) =>
      var fs := PublicInvokables(s.resources);
      VisitMembersPublic(st1, rt, ResourceSym, fs, Env(sc, env.pkgID));
      VisitMembersGrows(st1, rt, ResourceSym, fs, Env(sc, env.pkgID));
      NewOfKindPublicTrans(st, st1, DefineServiceOf(st, rt, s, env), ResourceSym);
  }

  /** defineServices: every resource symbol the stage adds is public. */
  lemma {:induction false} DefineServicesPublic(st: PassState, rt: Resolver, ss: seq<ServiceNode>, env: Env)
    requires env.scope < |st.scopes| && forall j | 0 <= j < |ss| :: WellFormedService(ss[j])
    ensures NewOfKindPublic(st, DefineServices(st, rt, ss, env), ResourceSym)
  {
    if ss != [] {
      var k := |ss| - 1;
      var r0 := DefineServices(st, rt, ss[..k], env);
      DefineServicesPublic(st, rt, ss[..k], env);
      DefineServiceOfGrows(r0, rt, ss[k], env);
      DefineServiceOfPublic(r0, rt, ss[k], env);
      NewOfKindPublicTrans(st, r0, DefineServices(st, rt, ss, env), ResourceSym);
    }
  }

  /** The package symbol: the next handle, a package symbol named after the
      package's identity (the default package when there is no package
      declaration) and owned by the root package; the package node is given
      it, and its environment is recorded as the package's own fresh scope. */
  lemma EnterPackageEffect(st: PassState, decl: Option<PackageDecl>, pkgNodeId: NodeId)
    ensures var r := EnterPackage(st, decl, pkgNodeId);
            var p := |st.symbols|;
            var pid := PackageIdOf(decl);
            && r.symbols[p].kind == PackageSym && r.symbols[p].pkgID == pid
            && r.symbols[p].name == PackageName(pid) && r.symbols[p].owner == Some(ROOT_PKG)
            && r.symbols[p].scope == Some(|st.scopes|) && r.scopes[|st.scopes|] == Scope(p, map[])
            && r.nodeSymbol == st.nodeSymbol[pkgNodeId := p]
            && r.packageEnvs == st.packageEnvs[p := Env(|st.scopes|, pid)]
            && r.scopes[..|st.scopes|] == st.scopes && r.symbols[..p] == st.symbols
            && r.diagnostics == st.diagnostics
  {
  }

  /** The stages after the package symbol only add. */
  lemma StagesGrow(st: PassState, rt: Resolver, ld: Loader, b: PackageNodes.Buckets, pkgNodeId: NodeId)
    requires WellFormedBuckets(b)
    ensures Grows(EnterPackage(st, b.pkgDecl, pkgNodeId), VisitPackage(st, rt, ld, b, pkgNodeId))
  {
    var pid := PackageIdOf(b.pkgDecl);
    var pkgEnv := Env(|st.scopes|, pid);
    var st1 := EnterPackage(st, b.pkgDecl, pkgNodeId);
    var st2 := DefineTypeStages(st1, rt, ld, b, pkgEnv);
    var st3 := DefineMemberStages(st2, rt, b, pkgEnv);
    DefineTypeStagesKeeps(st1, rt, ld, b, pkgEnv);
    DefineMemberStagesGrows(st2, rt, b, pkgEnv);
    DefineGlobalStagesKeeps(st3, rt, pkgNodeId, PackageName(pid), b.globalVars, pkgEnv);
    GrowsTrans(st1, st2, st3);
    GrowsTrans(st1, st3, VisitPackage(st, rt, ld, b, pkgNodeId));
  }

  /** Symbol `p` is the package `pid`, named after it and owned by the root
      package, and scope `s` is the package's own. */
  ghost predicate PackageSymbolAt(r: PassState, p: SymbolId, s: ScopeId, pid: PackageID)
  {
    && p < |r.symbols| && s < |r.scopes|
    && r.symbols[p].kind == PackageSym && r.symbols[p].pkgID == pid
    && r.symbols[p].name == PackageName(pid) && r.symbols[p].owner == Some(ROOT_PKG)
    && r.scopes[s].owner == p
  }

  /** visit(package), the package symbol: after every stage it is still the
      package symbol of the package's identity, owned by the root package,
      and it still owns the package's scope. */
  lemma VisitPackageSymbol(st: PassState, rt: Resolver, ld: Loader, b: PackageNodes.Buckets, pkgNodeId: NodeId)
    requires WellFormedBuckets(b)
    ensures PackageSymbolAt(VisitPackage(st, rt, ld, b, pkgNodeId), |st.symbols|, |st.scopes|, PackageIdOf(b.pkgDecl))
  {
    var st1 := EnterPackage(st, b.pkgDecl, pkgNodeId);
    var r := VisitPackage(st, rt, ld, b, pkgNodeId);
    EnterPackageEffect(st, b.pkgDecl, pkgNodeId);
    StagesGrow(st, rt, ld, b, pkgNodeId);
    assert SameIdentity(st1.symbols[|st.symbols|], r.symbols[|st.symbols|]);
  }

  /** visit(package), the package initialiser: the last stage records, for
      the package node, the initialiser named after the package whose body
      defines the package-level variables in order. */
  lemma VisitPackageInit(st: PassState, rt: Resolver, ld: Loader, b: PackageNodes.Buckets, pkgNodeId: NodeId)
    requires WellFormedBuckets(b)
    ensures var r := VisitPackage(st, rt, ld, b, pkgNodeId);
            var pid := PackageIdOf(b.pkgDecl);
            pkgNodeId in r.initFunctions && r.initFunctions[pkgNodeId] == PackageInit(pkgNodeId, PackageName(pid), b.globalVars)
  {
    var pid := PackageIdOf(b.pkgDecl);
    VisitPackageIs(st, rt, ld, b, pkgNodeId);
    GlobalStagesInit(PackageMembers(st, rt, ld, b, pkgNodeId), rt, pkgNodeId, PackageName(pid), b.globalVars, Env(|st.scopes|, pid));
  }

  /** The state visit(package) reaches before the package-level variables. */
  ghost function PackageMembers(st: PassState, rt: Resolver, ld: Loader, b: PackageNodes.Buckets, pkgNodeId: NodeId): (r: PassState)
    requires WellFormedBuckets(b)
    ensures |st.scopes| < |r.scopes|
  {
    var pkgEnv := Env(|st.scopes|, PackageIdOf(b.pkgDecl));
    DefineMemberStages(DefineTypeStages(EnterPackage(st, b.pkgDecl, pkgNodeId), rt, ld, b, pkgEnv), rt, b, pkgEnv)
  }

  lemma VisitPackageIs(st: PassState, rt: Resolver, ld: Loader, b: PackageNodes.Buckets, pkgNodeId: NodeId)
    requires WellFormedBuckets(b)
    ensures var pid := PackageIdOf(b.pkgDecl);
            VisitPackage(st, rt, ld, b, pkgNodeId)
              == DefineGlobalStages(PackageMembers(st, rt, ld, b, pkgNodeId), rt, pkgNodeId, PackageName(pid), b.globalVars, Env(|st.scopes|, pid))
  {
  }

  /** The last stage records the package initialiser built from the globals. */
  lemma GlobalStagesInit(st: PassState, rt: Resolver, pkgNodeId: NodeId, pkgName: Name, globals: seq<VarNode>, pkgEnv: Env)
    requires pkgEnv.scope < |st.scopes|
    ensures var r := DefineGlobalStages(st, rt, pkgNodeId, pkgName, globals, pkgEnv);
            pkgNodeId in r.initFunctions && r.initFunctions[pkgNodeId] == PackageInit(pkgNodeId, pkgName, globals)
  {
    var st1 := VisitVariables(st, rt, globals, pkgEnv);
    var init := PackageInit(pkgNodeId, pkgName, globals);
    VisitFunctionTables(st1.(initFunctions := st1.initFunctions[pkgNodeId := init]), rt, init, pkgEnv);
  }


  /** visit(import): the node is given the loaded package's symbol, a new one
      on the package's first load; the alias is bound to it in the current
      scope only if the alias is unbound, and otherwise that scope is left as
      it was; no diagnostic is reported either way, and no other scope changes. */
  lemma VisitImportEffect(st: PassState, ld: Loader, imp: ImportNode, env: Env)
    requires env.scope < |st.scopes|
    ensures var r := VisitImport(st, ld, imp, env);
            var pid := ld(imp.nameComps, imp.version);
            var sid := r.pkgSymbols[pid];
            var sc := st.scopes[env.scope];
            && pid in r.pkgSymbols
            && (pid in st.pkgSymbols ==> sid == st.pkgSymbols[pid] && r.symbols == st.symbols)
            && (pid !in st.pkgSymbols ==> sid == |st.symbols| && r.symbols[sid].kind == PackageSym && r.symbols[sid].pkgID == pid)
            && r.nodeSymbol == st.nodeSymbol[imp.id := sid]
            && (imp.alias !in sc.entries ==> r.scopes[env.scope] == sc.(entries := sc.entries[imp.alias := sid]))
            && (imp.alias in sc.entries ==> r.scopes[env.scope] == sc)
            && (forall i | 0 <= i < |st.scopes| && i != env.scope :: r.scopes[i] == st.scopes[i])
            && r.diagnostics == st.diagnostics
  {
  }
}
