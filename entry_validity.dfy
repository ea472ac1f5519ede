/** The structural invariants of the pass state: every handle the state
    holds points into the arenas, each defined symbol owns its own scope, and
    the pass only ever adds (no scope loses or rebinds a name, no symbol
    changes its identity, no diagnostic is withdrawn). Each operation of the
    pass is proved to keep them. */
module EntryValidity {
  import opened Base
  import opened Ast
  import opened Symbols
  import opened InitFunctions
  import opened EntrySpec
  import PackageNodes

  ghost predicate ScopeIn(sc: Scope, nSymbols: nat)
  {
    sc.owner < nSymbols && forall n | n in sc.entries :: sc.entries[n] < nSymbols
  }

  ghost predicate SymbolIn(s: Symbol, nSymbols: nat, nScopes: nat)
  {
    && (s.owner.Some? ==> s.owner.value < nSymbols)
    && (s.scope.Some? ==> s.scope.value < nScopes)
    && (forall j | 0 <= j < |s.params| :: s.params[j] < nSymbols)
    && (forall j | 0 <= j < |s.retParams| :: s.retParams[j] < nSymbols)
    && (s.receiverSymbol.Some? ==> s.receiverSymbol.value < nSymbols)
  }

  /** No dangling handle, and every defined symbol owns its scope. */
  ghost predicate ValidState(st: PassState)
  {
    && |st.symbols| > 0 && |st.scopes| > 0
    && (forall i | 0 <= i < |st.scopes| :: ScopeIn(st.scopes[i], |st.symbols|))
    && (forall i | 0 <= i < |st.symbols| :: SymbolIn(st.symbols[i], |st.symbols|, |st.scopes|))
    && (forall i | 0 <= i < |st.symbols| && st.symbols[i].scope.Some? :: st.scopes[st.symbols[i].scope.value].owner == i)
    && (forall k | k in st.nodeSymbol :: st.nodeSymbol[k] < |st.symbols|)
    && (forall p | p in st.pkgSymbols :: st.pkgSymbols[p] < |st.symbols|)
    && (forall p | p in st.packageEnvs :: p < |st.symbols| && st.packageEnvs[p].scope < |st.scopes|)
  }

  /** What a symbol is once created: kind, flags, name, package and owner. */
  predicate SameIdentity(a: Symbol, b: Symbol)
  {
    a.kind == b.kind && a.flags == b.flags && a.name == b.name && a.pkgID == b.pkgID && a.owner == b.owner
  }

  /** The pass only ever adds. */
  ghost predicate Grows(st: PassState, r: PassState)
  {
    && |st.symbols| <= |r.symbols|
    && (forall i | 0 <= i < |st.symbols| :: SameIdentity(st.symbols[i], r.symbols[i]))
    && ScopesGrow(st.scopes, r.scopes)
    && st.diagnostics <= r.diagnostics
  }

  lemma GrowsTrans(s0: PassState, s1: PassState, s2: PassState)
    requires Grows(s0, s1) && Grows(s1, s2)
    ensures Grows(s0, s2)
  {
    ScopesGrowTrans(s0.scopes, s1.scopes, s2.scopes);
  }

  lemma InitialStateValid()
    ensures ValidState(InitialState())
  {
  }

  // Helpers: the primitive changes the operations are made of.

  lemma UpdateSymbolValid(st: PassState, id: SymbolId, s: Symbol)
    requires ValidState(st) && id < |st.symbols| && SymbolIn(s, |st.symbols|, |st.scopes|)
    requires s.scope == st.symbols[id].scope
    ensures ValidState(st.(symbols := st.symbols[id := s]))
  {
    var r := st.(symbols := st.symbols[id := s]);
    forall i | 0 <= i < |r.symbols| && i != id
      ensures r.symbols[i] == st.symbols[i]
    {
    }
  }

  lemma UpdateSymbolGrows(st: PassState, id: SymbolId, s: Symbol)
    requires id < |st.symbols| && SameIdentity(st.symbols[id], s)
    ensures Grows(st, st.(symbols := st.symbols[id := s]))
  {
  }

  lemma NewSlotValid(st: PassState, s: Symbol)
    requires ValidState(st) && SymbolIn(s, |st.symbols| + 1, |st.scopes|) && s.scope.None?
    ensures ValidState(NewSlot(st, s)) && Grows(st, NewSlot(st, s))
  {
  }

  // One pair of lemmas per operation: it only adds, and it keeps the invariants.

  lemma DefineSymbolGrows(st: PassState, pos: NodeId, id: SymbolId, env: Env)
    requires id < |st.symbols| && env.scope < |st.scopes|
    ensures Grows(st, DefineSymbol(st, pos, id, env))
  {
  }

  lemma DefineSymbolValid(st: PassState, pos: NodeId, id: SymbolId, env: Env)
    requires id < |st.symbols| && env.scope < |st.scopes| && ValidState(st)
    ensures ValidState(DefineSymbol(st, pos, id, env))
  {
    var r := DefineSymbol(st, pos, id, env);
    assert forall i | 0 <= i < |st.symbols| && i != id :: r.symbols[i] == st.symbols[i];
    assert forall i | 0 <= i < |st.scopes| && i != env.scope :: r.scopes[i] == st.scopes[i];
  }

  lemma DefineVarSymbolGrows(st: PassState, pos: NodeId, flags: set<Flag>, t: Type, name: Name, env: Env)
    requires env.scope < |st.scopes|
    ensures Grows(st, DefineVarSymbol(st, pos, flags, t, name, env))
  {
  }

  lemma DefineVarSymbolValid(st: PassState, pos: NodeId, flags: set<Flag>, t: Type, name: Name, env: Env)
    requires env.scope < |st.scopes| && ValidState(st)
    ensures ValidState(DefineVarSymbol(st, pos, flags, t, name, env))
  {
    var r := DefineVarSymbol(st, pos, flags, t, name, env);
    assert forall i | 0 <= i < |st.scopes| && i != env.scope :: r.scopes[i] == st.scopes[i];
  }

  lemma VisitVariableGrows(st: PassState, rt: Resolver, v: VarNode, env: Env)
    requires env.scope < |st.scopes|
    ensures Grows(st, VisitVariable(st, rt, v, env))
  {
    var st1 := st.(nodeType := st.nodeType[v.id := rt(v.typeNode, env)]);
    if v.name != EMPTY {
      DefineVarSymbolGrows(st1, v.id, v.flags, rt(v.typeNode, env), v.name, env);
    }
  }

  lemma VisitVariableValid(st: PassState, rt: Resolver, v: VarNode, env: Env)
    requires env.scope < |st.scopes| && ValidState(st)
    ensures ValidState(VisitVariable(st, rt, v, env))
  {
    var st1 := st.(nodeType := st.nodeType[v.id := rt(v.typeNode, env)]);
    if v.name != EMPTY {
      DefineVarSymbolValid(st1, v.id, v.flags, rt(v.typeNode, env), v.name, env);
    }
  }

  lemma {:induction false} VisitVariablesGrows(st: PassState, rt: Resolver, vs: seq<VarNode>, env: Env)
    requires env.scope < |st.scopes|
    ensures Grows(st, VisitVariables(st, rt, vs, env))
  {
    if vs != [] {
      var k := |vs| - 1;
      var st1 := VisitVariables(st, rt, vs[..k], env);
      VisitVariablesGrows(st, rt, vs[..k], env);
      VisitVariableGrows(st1, rt, vs[k], env);
      GrowsTrans(st, st1, VisitVariable(st1, rt, vs[k], env));
    }
  }

  lemma {:induction false} VisitVariablesValid(st: PassState, rt: Resolver, vs: seq<VarNode>, env: Env)
    requires env.scope < |st.scopes| && ValidState(st)
    ensures ValidState(VisitVariables(st, rt, vs, env))
  {
    if vs != [] {
      var k := |vs| - 1;
      VisitVariablesValid(st, rt, vs[..k], env);
      VisitVariableValid(VisitVariables(st, rt, vs[..k], env), rt, vs[k], env);
    }
  }

  /** The symbol an invokable ends up with, given the state after its parameters. */
  function CompletedInvokable(st: PassState, st2: PassState, rt: Resolver, node: Invokable, id: SymbolId, fnEnv: Env): Symbol
    requires id < |st2.symbols|
  {
    st2.symbols[id].(
      params := Range(|st.symbols|, |node.params|),
      retParams := Range(|st.symbols| + |node.params|, |Named(node.retParams)|),
      symType := InvokableType(TypesOf(rt, node.params, fnEnv), TypesOf(rt, node.retParams, fnEnv), None))
  }

  lemma DefineInvokableSymbolParamsShape(st: PassState, rt: Resolver, node: Invokable, id: SymbolId, fnEnv: Env)
    requires id < |st.symbols| && fnEnv.scope < |st.scopes|
    requires forall j | 0 <= j < |node.params| :: node.params[j].name != EMPTY
    ensures var st2 := VisitVariables(VisitVariables(st, rt, node.params, fnEnv), rt, node.retParams, fnEnv);
            DefineInvokableSymbolParams(st, rt, node, id, fnEnv)
              == st2.(symbols := st2.symbols[id := CompletedInvokable(st, st2, rt, node, id, fnEnv)])
  {
  }

  lemma SignatureRecorded(st: PassState, rt: Resolver, node: Invokable, id: SymbolId, fnEnv: Env)
    requires id < |st.symbols| && fnEnv.scope < |st.scopes|
    requires forall j | 0 <= j < |node.params| :: node.params[j].name != EMPTY
    ensures DefineInvokableSymbolParams(st, rt, node, id, fnEnv)
      == CompleteSignature(VisitVariables(VisitVariables(st, rt, node.params, fnEnv), rt, node.retParams, fnEnv), |st.symbols|, rt, node, id, fnEnv)
  {
  }

  lemma CompleteSignatureOf(st: PassState, n: nat, m: nat, rt: Resolver, node: Invokable, id: SymbolId, fnEnv: Env,
                             ps: seq<SymbolId>, rps: seq<SymbolId>, t: Type)
    requires id < |st.symbols| && m == n + |node.params|
    requires ps == Range(n, |node.params|) && rps == Range(m, |Named(node.retParams)|)
    requires t == InvokableType(TypesOf(rt, node.params, fnEnv), TypesOf(rt, node.retParams, fnEnv), None)
    ensures CompleteSignature(st, n, rt, node, id, fnEnv) == RecordSignature(st, id, ps, rps, t)
  {
  }

  lemma DefineInvokableSymbolParamsGrows(st: PassState, rt: Resolver, node: Invokable, id: SymbolId, fnEnv: Env)
    requires id < |st.symbols| && fnEnv.scope < |st.scopes|
    requires forall j | 0 <= j < |node.params| :: node.params[j].name != EMPTY
    ensures Grows(st, DefineInvokableSymbolParams(st, rt, node, id, fnEnv))
  {
    var st1 := VisitVariables(st, rt, node.params, fnEnv);
    var st2 := VisitVariables(st1, rt, node.retParams, fnEnv);
    VisitVariablesGrows(st, rt, node.params, fnEnv);
    VisitVariablesGrows(st1, rt, node.retParams, fnEnv);
    GrowsTrans(st, st1, st2);
    DefineInvokableSymbolParamsShape(st, rt, node, id, fnEnv);
    var fs := CompletedInvokable(st, st2, rt, node, id, fnEnv);
    UpdateSymbolGrows(st2, id, fs);
    GrowsTrans(st, st2, st2.(symbols := st2.symbols[id := fs]));
  }

  lemma DefineInvokableSymbolParamsValid(st: PassState, rt: Resolver, node: Invokable, id: SymbolId, fnEnv: Env)
    requires id < |st.symbols| && fnEnv.scope < |st.scopes| && ValidState(st)
    requires forall j | 0 <= j < |node.params| :: node.params[j].name != EMPTY
    ensures ValidState(DefineInvokableSymbolParams(st, rt, node, id, fnEnv))
  {
    var st1 := VisitVariables(st, rt, node.params, fnEnv);
    var st2 := VisitVariables(st1, rt, node.retParams, fnEnv);
    VisitVariablesValid(st, rt, node.params, fnEnv);
    VisitVariablesValid(st1, rt, node.retParams, fnEnv);
    NamedAll(node.params);
    DefineInvokableSymbolParamsShape(st, rt, node, id, fnEnv);
    UpdateSymbolValid(st2, id, CompletedInvokable(st, st2, rt, node, id, fnEnv));
  }

  lemma DefineInvokableSymbolGrows(st: PassState, rt: Resolver, node: Invokable, id: SymbolId, env: Env)
    requires id < |st.symbols| && env.scope < |st.scopes|
    requires forall j | 0 <= j < |node.params| :: node.params[j].name != EMPTY
    ensures Grows(st, DefineInvokableSymbol(st, rt, node, id, env))
  {
    var st1 := st.(nodeSymbol := st.nodeSymbol[node.id := id]);
    var st2 := DefineSymbol(st1, node.id, id, env);
    DefineSymbolGrows(st1, node.id, id, env);
    DefineInvokableSymbolParamsGrows(st2, rt, node, id, Env(|st.scopes|, env.pkgID));
    GrowsTrans(st1, st2, DefineInvokableSymbol(st, rt, node, id, env));
  }

  lemma DefineInvokableSymbolValid(st: PassState, rt: Resolver, node: Invokable, id: SymbolId, env: Env)
    requires id < |st.symbols| && env.scope < |st.scopes| && ValidState(st)
    requires forall j | 0 <= j < |node.params| :: node.params[j].name != EMPTY
    ensures ValidState(DefineInvokableSymbol(st, rt, node, id, env))
  {
    var st1 := st.(nodeSymbol := st.nodeSymbol[node.id := id]);
    DefineSymbolValid(st1, node.id, id, env);
    DefineInvokableSymbolParamsValid(DefineSymbol(st1, node.id, id, env), rt, node, id, Env(|st.scopes|, env.pkgID));
  }

  lemma ValidateFuncReceiverKeeps(st: PassState, rt: Resolver, f: Invokable, env: Env)
    ensures Grows(st, ValidateFuncReceiver(st, rt, f, env))
    ensures ValidState(st) ==> ValidState(ValidateFuncReceiver(st, rt, f, env))
  {
  }

  /** The function symbol once its receiver is recorded. */
  function WithReceiver(fs: Symbol, rid: SymbolId, rsym: Symbol): Symbol
    requires fs.symType.InvokableType?
  {
    fs.(receiverSymbol := Some(rid), symType := fs.symType.(receiverType := Some(rsym.symType)))
  }

  lemma DefineReceiverGrows(st: PassState, rt: Resolver, f: Invokable, id: SymbolId, rtype: Type, fnEnv: Env)
    requires f.receiver.Some? && f.receiver.value.name != EMPTY
    requires id < |st.symbols| && fnEnv.scope < |st.scopes| && st.symbols[id].symType.InvokableType?
    ensures Grows(st, DefineReceiver(st, rt, f, id, rtype, fnEnv))
  {
    var st1 := st.(diagnostics := st.diagnostics + FieldClash(st, f, rtype));
    var st2 := VisitVariable(st1, rt, f.receiver.value, fnEnv);
    VisitVariableGrows(st1, rt, f.receiver.value, fnEnv);
    var fs' := WithReceiver(st2.symbols[id], |st.symbols|, st2.symbols[|st.symbols|]);
    UpdateSymbolGrows(st2, id, fs');
    GrowsTrans(st1, st2, st2.(symbols := st2.symbols[id := fs']));
  }

  lemma DefineReceiverValid(st: PassState, rt: Resolver, f: Invokable, id: SymbolId, rtype: Type, fnEnv: Env)
    requires f.receiver.Some? && f.receiver.value.name != EMPTY && ValidState(st)
    requires id < |st.symbols| && fnEnv.scope < |st.scopes| && st.symbols[id].symType.InvokableType?
    ensures ValidState(DefineReceiver(st, rt, f, id, rtype, fnEnv))
  {
    var st1 := st.(diagnostics := st.diagnostics + FieldClash(st, f, rtype));
    var st2 := VisitVariable(st1, rt, f.receiver.value, fnEnv);
    VisitVariableValid(st1, rt, f.receiver.value, fnEnv);
    UpdateSymbolValid(st2, id, WithReceiver(st2.symbols[id], |st.symbols|, st2.symbols[|st.symbols|]));
  }

  lemma VisitFunctionGrows(st: PassState, rt: Resolver, f: Invokable, env: Env)
    requires env.scope < |st.scopes| && WellFormedInvokable(f)
    ensures Grows(st, VisitFunction(st, rt, f, env))
  {
    var rtype := ReceiverType(rt, f, env);
    var st1 := ValidateFuncReceiver(st, rt, f, env);
    var id := |st1.symbols|;
    var st2 := NewSlot(st1, NewSymbol(FunctionSym, f.flags, FuncSymbolName(f.name, rtype), env.pkgID, Some(OwnerOf(st1, env)), NoType));
    var st3 := DefineInvokableSymbol(st2, rt, f, id, env);
    ValidateFuncReceiverKeeps(st, rt, f, env);
    DefineInvokableSymbolGrows(st2, rt, f, id, env);
    GrowsTrans(st1, st2, st3);
    GrowsTrans(st, st1, st3);
    if f.receiver.Some? {
      DefineReceiverGrows(st3, rt, f, id, rtype.value, Env(|st2.scopes|, env.pkgID));
      GrowsTrans(st, st3, VisitFunction(st, rt, f, env));
    }
  }

  lemma VisitFunctionValid(st: PassState, rt: Resolver, f: Invokable, env: Env)
    requires env.scope < |st.scopes| && WellFormedInvokable(f) && ValidState(st)
    ensures ValidState(VisitFunction(st, rt, f, env))
  {
    var rtype := ReceiverType(rt, f, env);
    var st1 := ValidateFuncReceiver(st, rt, f, env);
    var id := |st1.symbols|;
    var s := NewSymbol(FunctionSym, f.flags, FuncSymbolName(f.name, rtype), env.pkgID, Some(OwnerOf(st1, env)), NoType);
    var st2 := NewSlot(st1, s);
    ValidateFuncReceiverKeeps(st, rt, f, env);
    NewSlotValid(st1, s);
    DefineInvokableSymbolValid(st2, rt, f, id, env);
    if f.receiver.Some? {
      DefineReceiverValid(DefineInvokableSymbol(st2, rt, f, id, env), rt, f, id, rtype.value, Env(|st2.scopes|, env.pkgID));
    }
  }

  lemma VisitMemberGrows(st: PassState, rt: Resolver, kind: SymKind, a: Invokable, env: Env)
    requires env.scope < |st.scopes| && WellFormedInvokable(a)
    ensures Grows(st, VisitMember(st, rt, kind, a, env))
  {
    var st1 := NewSlot(st, NewSymbol(kind, a.flags, a.name, env.pkgID, Some(OwnerOf(st, env)), NoType));
    DefineInvokableSymbolGrows(st1, rt, a, |st.symbols|, env);
  }

  lemma VisitMemberValid(st: PassState, rt: Resolver, kind: SymKind, a: Invokable, env: Env)
    requires env.scope < |st.scopes| && WellFormedInvokable(a) && ValidState(st)
    ensures ValidState(VisitMember(st, rt, kind, a, env))
  {
    var s := NewSymbol(kind, a.flags, a.name, env.pkgID, Some(OwnerOf(st, env)), NoType);
    NewSlotValid(st, s);
    DefineInvokableSymbolValid(NewSlot(st, s), rt, a, |st.symbols|, env);
  }

  lemma VisitStructGrows(st: PassState, s: StructNode, env: Env)
    requires env.scope < |st.scopes|
    ensures Grows(st, VisitStruct(st, s, env))
  {
    var id := |st.symbols|;
    var st1 := NewSlot(st, NewSymbol(StructSym, s.flags, s.name, env.pkgID, Some(OwnerOf(st, env)), NoType));
    var st2 := st1.(nodeSymbol := st1.nodeSymbol[s.id := id]);
    DefineSymbolGrows(st2, s.id, id, env);
  }

  lemma VisitStructValid(st: PassState, s: StructNode, env: Env)
    requires env.scope < |st.scopes| && ValidState(st)
    ensures ValidState(VisitStruct(st, s, env))
  {
    var id := |st.symbols|;
    var sym := NewSymbol(StructSym, s.flags, s.name, env.pkgID, Some(OwnerOf(st, env)), NoType);
    NewSlotValid(st, sym);
    var st2 := NewSlot(st, sym).(nodeSymbol := NewSlot(st, sym).nodeSymbol[s.id := id]);
    DefineSymbolValid(st2, s.id, id, env);
    var st3 := DefineSymbol(st2, s.id, id, env);
    UpdateSymbolValid(st3, id, st3.symbols[id].(symType := StructType(id, s.name, env.pkgID)));
  }

  lemma VisitConnectorGrows(st: PassState, rt: Resolver, c: ConnectorNode, env: Env)
    requires env.scope < |st.scopes|
    ensures Grows(st, VisitConnector(st, rt, c, env))
  {
    var id := |st.symbols|;
    var st1 := NewSlot(st, NewSymbol(ConnectorSym, c.flags, c.name, env.pkgID, Some(OwnerOf(st, env)), NoType));
    var st3 := st1.(nodeSymbol := st1.nodeSymbol[c.id := id], initFunctions := st1.initFunctions[c.id := ConnectorInit(c)]);
    var st4 := VisitFunction(st3, rt, ConnectorInit(c), env);
    VisitFunctionGrows(st3, rt, ConnectorInit(c), env);
    DefineSymbolGrows(st4, c.id, id, env);
    GrowsTrans(st3, st4, DefineSymbol(st4, c.id, id, env));
  }

  lemma VisitConnectorValid(st: PassState, rt: Resolver, c: ConnectorNode, env: Env)
    requires env.scope < |st.scopes| && ValidState(st)
    ensures ValidState(VisitConnector(st, rt, c, env))
  {
    var id := |st.symbols|;
    var sym := NewSymbol(ConnectorSym, c.flags, c.name, env.pkgID, Some(OwnerOf(st, env)), NoType);
    NewSlotValid(st, sym);
    var st1 := NewSlot(st, sym);
    var st3 := st1.(nodeSymbol := st1.nodeSymbol[c.id := id], initFunctions := st1.initFunctions[c.id := ConnectorInit(c)]);
    VisitFunctionValid(st3, rt, ConnectorInit(c), env);
    DefineSymbolValid(VisitFunction(st3, rt, ConnectorInit(c), env), c.id, id, env);
  }

  lemma VisitServiceGrows(st: PassState, rt: Resolver, s: ServiceNode, env: Env)
    requires env.scope < |st.scopes|
    ensures Grows(st, VisitService(st, rt, s, env))
  {
    var id := |st.symbols|;
    var st1 := NewSlot(st, NewSymbol(ServiceSym, s.flags, s.name, env.pkgID, Some(OwnerOf(st, env)), NoType));
    var st3 := st1.(nodeSymbol := st1.nodeSymbol[s.id := id], initFunctions := st1.initFunctions[s.id := ServiceInit(s)]);
    var st4 := VisitFunction(st3, rt, ServiceInit(s), env);
    VisitFunctionGrows(st3, rt, ServiceInit(s), env);
    DefineSymbolGrows(st4, s.id, id, env);
    GrowsTrans(st3, st4, DefineSymbol(st4, s.id, id, env));
  }

  lemma VisitServiceValid(st: PassState, rt: Resolver, s: ServiceNode, env: Env)
    requires env.scope < |st.scopes| && ValidState(st)
    ensures ValidState(VisitService(st, rt, s, env))
  {
    var id := |st.symbols|;
    var sym := NewSymbol(ServiceSym, s.flags, s.name, env.pkgID, Some(OwnerOf(st, env)), NoType);
    NewSlotValid(st, sym);
    var st1 := NewSlot(st, sym);
    var st3 := st1.(nodeSymbol := st1.nodeSymbol[s.id := id], initFunctions := st1.initFunctions[s.id := ServiceInit(s)]);
    VisitFunctionValid(st3, rt, ServiceInit(s), env);
    DefineSymbolValid(VisitFunction(st3, rt, ServiceInit(s), env), s.id, id, env);
  }

  lemma AddPackageSymbolKeeps(st: PassState, pid: PackageID)
    ensures Grows(st, AddPackageSymbol(st, pid))
    ensures ValidState(st) ==> ValidState(AddPackageSymbol(st, pid))
  {
  }

  lemma CreatePackageSymbolKeeps(st: PassState, decl: Option<PackageDecl>, pkgNodeId: NodeId)
    ensures Grows(st, CreatePackageSymbol(st, decl, pkgNodeId))
    ensures ValidState(st) ==> ValidState(CreatePackageSymbol(st, decl, pkgNodeId))
  {
    AddPackageSymbolKeeps(st, PackageIdOf(decl));
  }

  lemma LoadedPackageKeeps(st: PassState, pid: PackageID)
    ensures Grows(st, LoadedPackage(st, pid))
    ensures ValidState(st) ==> ValidState(LoadedPackage(st, pid))
  {
    AddPackageSymbolKeeps(st, pid);
  }

  lemma VisitImportGrows(st: PassState, ld: Loader, imp: ImportNode, env: Env)
    requires env.scope < |st.scopes|
    ensures Grows(st, VisitImport(st, ld, imp, env))
  {
    var st1 := LoadedPackage(st, ld(imp.nameComps, imp.version));
    LoadedPackageKeeps(st, ld(imp.nameComps, imp.version));
    GrowsTrans(st, st1, VisitImport(st, ld, imp, env));
  }

  lemma VisitImportValid(st: PassState, ld: Loader, imp: ImportNode, env: Env)
    requires env.scope < |st.scopes| && ValidState(st)
    ensures ValidState(VisitImport(st, ld, imp, env))
  {
    var st1 := LoadedPackage(st, ld(imp.nameComps, imp.version));
    LoadedPackageKeeps(st, ld(imp.nameComps, imp.version));
    var r := VisitImport(st, ld, imp, env);
    assert forall i | 0 <= i < |st1.scopes| && i != env.scope :: r.scopes[i] == st1.scopes[i];
  }

  lemma DefineStructFieldsOfGrows(st: PassState, rt: Resolver, s: StructNode, env: Env)
    ensures Grows(st, DefineStructFieldsOf(st, rt, s, env))
  {
    match NodeScope(st, s.id)
    case None =>
    case Some((sid, sc)) =>
      var fields := MakePublic(s.fields);
      var senv := Env(sc, env.pkgID);
      var st1 := VisitVariables(st, rt, fields, senv);
      VisitVariablesGrows(st, rt, fields, senv);
      var fs := st1.symbols[sid].(fields := FieldsOf(rt, fields, senv));
      UpdateSymbolGrows(st1, sid, fs);
      GrowsTrans(st, st1, st1.(symbols := st1.symbols[sid := fs]));
  }

  lemma DefineStructFieldsOfValid(st: PassState, rt: Resolver, s: StructNode, env: Env)
    requires ValidState(st)
    ensures ValidState(DefineStructFieldsOf(st, rt, s, env))
  {
    match NodeScope(st, s.id)
    case None =>
    case Some((sid, sc)) =>
      var fields := MakePublic(s.fields);
      var senv := Env(sc, env.pkgID);
      var st1 := VisitVariables(st, rt, fields, senv);
      VisitVariablesValid(st, rt, fields, senv);
      UpdateSymbolValid(st1, sid, st1.symbols[sid].(fields := FieldsOf(rt, fields, senv)));
  }

  lemma {:induction false} VisitMembersGrows(st: PassState, rt: Resolver, kind: SymKind, fs: seq<Invokable>, env: Env)
    requires env.scope < |st.scopes| && forall j | 0 <= j < |fs| :: WellFormedInvokable(fs[j])
    ensures Grows(st, VisitMembers(st, rt, kind, fs, env))
  {
    if fs != [] {
      var k := |fs| - 1;
      var st1 := VisitMembers(st, rt, kind, fs[..k], env);
      VisitMembersGrows(st, rt, kind, fs[..k], env);
      VisitMemberGrows(st1, rt, kind, fs[k], env);
      GrowsTrans(st, st1, VisitMember(st1, rt, kind, fs[k], env));
    }
  }

  lemma {:induction false} VisitMembersValid(st: PassState, rt: Resolver, kind: SymKind, fs: seq<Invokable>, env: Env)
    requires env.scope < |st.scopes| && (forall j | 0 <= j < |fs| :: WellFormedInvokable(fs[j])) && ValidState(st)
    ensures ValidState(VisitMembers(st, rt, kind, fs, env))
  {
    if fs != [] {
      var k := |fs| - 1;
      var r0 := VisitMembers(st, rt, kind, fs[..k], env);
      VisitMembersValid(st, rt, kind, fs[..k], env);
      VisitMemberValid(r0, rt, kind, fs[k], env);
      assert VisitMembers(st, rt, kind, fs, env) == VisitMember(r0, rt, kind, fs[k], env);
    }
  }

  lemma DefineActionsOfKeeps(st: PassState, rt: Resolver, c: ConnectorNode, env: Env)
    requires WellFormedConnector(c)
    ensures Grows(st, DefineActionsOf(st, rt, c, env))
    ensures ValidState(st) ==> ValidState(DefineActionsOf(st, rt, c, env))
  {
    match NodeScope(st, c.id)
    case None =>
    case Some((_, sc)) =>
      VisitMembersGrows(st, rt, ActionSym, PublicInvokables(c.actions), Env(sc, env.pkgID));
      if ValidState(st) {
        VisitMembersValid(st, rt, ActionSym, PublicInvokables(c.actions), Env(sc, env.pkgID));
      }
  }

  lemma DefineServiceOfGrows(st: PassState, rt: Resolver, s: ServiceNode, env: Env)
    requires env.scope < |st.scopes| && WellFormedService(s)
    ensures Grows(st, DefineServiceOf(st, rt, s, env))
  {
    var st1 := VisitService(st, rt, s, env);
    VisitServiceGrows(st, rt, s, env);
    match NodeScope(st1, s.id)
    case None =>
    case Some((_, sc)) =>
      VisitMembersGrows(st1, rt, ResourceSym, PublicInvokables(s.resources), Env(sc, env.pkgID));
      GrowsTrans(st, st1, DefineServiceOf(st, rt, s, env));
  }

  lemma DefineServiceOfValid(st: PassState, rt: Resolver, s: ServiceNode, env: Env)
    requires env.scope < |st.scopes| && WellFormedService(s) && ValidState(st)
    ensures ValidState(DefineServiceOf(st, rt, s, env))
  {
    var st1 := VisitService(st, rt, s, env);
    VisitServiceValid(st, rt, s, env);
    match NodeScope(st1, s.id)
    case None =>
    case Some((_, sc)) =>
      VisitMembersValid(st1, rt, ResourceSym, PublicInvokables(s.resources), Env(sc, env.pkgID));
  }

  lemma {:induction false} DefineImportsGrows(st: PassState, ld: Loader, imps: seq<ImportNode>, env: Env)
    requires env.scope < |st.scopes|
    ensures Grows(st, DefineImports(st, ld, imps, env))
  {
    if imps != [] {
      var k := |imps| - 1;
      var st1 := DefineImports(st, ld, imps[..k], env);
      DefineImportsGrows(st, ld, imps[..k], env);
      VisitImportGrows(st1, ld, imps[k], env);
      GrowsTrans(st, st1, DefineImports(st, ld, imps, env));
    }
  }

  lemma {:induction false} DefineImportsValid(st: PassState, ld: Loader, imps: seq<ImportNode>, env: Env)
    requires env.scope < |st.scopes| && ValidState(st)
    ensures ValidState(DefineImports(st, ld, imps, env))
  {
    if imps != [] {
      var k := |imps| - 1;
      DefineImportsValid(st, ld, imps[..k], env);
      VisitImportValid(DefineImports(st, ld, imps[..k], env), ld, imps[k], env);
    }
  }

  lemma {:induction false} DefineStructsGrows(st: PassState, ss: seq<StructNode>, env: Env)
    requires env.scope < |st.scopes|
    ensures Grows(st, DefineStructs(st, ss, env))
  {
    if ss != [] {
      var k := |ss| - 1;
      var st1 := DefineStructs(st, ss[..k], env);
      DefineStructsGrows(st, ss[..k], env);
      VisitStructGrows(st1, ss[k], env);
      GrowsTrans(st, st1, DefineStructs(st, ss, env));
    }
  }

  lemma {:induction false} DefineStructsValid(st: PassState, ss: seq<StructNode>, env: Env)
    requires env.scope < |st.scopes| && ValidState(st)
    ensures ValidState(DefineStructs(st, ss, env))
  {
    if ss != [] {
      var k := |ss| - 1;
      DefineStructsValid(st, ss[..k], env);
      VisitStructValid(DefineStructs(st, ss[..k], env), ss[k], env);
    }
  }

  lemma {:induction false} DefineConnectorsGrows(st: PassState, rt: Resolver, cs: seq<ConnectorNode>, env: Env)
    requires env.scope < |st.scopes|
    ensures Grows(st, DefineConnectors(st, rt, cs, env))
  {
    if cs != [] {
      var k := |cs| - 1;
      var st1 := DefineConnectors(st, rt, cs[..k], env);
      DefineConnectorsGrows(st, rt, cs[..k], env);
      VisitConnectorGrows(st1, rt, cs[k], env);
      GrowsTrans(st, st1, DefineConnectors(st, rt, cs, env));
    }
  }

  lemma {:induction false} DefineConnectorsValid(st: PassState, rt: Resolver, cs: seq<ConnectorNode>, env: Env)
    requires env.scope < |st.scopes| && ValidState(st)
    ensures ValidState(DefineConnectors(st, rt, cs, env))
  {
    if cs != [] {
      var k := |cs| - 1;
      DefineConnectorsValid(st, rt, cs[..k], env);
      VisitConnectorValid(DefineConnectors(st, rt, cs[..k], env), rt, cs[k], env);
    }
  }

  lemma {:induction false} DefineStructFieldsGrows(st: PassState, rt: Resolver, ss: seq<StructNode>, env: Env)
    ensures Grows(st, DefineStructFields(st, rt, ss, env))
  {
    if ss != [] {
      var k := |ss| - 1;
      var st1 := DefineStructFields(st, rt, ss[..k], env);
      DefineStructFieldsGrows(st, rt, ss[..k], env);
      DefineStructFieldsOfGrows(st1, rt, ss[k], env);
      GrowsTrans(st, st1, DefineStructFields(st, rt, ss, env));
    }
  }

  lemma {:induction false} DefineStructFieldsValid(st: PassState, rt: Resolver, ss: seq<StructNode>, env: Env)
    requires ValidState(st)
    ensures ValidState(DefineStructFields(st, rt, ss, env))
  {
    if ss != [] {
      var k := |ss| - 1;
      DefineStructFieldsValid(st, rt, ss[..k], env);
      DefineStructFieldsOfValid(DefineStructFields(st, rt, ss[..k], env), rt, ss[k], env);
    }
  }

  lemma {:induction false} DefineFunctionsGrows(st: PassState, rt: Resolver, fs: seq<Invokable>, env: Env)
    requires env.scope < |st.scopes| && (forall j | 0 <= j < |fs| :: WellFormedInvokable(fs[j]))
    ensures Grows(st, DefineFunctions(st, rt, fs, env))
  {
    if fs != [] {
      var k := |fs| - 1;
      var st1 := DefineFunctions(st, rt, fs[..k], env);
      DefineFunctionsGrows(st, rt, fs[..k], env);
      VisitFunctionGrows(st1, rt, fs[k], env);
      GrowsTrans(st, st1, DefineFunctions(st, rt, fs, env));
    }
  }

  lemma {:induction false} DefineFunctionsValid(st: PassState, rt: Resolver, fs: seq<Invokable>, env: Env)
    requires env.scope < |st.scopes| && (forall j | 0 <= j < |fs| :: WellFormedInvokable(fs[j])) && ValidState(st)
    ensures ValidState(DefineFunctions(st, rt, fs, env))
  {
    if fs != [] {
      var k := |fs| - 1;
      DefineFunctionsValid(st, rt, fs[..k], env);
      VisitFunctionValid(DefineFunctions(st, rt, fs[..k], env), rt, fs[k], env);
    }
  }

  lemma {:induction false} DefineServicesGrows(st: PassState, rt: Resolver, ss: seq<ServiceNode>, env: Env)
    requires env.scope < |st.scopes| && (forall j | 0 <= j < |ss| :: WellFormedService(ss[j]))
    ensures Grows(st, DefineServices(st, rt, ss, env))
  {
    if ss != [] {
      var k := |ss| - 1;
      var st1 := DefineServices(st, rt, ss[..k], env);
      DefineServicesGrows(st, rt, ss[..k], env);
      DefineServiceOfGrows(st1, rt, ss[k], env);
      GrowsTrans(st, st1, DefineServices(st, rt, ss, env));
    }
  }

  lemma {:induction false} DefineServicesValid(st: PassState, rt: Resolver, ss: seq<ServiceNode>, env: Env)
    requires env.scope < |st.scopes| && (forall j | 0 <= j < |ss| :: WellFormedService(ss[j])) && ValidState(st)
    ensures ValidState(DefineServices(st, rt, ss, env))
  {
    if ss != [] {
      var k := |ss| - 1;
      DefineServicesValid(st, rt, ss[..k], env);
      DefineServiceOfValid(DefineServices(st, rt, ss[..k], env), rt, ss[k], env);
    }
  }

  lemma {:induction false} DefineActionsKeeps(st: PassState, rt: Resolver, cs: seq<ConnectorNode>, env: Env)
    requires forall j | 0 <= j < |cs| :: WellFormedConnector(cs[j])
    ensures Grows(st, DefineActions(st, rt, cs, env))
    ensures ValidState(st) ==> ValidState(DefineActions(st, rt, cs, env))
  {
    if cs != [] {
      var k := |cs| - 1;
      var st1 := DefineActions(st, rt, cs[..k], env);
      DefineActionsKeeps(st, rt, cs[..k], env);
      DefineActionsOfKeeps(st1, rt, cs[k], env);
      GrowsTrans(st, st1, DefineActions(st, rt, cs, env));
    }
  }

  lemma DefinePackageInitFunctionKeeps(st: PassState, rt: Resolver, pkgNodeId: NodeId, pkgName: Name,
                                       globals: seq<VarNode>, env: Env)
    requires env.scope < |st.scopes|
    ensures Grows(st, DefinePackageInitFunction(st, rt, pkgNodeId, pkgName, globals, env))
    ensures ValidState(st) ==> ValidState(DefinePackageInitFunction(st, rt, pkgNodeId, pkgName, globals, env))
  {
    var init := PackageInit(pkgNodeId, pkgName, globals);
    var st1 := st.(initFunctions := st.initFunctions[pkgNodeId := init]);
    VisitFunctionGrows(st1, rt, init, env);
    if ValidState(st) {
      VisitFunctionValid(st1, rt, init, env);
    }
  }

  lemma DefineTypeStagesKeeps(st: PassState, rt: Resolver, ld: Loader, b: PackageNodes.Buckets, pkgEnv: Env)
    requires pkgEnv.scope < |st.scopes|
    ensures Grows(st, DefineTypeStages(st, rt, ld, b, pkgEnv))
    ensures ValidState(st) ==> ValidState(DefineTypeStages(st, rt, ld, b, pkgEnv))
  {
    var st1 := DefineImports(st, ld, b.imports, pkgEnv);
    var st2 := DefineStructs(st1, b.structs, pkgEnv);
    DefineImportsGrows(st, ld, b.imports, pkgEnv);
    DefineStructsGrows(st1, b.structs, pkgEnv);
    DefineConnectorsGrows(st2, rt, b.connectors, pkgEnv);
    GrowsTrans(st, st1, st2);
    GrowsTrans(st, st2, DefineConnectors(st2, rt, b.connectors, pkgEnv));
    if ValidState(st) {
      DefineImportsValid(st, ld, b.imports, pkgEnv);
      DefineStructsValid(st1, b.structs, pkgEnv);
      DefineConnectorsValid(st2, rt, b.connectors, pkgEnv);
    }
  }

  lemma DefineMemberStagesGrows(st: PassState, rt: Resolver, b: PackageNodes.Buckets, pkgEnv: Env)
    requires pkgEnv.scope < |st.scopes| && WellFormedBuckets(b)
    ensures Grows(st, DefineMemberStages(st, rt, b, pkgEnv))
  {
    var st1 := DefineStructFields(st, rt, b.structs, pkgEnv);
    var st2 := DefineActions(st1, rt, b.connectors, pkgEnv);
    var st3 := DefineFunctions(st2, rt, b.functions, pkgEnv);
    DefineStructFieldsGrows(st, rt, b.structs, pkgEnv);
    DefineActionsKeeps(st1, rt, b.connectors, pkgEnv);
    DefineFunctionsGrows(st2, rt, b.functions, pkgEnv);
    DefineServicesGrows(st3, rt, b.services, pkgEnv);
    GrowsTrans(st, st1, st2);
    GrowsTrans(st, st2, st3);
    GrowsTrans(st, st3, DefineServices(st3, rt, b.services, pkgEnv));
  }

  lemma DefineMemberStagesValid(st: PassState, rt: Resolver, b: PackageNodes.Buckets, pkgEnv: Env)
    requires pkgEnv.scope < |st.scopes| && WellFormedBuckets(b) && ValidState(st)
    ensures ValidState(DefineMemberStages(st, rt, b, pkgEnv))
  {
    var st1 := DefineStructFields(st, rt, b.structs, pkgEnv);
    var st2 := DefineActions(st1, rt, b.connectors, pkgEnv);
    DefineStructFieldsValid(st, rt, b.structs, pkgEnv);
    DefineActionsKeeps(st1, rt, b.connectors, pkgEnv);
    DefineFunctionsValid(st2, rt, b.functions, pkgEnv);
    DefineServicesValid(DefineFunctions(st2, rt, b.functions, pkgEnv), rt, b.services, pkgEnv);
  }

  lemma DefineGlobalStagesKeeps(st: PassState, rt: Resolver, pkgNodeId: NodeId, pkgName: Name,
                                globals: seq<VarNode>, pkgEnv: Env)
    requires pkgEnv.scope < |st.scopes|
    ensures Grows(st, DefineGlobalStages(st, rt, pkgNodeId, pkgName, globals, pkgEnv))
    ensures ValidState(st) ==> ValidState(DefineGlobalStages(st, rt, pkgNodeId, pkgName, globals, pkgEnv))
  {
    var st1 := VisitVariables(st, rt, globals, pkgEnv);
    VisitVariablesGrows(st, rt, globals, pkgEnv);
    DefinePackageInitFunctionKeeps(st1, rt, pkgNodeId, pkgName, globals, pkgEnv);
    GrowsTrans(st, st1, DefinePackageInitFunction(st1, rt, pkgNodeId, pkgName, globals, pkgEnv));
    if ValidState(st) {
      VisitVariablesValid(st, rt, globals, pkgEnv);
    }
  }

  lemma EnterPackageKeeps(st: PassState, decl: Option<PackageDecl>, pkgNodeId: NodeId)
    ensures Grows(st, EnterPackage(st, decl, pkgNodeId))
    ensures ValidState(st) ==> ValidState(EnterPackage(st, decl, pkgNodeId))
  {
    CreatePackageSymbolKeeps(st, decl, pkgNodeId);
  }

  /** The whole pass over a package only adds to the state it starts from,
      and leaves no dangling handle. */
  lemma VisitPackageKeeps(st: PassState, rt: Resolver, ld: Loader, b: PackageNodes.Buckets, pkgNodeId: NodeId)
    requires WellFormedBuckets(b)
    ensures Grows(st, VisitPackage(st, rt, ld, b, pkgNodeId))
    ensures ValidState(st) ==> ValidState(VisitPackage(st, rt, ld, b, pkgNodeId))
  {
    var pid := PackageIdOf(b.pkgDecl);
    var pkgEnv := Env(|st.scopes|, pid);
    var st1 := EnterPackage(st, b.pkgDecl, pkgNodeId);
    var st2 := DefineTypeStages(st1, rt, ld, b, pkgEnv);
    var st3 := DefineMemberStages(st2, rt, b, pkgEnv);
    EnterPackageKeeps(st, b.pkgDecl, pkgNodeId);
    DefineTypeStagesKeeps(st1, rt, ld, b, pkgEnv);
    DefineMemberStagesGrows(st2, rt, b, pkgEnv);
    DefineGlobalStagesKeeps(st3, rt, pkgNodeId, PackageName(pid), b.globalVars, pkgEnv);
    GrowsTrans(st, st1, st2);
    GrowsTrans(st, st2, st3);
    GrowsTrans(st, st3, VisitPackage(st, rt, ld, b, pkgNodeId));
    if ValidState(st) {
      DefineMemberStagesValid(st2, rt, b, pkgEnv);
    }
  }
}
