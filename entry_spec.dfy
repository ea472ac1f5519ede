/** The symbol-entry pass as functions on an explicit pass state: one
    function per operation of the pass, each giving the state it leaves
    behind. The imperative pass in SymbolEntering is proved to compute
    exactly these states. */
module EntrySpec {
  import opened Base
  import opened Ast
  import opened Symbols
  import opened InitFunctions
  import PackageNodes

  /** The type resolver: a collaborator that maps a type node, in an
      environment, to a semantic type (the error type when it fails). */
  type Resolver = (TypeNode, Env) -> Type

  /** The package loader: a collaborator that maps an import's name path
      and version to the identity of the loaded package. */
  type Loader = (seq<Name>, Name) -> PackageID

  /** Handle of the root package symbol, the owner of every package symbol. */
  const ROOT_PKG: SymbolId := 0

  /** Everything the pass reads and writes: the symbol and scope arenas, the
      diagnostic log, the annotations written into tree nodes (symbol, type,
      synthesised initialiser), the environments of defined packages, and the
      symbols of loaded packages. */
  datatype PassState = PassState(
    symbols: seq<Symbol>,
    scopes: seq<Scope>,
    diagnostics: seq<Diagnostic>,
    nodeSymbol: map<NodeId, SymbolId>,
    nodeType: map<NodeId, Type>,
    initFunctions: map<NodeId, Invokable>,
    packageEnvs: map<SymbolId, Env>,
    pkgSymbols: map<PackageID, SymbolId>)

  /** The state before anything is defined: the root package symbol and its scope. */
  function InitialState(): (r: PassState)
    ensures |r.symbols| == 1 && r.symbols[ROOT_PKG].kind == PackageSym && r.symbols[ROOT_PKG].scope == Some(0)
    ensures r.scopes == [Scope(ROOT_PKG, map[])] && r.diagnostics == []
  {
    PassState([NewSymbol(PackageSym, {}, EMPTY, DefaultPackage, None, NoType).(scope := Some(0))],
              [Scope(ROOT_PKG, map[])], [], map[], map[], map[], map[], map[])
  }

  /** The symbol a variable declaration gets. */
  function VarSymbolOf(v: VarNode, pkgID: PackageID, owner: SymbolId, t: Type): (s: Symbol)
    ensures s.kind == VariableSym && s.name == v.name && s.flags == v.flags && s.symType == t
    ensures s.owner == Some(owner) && s.scope.None?
  {
    NewSymbol(VariableSym, v.flags, v.name, pkgID, Some(owner), t)
  }

  /** `n` consecutive handles starting at `lo`. */
  function Range(lo: nat, n: nat): (r: seq<nat>)
    ensures |r| == n && forall i | 0 <= i < n :: r[i] == lo + i
  {
    if n == 0 then [] else Range(lo, n - 1) + [lo + n - 1]
  }

  /** The names of a list of bindings, in order. */
  function NamesOf(vs: seq<VarNode>): (r: seq<Name>)
    ensures |r| == |vs| && forall i | 0 <= i < |vs| :: r[i] == vs[i].name
  {
    if vs == [] then [] else NamesOf(vs[..|vs| - 1]) + [vs[|vs| - 1].name]
  }

  /** The bindings that get a symbol: those with a name other than EMPTY, in order. */
  function Named(vs: seq<VarNode>): (r: seq<VarNode>)
    ensures |r| <= |vs|
  {
    if vs == [] then []
    else Named(vs[..|vs| - 1]) + (if vs[|vs| - 1].name != EMPTY then [vs[|vs| - 1]] else [])
  }

  /** The resolved types of a list of bindings. */
  function TypesOf(rt: Resolver, vs: seq<VarNode>, env: Env): (r: seq<Type>)
    ensures |r| == |vs| && forall j | 0 <= j < |vs| :: r[j] == rt(vs[j].typeNode, env)
  {
    if vs == [] then [] else TypesOf(rt, vs[..|vs| - 1], env) + [rt(vs[|vs| - 1].typeNode, env)]
  }

  /** Parameters and receivers must be named: the source reads the type of
      the symbol they get, and an unnamed one gets none. */
  predicate WellFormedInvokable(f: Invokable)
  {
    && (forall j | 0 <= j < |f.params| :: f.params[j].name != EMPTY)
    && (f.receiver.Some? ==> f.receiver.value.name != EMPTY)
  }

  predicate WellFormedConnector(c: ConnectorNode)
  {
    forall j | 0 <= j < |c.actions| :: WellFormedInvokable(c.actions[j])
  }

  predicate WellFormedService(s: ServiceNode)
  {
    forall j | 0 <= j < |s.resources| :: WellFormedInvokable(s.resources[j])
  }

  /** The owner of the environment's scope, which owns what is created in it. */
  function OwnerOf(st: PassState, env: Env): SymbolId
    requires env.scope < |st.scopes|
  {
    st.scopes[env.scope].owner
  }

  /** Creating a symbol takes the next slot of the arena. */
  function NewSlot(st: PassState, s: Symbol): (r: PassState)
    ensures |r.symbols| == |st.symbols| + 1 && r.symbols[|st.symbols|] == s && |r.scopes| == |st.scopes|
  {
    st.(symbols := st.symbols + [s])
  }

  /** defineSymbol: the symbol gets a fresh scope of its own; it enters the
      current scope under its name only if no symbol of that name is there,
      and otherwise one REDECLARED_SYMBOL is logged. */
  function DefineSymbol(st: PassState, pos: NodeId, id: SymbolId, env: Env): (r: PassState)
    requires id < |st.symbols| && env.scope < |st.scopes|
    ensures |r.symbols| == |st.symbols| && |r.scopes| == |st.scopes| + 1
  {
    var name := st.symbols[id].name;
    var sc := st.scopes[env.scope];
    st.(symbols := st.symbols[id := st.symbols[id].(scope := Some(|st.scopes|))],
        scopes := (st.scopes + [Scope(id, map[])])[env.scope := Define(sc, name, id)],
        diagnostics := st.diagnostics + Redeclared(sc, name, pos))
  }

  /** defineVarSymbol: a variable symbol owned by the current scope's owner,
      entered under the same guard. */
  function DefineVarSymbol(st: PassState, pos: NodeId, flags: set<Flag>, t: Type, name: Name, env: Env): (r: PassState)
    requires env.scope < |st.scopes|
    ensures |r.symbols| == |st.symbols| + 1 && |r.scopes| == |st.scopes|
  {
    var sc := st.scopes[env.scope];
    st.(symbols := st.symbols + [NewSymbol(VariableSym, flags, name, env.pkgID, Some(sc.owner), t)],
        scopes := st.scopes[env.scope := Define(sc, name, |st.symbols|)],
        diagnostics := st.diagnostics + Redeclared(sc, name, pos))
  }

  /** visit(variable): the type is always resolved and recorded; a binding
      named EMPTY (an unnamed return slot) gets no symbol. */
  function VisitVariable(st: PassState, rt: Resolver, v: VarNode, env: Env): (r: PassState)
    requires env.scope < |st.scopes|
    ensures |r.symbols| == |st.symbols| + (if v.name == EMPTY then 0 else 1) && |r.scopes| == |st.scopes|
  {
    var t := rt(v.typeNode, env);
    var st1 := st.(nodeType := st.nodeType[v.id := t]);
    if v.name == EMPTY then st1
    else
      var st2 := DefineVarSymbol(st1, v.id, v.flags, t, v.name, env);
      st2.(nodeSymbol := st2.nodeSymbol[v.id := |st.symbols|])
  }

  /** Visiting a list of bindings in order, all in the same environment. */
  function VisitVariables(st: PassState, rt: Resolver, vs: seq<VarNode>, env: Env): (r: PassState)
    requires env.scope < |st.scopes|
    ensures |r.symbols| == |st.symbols| + |Named(vs)| && |r.scopes| == |st.scopes|
  {
    if vs == [] then st
    else
      var k := |vs| - 1;
      assert vs == vs[..k] + [vs[k]];
      NamedSnoc(vs[..k], vs[k]);
      VisitVariable(VisitVariables(st, rt, vs[..k], env), rt, vs[k], env)
  }

  lemma NamedSnoc(vs: seq<VarNode>, v: VarNode)
    ensures Named(vs + [v]) == Named(vs) + if v.name != EMPTY then [v] else []
  {
    assert (vs + [v])[..|vs|] == vs;
  }

  /** The named bindings are exactly those bindings whose name is not EMPTY. */
  lemma {:induction false} NamedMembers(vs: seq<VarNode>, v: VarNode)
    ensures v in Named(vs) <==> v in vs && v.name != EMPTY
  {
    if vs != [] {
      NamedMembers(vs[..|vs| - 1], v);
      assert vs == vs[..|vs| - 1] + [vs[|vs| - 1]];
    }
  }

  lemma {:induction false} NamedAll(vs: seq<VarNode>)
    requires forall j | 0 <= j < |vs| :: vs[j].name != EMPTY
    ensures Named(vs) == vs
  {
    if vs != [] {
      NamedAll(vs[..|vs| - 1]);
      assert vs == vs[..|vs| - 1] + [vs[|vs| - 1]];
    }
  }

  /** defineInvokableSymbolParams: parameters, then return bindings, are
      visited in the invokable's environment; the symbol records the
      parameter symbols, the symbols of the named return bindings, and the
      invokable type made of the parameters' and all return bindings' types. */
  function DefineInvokableSymbolParams(st: PassState, rt: Resolver, node: Invokable, id: SymbolId, fnEnv: Env): (r: PassState)
    requires id < |st.symbols| && fnEnv.scope < |st.scopes|
    requires forall j | 0 <= j < |node.params| :: node.params[j].name != EMPTY
    ensures |r.symbols| == |st.symbols| + |node.params| + |Named(node.retParams)| && |r.scopes| == |st.scopes|
    ensures r.symbols[id].symType.InvokableType?
  {
    NamedAll(node.params);
    CompleteSignature(VisitVariables(VisitVariables(st, rt, node.params, fnEnv), rt, node.retParams, fnEnv), |st.symbols|, rt, node, id, fnEnv)
  }

  /** The signature an invokable whose parameters were given handles from
      `n` on records: those handles, the handles of its named return
      bindings after them, and the invokable type of both lists' types. */
  function CompleteSignature(st: PassState, n: nat, rt: Resolver, node: Invokable, id: SymbolId, fnEnv: Env): (r: PassState)
    requires id < |st.symbols|
    ensures |r.symbols| == |st.symbols| && r.scopes == st.scopes && r.diagnostics == st.diagnostics
  {
    RecordSignature(st, id, Range(n, |node.params|), Range(n + |node.params|, |Named(node.retParams)|),
                    InvokableType(TypesOf(rt, node.params, fnEnv), TypesOf(rt, node.retParams, fnEnv), None))
  }

  /** The symbol `id` records its parameter symbols, its named return
      symbols and its type; nothing else changes. */
  function RecordSignature(st: PassState, id: SymbolId, ps: seq<SymbolId>, rps: seq<SymbolId>, t: Type): (r: PassState)
    requires id < |st.symbols|
    ensures |r.symbols| == |st.symbols| && r.scopes == st.scopes
  {
    st.(symbols := st.symbols[id := st.symbols[id].(params := ps, retParams := rps, symType := t)])
  }

  /** defineInvokableSymbol: the node gets its symbol, the symbol is defined
      in the current scope, and its parameters in the symbol's own scope. */
  function DefineInvokableSymbol(st: PassState, rt: Resolver, node: Invokable, id: SymbolId, env: Env): (r: PassState)
    requires id < |st.symbols| && env.scope < |st.scopes|
    requires forall j | 0 <= j < |node.params| :: node.params[j].name != EMPTY
    ensures |r.symbols| == |st.symbols| + |node.params| + |Named(node.retParams)| && |r.scopes| == |st.scopes| + 1
    ensures r.symbols[id].symType.InvokableType?
  {
    var st1 := st.(nodeSymbol := st.nodeSymbol[node.id := id]);
    var st2 := DefineSymbol(st1, node.id, id, env);
    DefineInvokableSymbolParams(st2, rt, node, id, Env(|st.scopes|, env.pkgID))
  }

  /** lookupMemberSymbol for a variable: the symbol bound to `name` in the
      scope of the struct type's symbol, when that is a variable symbol. */
  function LookupField(st: PassState, t: Type, name: Name): Option<SymbolId>
  {
    if t.StructType? && t.tsym < |st.symbols| && st.symbols[t.tsym].scope.Some?
       && st.symbols[t.tsym].scope.value < |st.scopes|
       && name in st.scopes[st.symbols[t.tsym].scope.value].entries
    then
      var m := st.scopes[st.symbols[t.tsym].scope.value].entries[name];
      if m < |st.symbols| && st.symbols[m].kind == VariableSym then Some(m) else None
    else None
  }

  /** The receiver's type, resolved in the function's enclosing environment. */
  function ReceiverType(rt: Resolver, f: Invokable, env: Env): Option<Type>
  {
    if f.receiver.Some? then Some(rt(f.receiver.value.typeNode, env)) else None
  }

  /** validateFuncReceiver: records the receiver's type and reports a
      receiver that is neither the error type nor a struct of this package. */
  function ValidateFuncReceiver(st: PassState, rt: Resolver, f: Invokable, env: Env): (r: PassState)
    ensures r.symbols == st.symbols && r.scopes == st.scopes
  {
    if f.receiver.None? then st
    else
      var recv := f.receiver.value;
      var t := rt(recv.typeNode, env);
      st.(nodeType := st.nodeType[recv.id := t],
          diagnostics := st.diagnostics + ReceiverDiagnostics(recv.id, f.name, t, env.pkgID))
  }

  /** The STRUCT_FIELD_AND_FUNC_WITH_SAME_NAME check of a method. */
  function FieldClash(st: PassState, f: Invokable, rtype: Type): seq<Diagnostic>
  {
    if LookupField(st, rtype, f.name).Some?
    then [Diagnostic(f.id, StructFieldAndFuncWithSameName, [f.name, TypeString(rtype)])]
    else []
  }

  /** The receiver part of visit(function): a struct field of the function's
      name is reported; the receiver is defined in the function's own scope,
      and the function symbol records it and its type. */
  function DefineReceiver(st: PassState, rt: Resolver, f: Invokable, id: SymbolId, rtype: Type, fnEnv: Env): (r: PassState)
    requires f.receiver.Some? && f.receiver.value.name != EMPTY
    requires id < |st.symbols| && fnEnv.scope < |st.scopes| && st.symbols[id].symType.InvokableType?
    ensures |r.symbols| == |st.symbols| + 1 && |r.scopes| == |st.scopes|
  {
    var st1 := st.(diagnostics := st.diagnostics + FieldClash(st, f, rtype));
    var rid := |st1.symbols|;
    var st2 := VisitVariable(st1, rt, f.receiver.value, fnEnv);
    var fs := st2.symbols[id];
    st2.(symbols := st2.symbols[id := fs.(receiverSymbol := Some(rid),
                                           symType := fs.symType.(receiverType := Some(st2.symbols[rid].symType)))])
  }

  /** visit(function): validate the receiver, create the function symbol
      (named `T.f` for a method on T), define it and its parameters, then the receiver. */
  function VisitFunction(st: PassState, rt: Resolver, f: Invokable, env: Env): (r: PassState)
    requires env.scope < |st.scopes| && WellFormedInvokable(f)
    ensures |r.symbols| > |st.symbols| && |r.scopes| == |st.scopes| + 1
  {
    var rtype := ReceiverType(rt, f, env);
    var st1 := ValidateFuncReceiver(st, rt, f, env);
    var id := |st1.symbols|;
    var st2 := NewSlot(st1, NewSymbol(FunctionSym, f.flags, FuncSymbolName(f.name, rtype), env.pkgID,
                                      Some(OwnerOf(st1, env)), NoType));
    var st3 := DefineInvokableSymbol(st2, rt, f, id, env);
    if f.receiver.None? then st3
    else DefineReceiver(st3, rt, f, id, rtype.value, Env(|st2.scopes|, env.pkgID))
  }

  /** visit(action) and visit(resource): a symbol of the given kind, defined
      with its parameters like any invokable. */
  function VisitMember(st: PassState, rt: Resolver, kind: SymKind, a: Invokable, env: Env): (r: PassState)
    requires env.scope < |st.scopes| && WellFormedInvokable(a)
    ensures |r.symbols| > |st.symbols| && |r.scopes| == |st.scopes| + 1
  {
    var id := |st.symbols|;
    var st1 := NewSlot(st, NewSymbol(kind, a.flags, a.name, env.pkgID, Some(OwnerOf(st, env)), NoType));
    DefineInvokableSymbol(st1, rt, a, id, env)
  }

  /** visit(struct): the struct symbol, defined, then given its struct type. */
  function VisitStruct(st: PassState, s: StructNode, env: Env): (r: PassState)
    requires env.scope < |st.scopes|
    ensures |r.symbols| == |st.symbols| + 1 && |r.scopes| == |st.scopes| + 1
  {
    var id := |st.symbols|;
    var st1 := NewSlot(st, NewSymbol(StructSym, s.flags, s.name, env.pkgID, Some(OwnerOf(st, env)), NoType));
    var st2 := st1.(nodeSymbol := st1.nodeSymbol[s.id := id]);
    var st3 := DefineSymbol(st2, s.id, id, env);
    st3.(symbols := st3.symbols[id := st3.symbols[id].(symType := StructType(id, s.name, env.pkgID))])
  }

  /** visit(connector): the connector symbol is created, its initialiser is
      synthesised and visited as a function, and only then is the connector defined. */
  function VisitConnector(st: PassState, rt: Resolver, c: ConnectorNode, env: Env): (r: PassState)
    requires env.scope < |st.scopes|
    ensures |r.symbols| > |st.symbols| && |r.scopes| == |st.scopes| + 2
  {
    var id := |st.symbols|;
    var st1 := NewSlot(st, NewSymbol(ConnectorSym, c.flags, c.name, env.pkgID, Some(OwnerOf(st, env)), NoType));
    var st2 := st1.(nodeSymbol := st1.nodeSymbol[c.id := id]);
    var init := ConnectorInit(c);
    var st3 := st2.(initFunctions := st2.initFunctions[c.id := init]);
    var st4 := VisitFunction(st3, rt, init, env);
    DefineSymbol(st4, c.id, id, env)
  }

  /** visit(service): like a connector, with the service's initialiser. */
  function VisitService(st: PassState, rt: Resolver, s: ServiceNode, env: Env): (r: PassState)
    requires env.scope < |st.scopes|
    ensures |r.symbols| > |st.symbols| && |r.scopes| == |st.scopes| + 2
  {
    var id := |st.symbols|;
    var st1 := NewSlot(st, NewSymbol(ServiceSym, s.flags, s.name, env.pkgID, Some(OwnerOf(st, env)), NoType));
    var st2 := st1.(nodeSymbol := st1.nodeSymbol[s.id := id]);
    var init := ServiceInit(s);
    var st3 := st2.(initFunctions := st2.initFunctions[s.id := init]);
    var st4 := VisitFunction(st3, rt, init, env);
    DefineSymbol(st4, s.id, id, env)
  }

  /** The package identity a package declaration gives; the default package without one. */
  function PackageIdOf(decl: Option<PackageDecl>): (r: PackageID)
    ensures decl.None? <==> r == DefaultPackage
    ensures decl.Some? ==> r.nameComps == decl.value.nameComps && r.version == decl.value.version
  {
    if decl.None? then DefaultPackage else PackageID(decl.value.nameComps, decl.value.version)
  }

  /** A package symbol, owned by the root package, with its own scope. */
  function AddPackageSymbol(st: PassState, pid: PackageID): (r: PassState)
    ensures |r.symbols| == |st.symbols| + 1 && |r.scopes| == |st.scopes| + 1
  {
    st.(symbols := st.symbols + [NewSymbol(PackageSym, {}, PackageName(pid), pid, Some(ROOT_PKG), NoType)
                                   .(scope := Some(|st.scopes|))],
        scopes := st.scopes + [Scope(|st.symbols|, map[])])
  }

  /** createPackageSymbol */
  function CreatePackageSymbol(st: PassState, decl: Option<PackageDecl>, pkgNodeId: NodeId): (r: PassState)
    ensures |r.symbols| == |st.symbols| + 1 && |r.scopes| == |st.scopes| + 1
  {
    var st1 := AddPackageSymbol(st, PackageIdOf(decl));
    st1.(nodeSymbol := st1.nodeSymbol[pkgNodeId := |st.symbols|])
  }

  /** The symbol of a loaded package: the one it already has, or a new
      package symbol, registered as that package's. */
  function LoadedPackage(st: PassState, pid: PackageID): (r: PassState)
    ensures pid in r.pkgSymbols && |r.symbols| >= |st.symbols| && |r.scopes| >= |st.scopes|
  {
    if pid in st.pkgSymbols then st
    else AddPackageSymbol(st, pid).(pkgSymbols := st.pkgSymbols[pid := |st.symbols|])
  }

  /** visit(import): the loaded package's symbol (created on its first load)
      is bound to the alias in the current scope, with no uniqueness check. */
  function VisitImport(st: PassState, ld: Loader, imp: ImportNode, env: Env): (r: PassState)
    requires env.scope < |st.scopes|
    ensures |r.symbols| >= |st.symbols| && |r.scopes| >= |st.scopes|
  {
    var pid := ld(imp.nameComps, imp.version);
    var st1 := LoadedPackage(st, pid);
    var sid := st1.pkgSymbols[pid];
    st1.(nodeSymbol := st1.nodeSymbol[imp.id := sid],
         scopes := st1.scopes[env.scope := Define(st1.scopes[env.scope], imp.alias, sid)])
  }

  /** The symbol and own scope of the symbol a node was given, when it has both. */
  function NodeScope(st: PassState, id: NodeId): (r: Option<(SymbolId, ScopeId)>)
    ensures r.Some? ==> r.value.0 < |st.symbols| && r.value.1 < |st.scopes|
  {
    if id in st.nodeSymbol && st.nodeSymbol[id] < |st.symbols|
       && st.symbols[st.nodeSymbol[id]].scope.Some? && st.symbols[st.nodeSymbol[id]].scope.value < |st.scopes|
    then Some((st.nodeSymbol[id], st.symbols[st.nodeSymbol[id]].scope.value))
    else None
  }

  /** Struct fields, connector actions and service resources are public. */
  function MakePublic(vs: seq<VarNode>): (r: seq<VarNode>)
    ensures |r| == |vs| && forall j | 0 <= j < |vs| :: r[j] == vs[j].(flags := vs[j].flags + {Public})
  {
    if vs == [] then [] else MakePublic(vs[..|vs| - 1]) + [vs[|vs| - 1].(flags := vs[|vs| - 1].flags + {Public})]
  }

  function PublicInvokables(fs: seq<Invokable>): (r: seq<Invokable>)
    ensures |r| == |fs| && forall j | 0 <= j < |fs| :: r[j] == fs[j].(flags := fs[j].flags + {Public})
    ensures (forall j | 0 <= j < |fs| :: WellFormedInvokable(fs[j])) ==> forall j | 0 <= j < |r| :: WellFormedInvokable(r[j])
  {
    if fs == [] then [] else PublicInvokables(fs[..|fs| - 1]) + [fs[|fs| - 1].(flags := fs[|fs| - 1].flags + {Public})]
  }

  /** The field list of a struct type: each field's name and resolved type. */
  function FieldsOf(rt: Resolver, vs: seq<VarNode>, env: Env): (r: seq<StructField>)
    ensures |r| == |vs| && forall j | 0 <= j < |vs| :: r[j] == StructField(vs[j].name, rt(vs[j].typeNode, env))
  {
    if vs == [] then [] else FieldsOf(rt, vs[..|vs| - 1], env) + [StructField(vs[|vs| - 1].name, rt(vs[|vs| - 1].typeNode, env))]
  }

  /** defineStructFields, for one struct: its fields are defined in the
      struct's own scope and become the field list of its type. */
  function DefineStructFieldsOf(st: PassState, rt: Resolver, s: StructNode, env: Env): (r: PassState)
    ensures |r.symbols| >= |st.symbols| && |r.scopes| == |st.scopes|
  {
    match NodeScope(st, s.id)
    case None => st
    case Some((sid, sc)) =>
      var fields := MakePublic(s.fields);
      var senv := Env(sc, env.pkgID);
      var st1 := VisitVariables(st, rt, fields, senv);
      st1.(symbols := st1.symbols[sid := st1.symbols[sid].(fields := FieldsOf(rt, fields, senv))])
  }

  /** Visiting actions or resources in order, all in the same environment. */
  function VisitMembers(st: PassState, rt: Resolver, kind: SymKind, fs: seq<Invokable>, env: Env): (r: PassState)
    requires env.scope < |st.scopes| && forall j | 0 <= j < |fs| :: WellFormedInvokable(fs[j])
    ensures |r.symbols| >= |st.symbols| && |r.scopes| == |st.scopes| + |fs|
  {
    if fs == [] then st
    else VisitMember(VisitMembers(st, rt, kind, fs[..|fs| - 1], env), rt, kind, fs[|fs| - 1], env)
  }

  /** defineActions, for one connector: its actions, made public, in the connector's scope. */
  function DefineActionsOf(st: PassState, rt: Resolver, c: ConnectorNode, env: Env): (r: PassState)
    requires WellFormedConnector(c)
    ensures |r.symbols| >= |st.symbols| && |r.scopes| >= |st.scopes|
  {
    match NodeScope(st, c.id)
    case None => st
    case Some((_, sc)) => VisitMembers(st, rt, ActionSym, PublicInvokables(c.actions), Env(sc, env.pkgID))
  }

  /** defineServices, for one service: the service is visited, then its
      resources, made public, in the service's scope. */
  function DefineServiceOf(st: PassState, rt: Resolver, s: ServiceNode, env: Env): (r: PassState)
    requires env.scope < |st.scopes| && WellFormedService(s)
    ensures |r.symbols| >= |st.symbols| && |r.scopes| >= |st.scopes|
  {
    var st1 := VisitService(st, rt, s, env);
    match NodeScope(st1, s.id)
    case None => st1
    case Some((_, sc)) => VisitMembers(st1, rt, ResourceSym, PublicInvokables(s.resources), Env(sc, env.pkgID))
  }

  // The stages of visit(package), each a pass over one bucket in order.

  function DefineImports(st: PassState, ld: Loader, imps: seq<ImportNode>, env: Env): (r: PassState)
    requires env.scope < |st.scopes|
    ensures |r.symbols| >= |st.symbols| && |r.scopes| >= |st.scopes|
  {
    if imps == [] then st
    else VisitImport(DefineImports(st, ld, imps[..|imps| - 1], env), ld, imps[|imps| - 1], env)
  }

  function DefineStructs(st: PassState, ss: seq<StructNode>, env: Env): (r: PassState)
    requires env.scope < |st.scopes|
    ensures |r.symbols| == |st.symbols| + |ss| && |r.scopes| == |st.scopes| + |ss|
  {
    if ss == [] then st
    else VisitStruct(DefineStructs(st, ss[..|ss| - 1], env), ss[|ss| - 1], env)
  }

  function DefineConnectors(st: PassState, rt: Resolver, cs: seq<ConnectorNode>, env: Env): (r: PassState)
    requires env.scope < |st.scopes|
    ensures |r.symbols| >= |st.symbols| && |r.scopes| == |st.scopes| + 2 * |cs|
  {
    if cs == [] then st
    else VisitConnector(DefineConnectors(st, rt, cs[..|cs| - 1], env), rt, cs[|cs| - 1], env)
  }

  function DefineStructFields(st: PassState, rt: Resolver, ss: seq<StructNode>, env: Env): (r: PassState)
    ensures |r.symbols| >= |st.symbols| && |r.scopes| == |st.scopes|
  {
    if ss == [] then st
    else DefineStructFieldsOf(DefineStructFields(st, rt, ss[..|ss| - 1], env), rt, ss[|ss| - 1], env)
  }

  function DefineActions(st: PassState, rt: Resolver, cs: seq<ConnectorNode>, env: Env): (r: PassState)
    requires forall j | 0 <= j < |cs| :: WellFormedConnector(cs[j])
    ensures |r.symbols| >= |st.symbols| && |r.scopes| >= |st.scopes|
  {
    if cs == [] then st
    else DefineActionsOf(DefineActions(st, rt, cs[..|cs| - 1], env), rt, cs[|cs| - 1], env)
  }

  function DefineFunctions(st: PassState, rt: Resolver, fs: seq<Invokable>, env: Env): (r: PassState)
    requires env.scope < |st.scopes| && forall j | 0 <= j < |fs| :: WellFormedInvokable(fs[j])
    ensures |r.symbols| >= |st.symbols| && |r.scopes| == |st.scopes| + |fs|
  {
    if fs == [] then st
    else VisitFunction(DefineFunctions(st, rt, fs[..|fs| - 1], env), rt, fs[|fs| - 1], env)
  }

  function DefineServices(st: PassState, rt: Resolver, ss: seq<ServiceNode>, env: Env): (r: PassState)
    requires env.scope < |st.scopes| && forall j | 0 <= j < |ss| :: WellFormedService(ss[j])
    ensures |r.symbols| >= |st.symbols| && |r.scopes| >= |st.scopes|
  {
    if ss == [] then st
    else DefineServiceOf(DefineServices(st, rt, ss[..|ss| - 1], env), rt, ss[|ss| - 1], env)
  }

  /** definePackageInitFunction: the package initialiser is synthesised from
      the package-level variables and visited as a function. */
  function DefinePackageInitFunction(st: PassState, rt: Resolver, pkgNodeId: NodeId, pkgName: Name,
                                     globals: seq<VarNode>, env: Env): (r: PassState)
    requires env.scope < |st.scopes|
    ensures |r.symbols| > |st.symbols| && |r.scopes| == |st.scopes| + 1
  {
    var init := PackageInit(pkgNodeId, pkgName, globals);
    var st1 := st.(initFunctions := st.initFunctions[pkgNodeId := init]);
    VisitFunction(st1, rt, init, env)
  }

  /** What a package node must satisfy for the pass to run: every
      invokable's parameters and receiver are named. */
  predicate WellFormedBuckets(b: PackageNodes.Buckets)
  {
    && (forall j | 0 <= j < |b.functions| :: WellFormedInvokable(b.functions[j]))
    && (forall j | 0 <= j < |b.connectors| :: WellFormedConnector(b.connectors[j]))
    && (forall j | 0 <= j < |b.services| :: WellFormedService(b.services[j]))
  }

  /** The first stages: imports, struct shapes, connectors. */
  function DefineTypeStages(st: PassState, rt: Resolver, ld: Loader, b: PackageNodes.Buckets, pkgEnv: Env): (r: PassState)
    requires pkgEnv.scope < |st.scopes|
    ensures |r.symbols| >= |st.symbols| && |r.scopes| >= |st.scopes|
  {
    var st1 := DefineImports(st, ld, b.imports, pkgEnv);
    var st2 := DefineStructs(st1, b.structs, pkgEnv);
    DefineConnectors(st2, rt, b.connectors, pkgEnv)
  }

  /** The middle stages: struct fields, actions, functions, services with their resources. */
  function DefineMemberStages(st: PassState, rt: Resolver, b: PackageNodes.Buckets, pkgEnv: Env): (r: PassState)
    requires pkgEnv.scope < |st.scopes| && WellFormedBuckets(b)
    ensures |r.symbols| >= |st.symbols| && |r.scopes| >= |st.scopes|
  {
    var st1 := DefineStructFields(st, rt, b.structs, pkgEnv);
    var st2 := DefineActions(st1, rt, b.connectors, pkgEnv);
    var st3 := DefineFunctions(st2, rt, b.functions, pkgEnv);
    DefineServices(st3, rt, b.services, pkgEnv)
  }

  /** The last stages: package-level variables, then the package initialiser. */
  function DefineGlobalStages(st: PassState, rt: Resolver, pkgNodeId: NodeId, pkgName: Name,
                              globals: seq<VarNode>, pkgEnv: Env): (r: PassState)
    requires pkgEnv.scope < |st.scopes|
    ensures |r.symbols| > |st.symbols| && |r.scopes| == |st.scopes| + 1
  {
    var st1 := VisitVariables(st, rt, globals, pkgEnv);
    DefinePackageInitFunction(st1, rt, pkgNodeId, pkgName, globals, pkgEnv)
  }

  /** The package symbol, recorded with the package's environment. */
  function EnterPackage(st: PassState, decl: Option<PackageDecl>, pkgNodeId: NodeId): (r: PassState)
    ensures |r.symbols| == |st.symbols| + 1 && |r.scopes| == |st.scopes| + 1
  {
    var st1 := CreatePackageSymbol(st, decl, pkgNodeId);
    st1.(packageEnvs := st1.packageEnvs[|st.symbols| := Env(|st.scopes|, PackageIdOf(decl))])
  }

  /** visit(package): the package symbol and its environment, then the
      stages in their fixed order: imports, structs, connectors, struct
      fields, actions, functions, services with resources, package-level
      variables, and the package initialiser. */
  function VisitPackage(st: PassState, rt: Resolver, ld: Loader, b: PackageNodes.Buckets, pkgNodeId: NodeId): (r: PassState)
    requires WellFormedBuckets(b)
    ensures |r.symbols| > |st.symbols| && |r.scopes| > |st.scopes|
  {
    var pid := PackageIdOf(b.pkgDecl);
    var pkgEnv := Env(|st.scopes|, pid);
    var st1 := EnterPackage(st, b.pkgDecl, pkgNodeId);
    var st2 := DefineTypeStages(st1, rt, ld, b, pkgEnv);
    var st3 := DefineMemberStages(st2, rt, b, pkgEnv);
    DefineGlobalStages(st3, rt, pkgNodeId, PackageName(pid), b.globalVars, pkgEnv)
  }
}
