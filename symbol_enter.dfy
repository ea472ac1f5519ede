/** The symbol-entry pass as the source runs it: one object whose methods
    update the symbol and scope arenas, the diagnostic log and the node
    annotations in place. Every method is proved to leave exactly the state
    the corresponding function of EntrySpec describes; the properties of
    those functions are proved in EntryValidity and EntryProperties. */
module SymbolEntering {
  import opened Base
  import opened Ast
  import opened Symbols
  import opened InitFunctions
  import PackageNodes
  import EntrySpec
  import EntryProperties
  import EntryValidity

  class SymbolEnter {
    var symbols: seq<Symbol>
    var scopes: seq<Scope>
    var diagnostics: seq<Diagnostic>
    var nodeSymbol: map<NodeId, SymbolId>
    var nodeType: map<NodeId, Type>
    var initFunctions: map<NodeId, Invokable>
    var packageEnvs: map<SymbolId, Env>
    var pkgSymbols: map<PackageID, SymbolId>
    /** The type resolver and the package loader the pass consults. */
    const resolveTypeNode: EntrySpec.Resolver
    const loadPackage: EntrySpec.Loader

    /** The whole state of the pass, as a value. */
    ghost function State(): EntrySpec.PassState
      reads this
    {
      EntrySpec.PassState(symbols, scopes, diagnostics, nodeSymbol, nodeType, initFunctions, packageEnvs, pkgSymbols)
    }

    /** The pass before any package: the root package symbol and its scope. */
    constructor (rt: EntrySpec.Resolver, ld: EntrySpec.Loader)
      ensures resolveTypeNode == rt && loadPackage == ld
      ensures State() == EntrySpec.InitialState()
    {
      resolveTypeNode, loadPackage := rt, ld;
      symbols := [NewSymbol(PackageSym, {}, EMPTY, DefaultPackage, None, NoType).(scope := Some(0))];
      scopes := [Scope(EntrySpec.ROOT_PKG, map[])];
      diagnostics := [];
      nodeSymbol, nodeType, initFunctions, packageEnvs, pkgSymbols := map[], map[], map[], map[], map[];
    }

    /** definePackage: sort the units' declarations into the package node's
        buckets, then visit the package; the result is the package symbol. */
    method DefinePackage(pkg: PackageNodes.PackageNode) returns (pSymbol: SymbolId)
      requires EntrySpec.WellFormedBuckets(PackageNodes.AddAll(pkg.Contents(), PackageNodes.Flatten(pkg.compUnits)))
      modifies this, pkg
      ensures pkg.Contents() == PackageNodes.AddAll(old(pkg.Contents()), PackageNodes.Flatten(pkg.compUnits))
      ensures State() == EntrySpec.VisitPackage(old(State()), resolveTypeNode, loadPackage, pkg.Contents(), pkg.id)
      ensures pSymbol == |old(symbols)| && pSymbol < |symbols|
    {
      PackageNodes.PopulatePackageNode(pkg);
      pSymbol := |symbols|;
      VisitPackage(pkg);
    }

    /** visit(package): the package symbol and its environment, then the
        stages in the source's order. */
    method VisitPackage(pkg: PackageNodes.PackageNode)
      requires EntrySpec.WellFormedBuckets(pkg.Contents())
      modifies this
      ensures State() == EntrySpec.VisitPackage(old(State()), resolveTypeNode, loadPackage, pkg.Contents(), pkg.id)
    {
      var pkgEnv, pkgName := EnterPackage(pkg.pkgDecl, pkg.id);
      DefineTypeStages(pkg, pkgEnv);
      DefineMemberStages(pkg, pkgEnv);
      DefineGlobalStages(pkg, pkgName, pkgEnv);
    }

    /** The package symbol, and the package's environment recorded for it. */
    method EnterPackage(decl: Option<PackageDecl>, pkgNodeId: NodeId) returns (pkgEnv: Env, pkgName: Name)
      modifies this
      ensures State() == EntrySpec.EnterPackage(old(State()), decl, pkgNodeId)
      ensures pkgEnv == Env(|old(scopes)|, EntrySpec.PackageIdOf(decl)) && pkgName == PackageName(EntrySpec.PackageIdOf(decl))
    {
      var pSymbol := CreatePackageSymbol(decl, pkgNodeId);
      pkgEnv := Env(symbols[pSymbol].scope.value, symbols[pSymbol].pkgID);
      pkgName := symbols[pSymbol].name;
      packageEnvs := packageEnvs[pSymbol := pkgEnv];
    }

    /** Imports, structs, connectors. */
    method DefineTypeStages(pkg: PackageNodes.PackageNode, pkgEnv: Env)
      requires pkgEnv.scope < |scopes|
      modifies this
      ensures State() == EntrySpec.DefineTypeStages(old(State()), resolveTypeNode, loadPackage, pkg.Contents(), pkgEnv)
    {
      VisitImports(pkg.imports, pkgEnv);
      VisitStructs(pkg.structs, pkgEnv);
      VisitConnectors(pkg.connectors, pkgEnv);
    }

    /** Struct fields, actions, functions, services with their resources. */
    method DefineMemberStages(pkg: PackageNodes.PackageNode, pkgEnv: Env)
      requires pkgEnv.scope < |scopes| && EntrySpec.WellFormedBuckets(pkg.Contents())
      modifies this
      ensures State() == EntrySpec.DefineMemberStages(old(State()), resolveTypeNode, pkg.Contents(), pkgEnv)
    {
      DefineStructFields(pkg.structs, pkgEnv);
      DefineActions(pkg.connectors, pkgEnv);
      VisitFunctions(pkg.functions, pkgEnv);
      DefineServices(pkg.services, pkgEnv);
    }

    /** Package-level variables, then the package initialiser. */
    method DefineGlobalStages(pkg: PackageNodes.PackageNode, pkgName: Name, pkgEnv: Env)
      requires pkgEnv.scope < |scopes|
      modifies this
      ensures State() == EntrySpec.DefineGlobalStages(old(State()), resolveTypeNode, pkg.id, pkgName, pkg.globalVars, pkgEnv)
    {
      VisitVariables(pkg.globalVars, pkgEnv);
      DefinePackageInitFunction(pkg.id, pkgName, pkg.globalVars, pkgEnv);
    }

    /** createPackageSymbol: the declared package's identity, or the default package. */
    method CreatePackageSymbol(decl: Option<PackageDecl>, pkgNodeId: NodeId) returns (pSymbol: SymbolId)
      modifies this
      ensures State() == EntrySpec.CreatePackageSymbol(old(State()), decl, pkgNodeId)
      ensures pSymbol == |old(symbols)| && symbols[pSymbol].scope == Some(|old(scopes)|)
      ensures symbols[pSymbol].pkgID == EntrySpec.PackageIdOf(decl)
      ensures symbols[pSymbol].name == PackageName(EntrySpec.PackageIdOf(decl))
    {
      var pkgID := if decl.None? then DefaultPackage else PackageID(decl.value.nameComps, decl.value.version);
      pSymbol := AddPackageSymbol(pkgID);
      nodeSymbol := nodeSymbol[pkgNodeId := pSymbol];
    }

    /** A package symbol owned by the root package, with a scope of its own. */
    method AddPackageSymbol(pkgID: PackageID) returns (pSymbol: SymbolId)
      modifies this
      ensures State() == EntrySpec.AddPackageSymbol(old(State()), pkgID)
      ensures pSymbol == |old(symbols)|
    {
      pSymbol := |symbols|;
      symbols := symbols + [NewSymbol(PackageSym, {}, PackageName(pkgID), pkgID, Some(EntrySpec.ROOT_PKG), NoType)
                              .(scope := Some(|scopes|))];
      scopes := scopes + [Scope(pSymbol, map[])];
    }

    /** visit(import): the loaded package's symbol is bound to the alias. */
    method VisitImport(imp: ImportNode, env: Env)
      requires env.scope < |scopes|
      modifies this
      ensures State() == EntrySpec.VisitImport(old(State()), loadPackage, imp, env)
    {
      var pkgID := loadPackage(imp.nameComps, imp.version);
      if pkgID !in pkgSymbols {
        var sid := AddPackageSymbol(pkgID);
        pkgSymbols := pkgSymbols[pkgID := sid];
      }
      var pSymbol := pkgSymbols[pkgID];
      nodeSymbol := nodeSymbol[imp.id := pSymbol];
      scopes := scopes[env.scope := Define(scopes[env.scope], imp.alias, pSymbol)];
    }

    method VisitImports(imps: seq<ImportNode>, env: Env)
      requires env.scope < |scopes|
      modifies this
      ensures State() == EntrySpec.DefineImports(old(State()), loadPackage, imps, env)
    {
      ghost var st0 := State();
      for i := 0 to |imps|
        invariant env.scope < |scopes|
        invariant State() == EntrySpec.DefineImports(st0, loadPackage, imps[..i], env)
      {
        DefineImportsStep(st0, loadPackage, imps, i, env);
        VisitImport(imps[i], env);
      }
      assert imps[..|imps|] == imps;
    }

    /** defineSymbol: the symbol gets its own scope, and enters the current
        scope only if its name is not bound there yet. */
    method DefineSymbol(pos: NodeId, id: SymbolId, env: Env)
      requires id < |symbols| && env.scope < |scopes|
      modifies this
      ensures State() == EntrySpec.DefineSymbol(old(State()), pos, id, env)
    {
      var name := symbols[id].name;
      var sc := scopes[env.scope];
      symbols := symbols[id := symbols[id].(scope := Some(|scopes|))];
      scopes := scopes + [Scope(id, map[])];
      if name !in sc.entries {
        scopes := scopes[env.scope := sc.(entries := sc.entries[name := id])];
      } else {
        diagnostics := diagnostics + [Diagnostic(pos, RedeclaredSymbol, [name])];
      }
    }

    /** defineVarSymbol: a variable symbol owned by the current scope's owner. */
    method DefineVarSymbol(pos: NodeId, flags: set<Flag>, t: Type, name: Name, env: Env) returns (varSymbol: SymbolId)
      requires env.scope < |scopes|
      modifies this
      ensures State() == EntrySpec.DefineVarSymbol(old(State()), pos, flags, t, name, env)
      ensures varSymbol == |old(symbols)|
    {
      var enclScope := scopes[env.scope];
      varSymbol := |symbols|;
      symbols := symbols + [NewSymbol(VariableSym, flags, name, env.pkgID, Some(enclScope.owner), t)];
      if name !in enclScope.entries {
        scopes := scopes[env.scope := enclScope.(entries := enclScope.entries[name := varSymbol])];
      } else {
        diagnostics := diagnostics + [Diagnostic(pos, RedeclaredSymbol, [name])];
      }
    }

    /** visit(variable) */
    method VisitVariable(v: VarNode, env: Env)
      requires env.scope < |scopes|
      modifies this
      ensures State() == EntrySpec.VisitVariable(old(State()), resolveTypeNode, v, env)
      ensures nodeType[v.id] == resolveTypeNode(v.typeNode, env)
      ensures v.name != EMPTY ==> nodeSymbol[v.id] == |old(symbols)| && symbols[|old(symbols)|].symType == nodeType[v.id]
    {
      var varType := resolveTypeNode(v.typeNode, env);
      nodeType := nodeType[v.id := varType];
      if v.name == EMPTY {
        return;
      }
      var varSymbol := DefineVarSymbol(v.id, v.flags, varType, v.name, env);
      nodeSymbol := nodeSymbol[v.id := varSymbol];
    }

    /** Visiting bindings in order: parameters, fields and package-level variables. */
    method VisitVariables(vs: seq<VarNode>, env: Env)
      requires env.scope < |scopes|
      modifies this
      ensures State() == EntrySpec.VisitVariables(old(State()), resolveTypeNode, vs, env)
    {
      ghost var st0 := State();
      for i := 0 to |vs|
        invariant env.scope < |scopes|
        invariant State() == EntrySpec.VisitVariables(st0, resolveTypeNode, vs[..i], env)
      {
        VisitVariablesStep(st0, resolveTypeNode, vs, i, env);
        VisitVariable(vs[i], env);
      }
      assert vs[..|vs|] == vs;
    }
    /** The parameter part of defineInvokableSymbolParams: each parameter is
        visited; their symbols and types are collected in order. */
    method DefineParams(ps: seq<VarNode>, fnEnv: Env, ghost lo: nat) returns (paramSymbols: seq<SymbolId>, paramTypes: seq<Type>)
      requires fnEnv.scope < |scopes| && lo == |symbols|
      requires forall j | 0 <= j < |ps| :: ps[j].name != EMPTY
      modifies this
      ensures State() == EntrySpec.VisitVariables(old(State()), resolveTypeNode, ps, fnEnv)
      ensures paramSymbols == EntrySpec.Range(lo, |ps|)
      ensures paramTypes == EntrySpec.TypesOf(resolveTypeNode, ps, fnEnv)
    {
      ghost var st0 := State();
      ghost var n := |symbols|;
      paramSymbols, paramTypes := [], [];
      for i := 0 to |ps|
        invariant fnEnv.scope < |scopes| && |symbols| == n + i
        invariant State() == EntrySpec.VisitVariables(st0, resolveTypeNode, ps[..i], fnEnv)
        invariant paramSymbols == EntrySpec.Range(n, i)
        invariant paramTypes == EntrySpec.TypesOf(resolveTypeNode, ps[..i], fnEnv)
      {
        VisitVariablesStep(st0, resolveTypeNode, ps, i, fnEnv);
        TypesOfStep(resolveTypeNode, ps, i, fnEnv);
        RangeStep(n, i);
        VisitVariable(ps[i], fnEnv);
        var paramSym := nodeSymbol[ps[i].id];
        paramSymbols := paramSymbols + [paramSym];
        paramTypes := paramTypes + [symbols[paramSym].symType];
      }
      assert ps[..|ps|] == ps;
    }

    /** The return part of defineInvokableSymbolParams: each return binding
        is visited; the symbols of the named ones and the types of all of
        them are collected in order. */
    method DefineRetParams(rs: seq<VarNode>, fnEnv: Env, ghost lo: nat) returns (retParamSymbols: seq<SymbolId>, retTypes: seq<Type>)
      requires fnEnv.scope < |scopes| && lo == |symbols|
      modifies this
      ensures State() == EntrySpec.VisitVariables(old(State()), resolveTypeNode, rs, fnEnv)
      ensures retParamSymbols == EntrySpec.Range(lo, |EntrySpec.Named(rs)|)
      ensures retTypes == EntrySpec.TypesOf(resolveTypeNode, rs, fnEnv)
    {
      ghost var st0 := State();
      ghost var n := |symbols|;
      ghost var k := 0;
      retParamSymbols, retTypes := [], [];
      for i := 0 to |rs|
        invariant fnEnv.scope < |scopes| && |symbols| == n + k && k == |EntrySpec.Named(rs[..i])|
        invariant State() == EntrySpec.VisitVariables(st0, resolveTypeNode, rs[..i], fnEnv)
        invariant retParamSymbols == EntrySpec.Range(n, k)
        invariant retTypes == EntrySpec.TypesOf(resolveTypeNode, rs[..i], fnEnv)
      {
        VisitVariablesStep(st0, resolveTypeNode, rs, i, fnEnv);
        TypesOfStep(resolveTypeNode, rs, i, fnEnv);
        NamedStep(rs, i);
        VisitVariable(rs[i], fnEnv);
        if rs[i].name != EMPTY {
          RangeStep(n, k);
          retParamSymbols := retParamSymbols + [nodeSymbol[rs[i].id]];
          k := k + 1;
        }
        retTypes := retTypes + [nodeType[rs[i].id]];
      }
      assert rs[..|rs|] == rs;
    }

    /** defineInvokableSymbolParams: the parameters, then the return
        bindings, are visited in the invokable's environment; the symbol
        records their symbols and the invokable type. */
    method DefineInvokableSymbolParams(node: Invokable, id: SymbolId, fnEnv: Env)
      requires id < |symbols| && fnEnv.scope < |scopes|
      requires forall j | 0 <= j < |node.params| :: node.params[j].name != EMPTY
      modifies this
      ensures State() == EntrySpec.DefineInvokableSymbolParams(old(State()), resolveTypeNode, node, id, fnEnv)
    {
      DefineSignature(node, id, fnEnv);
      EntryValidity.SignatureRecorded(old(State()), resolveTypeNode, node, id, fnEnv);
    }

    /** The two visits and the record of the signature, stated on the
        states they pass through. */
    method DefineSignature(node: Invokable, id: SymbolId, fnEnv: Env)
      requires id < |symbols| && fnEnv.scope < |scopes|
      requires forall j | 0 <= j < |node.params| :: node.params[j].name != EMPTY
      modifies this
      ensures State() == EntrySpec.CompleteSignature(EntrySpec.VisitVariables(EntrySpec.VisitVariables(old(State()), resolveTypeNode, node.params, fnEnv), resolveTypeNode, node.retParams, fnEnv),
                                                     |old(symbols)|, resolveTypeNode, node, id, fnEnv)
    {
      ghost var n := |symbols|;
      EntrySpec.NamedAll(node.params);
      var paramSymbols, paramTypes := DefineParams(node.params, fnEnv, n);
      ghost var m := n + |node.params|;
      var retParamSymbols, retTypes := DefineRetParams(node.retParams, fnEnv, m);
      RecordSignature(node, id, fnEnv, n, m, paramSymbols, retParamSymbols, InvokableType(paramTypes, retTypes, None));
    }

    /** The last step of defineInvokableSymbolParams: the symbol's parameter
        and return symbols and its type. */
    method RecordSignature(node: Invokable, id: SymbolId, fnEnv: Env, ghost n: nat, ghost m: nat,
                           params: seq<SymbolId>, retParams: seq<SymbolId>, t: Type)
      requires id < |symbols| && m == n + |node.params|
      requires params == EntrySpec.Range(n, |node.params|)
      requires retParams == EntrySpec.Range(m, |EntrySpec.Named(node.retParams)|)
      requires t == InvokableType(EntrySpec.TypesOf(resolveTypeNode, node.params, fnEnv), EntrySpec.TypesOf(resolveTypeNode, node.retParams, fnEnv), None)
      modifies this
      ensures State() == EntrySpec.CompleteSignature(old(State()), n, resolveTypeNode, node, id, fnEnv)
    {
      EntryValidity.CompleteSignatureOf(State(), n, m, resolveTypeNode, node, id, fnEnv, params, retParams, t);
      symbols := symbols[id := symbols[id].(params := params, retParams := retParams, symType := t)];
    }

    /** defineInvokableSymbol */
    method DefineInvokableSymbol(node: Invokable, id: SymbolId, env: Env) returns (fnEnv: Env)
      requires id < |symbols| && env.scope < |scopes|
      requires forall j | 0 <= j < |node.params| :: node.params[j].name != EMPTY
      modifies this
      ensures State() == EntrySpec.DefineInvokableSymbol(old(State()), resolveTypeNode, node, id, env)
      ensures fnEnv == Env(|old(scopes)|, env.pkgID)
    {
      nodeSymbol := nodeSymbol[node.id := id];
      DefineSymbol(node.id, id, env);
      fnEnv := Env(symbols[id].scope.value, env.pkgID);
      DefineInvokableSymbolParams(node, id, fnEnv);
    }

    /** validateFuncReceiver: resolves and records the receiver's type, and
        reports a receiver that is neither the error type nor a struct of
        this package. */
    method ValidateFuncReceiver(f: Invokable, env: Env)
      modifies this
      ensures State() == EntrySpec.ValidateFuncReceiver(old(State()), resolveTypeNode, f, env)
      ensures f.receiver.Some? ==> nodeType[f.receiver.value.id] == resolveTypeNode(f.receiver.value.typeNode, env)
    {
      if f.receiver.None? {
        return;
      }
      var recv := f.receiver.value;
      var varType := resolveTypeNode(recv.typeNode, env);
      nodeType := nodeType[recv.id := varType];
      if varType.ErrorType? {
        return;
      }
      if !varType.StructType? {
        diagnostics := diagnostics + [Diagnostic(recv.id, FuncDefinedOnNonStructType, [f.name, TypeString(varType)])];
        return;
      }
      if env.pkgID != varType.pkgID {
        diagnostics := diagnostics + [Diagnostic(recv.id, FuncDefinedOnNonLocalStructType, [f.name, TypeString(varType)])];
      }
    }

    /** lookupMemberSymbol for a variable in the scope of a struct type's symbol. */
    method LookupField(t: Type, name: Name) returns (r: Option<SymbolId>)
      ensures r == EntrySpec.LookupField(State(), t, name)
    {
      r := None;
      if t.StructType? && t.tsym < |symbols| && symbols[t.tsym].scope.Some? {
        var sc := symbols[t.tsym].scope.value;
        if sc < |scopes| && name in scopes[sc].entries {
          var m := scopes[sc].entries[name];
          if m < |symbols| && symbols[m].kind == VariableSym {
            r := Some(m);
          }
        }
      }
    }

    /** visit(function) */
    method VisitFunction(f: Invokable, env: Env)
      requires env.scope < |scopes| && EntrySpec.WellFormedInvokable(f)
      modifies this
      ensures State() == EntrySpec.VisitFunction(old(State()), resolveTypeNode, f, env)
    {
      ValidateFuncReceiver(f, env);
      var recvType := if f.receiver.Some? then Some(nodeType[f.receiver.value.id]) else None;
      var funcSymbol := |symbols|;
      symbols := symbols + [NewSymbol(FunctionSym, f.flags, FuncSymbolName(f.name, recvType), env.pkgID,
                                      Some(scopes[env.scope].owner), NoType)];
      var fnEnv := DefineInvokableSymbol(f, funcSymbol, env);
      if f.receiver.Some? {
        DefineReceiver(f, funcSymbol, recvType.value, fnEnv);
      }
    }

    /** The receiver part of visit(function): the field clash check, the
        receiver's definition in the function's scope, and the function
        symbol's record of it. */
    method DefineReceiver(f: Invokable, funcSymbol: SymbolId, recvType: Type, fnEnv: Env)
      requires f.receiver.Some? && f.receiver.value.name != EMPTY
      requires funcSymbol < |symbols| && fnEnv.scope < |scopes| && symbols[funcSymbol].symType.InvokableType?
      modifies this
      ensures State() == EntrySpec.DefineReceiver(old(State()), resolveTypeNode, f, funcSymbol, recvType, fnEnv)
    {
      ReportFieldClash(f, recvType);
      VisitVariable(f.receiver.value, fnEnv);
      var recvSymbol := nodeSymbol[f.receiver.value.id];
      RecordReceiver(funcSymbol, recvSymbol);
    }

    /** The method-name check: STRUCT_FIELD_AND_FUNC_WITH_SAME_NAME when the
        receiver type has a field of the function's name. */
    method ReportFieldClash(f: Invokable, recvType: Type)
      modifies this
      ensures State() == old(State()).(diagnostics := old(diagnostics) + EntrySpec.FieldClash(old(State()), f, recvType))
    {
      var field := LookupField(recvType, f.name);
      if field.Some? {
        diagnostics := diagnostics + [Diagnostic(f.id, StructFieldAndFuncWithSameName, [f.name, TypeString(recvType)])];
      }
    }

    /** The function symbol records its receiver symbol and, in its type,
        the receiver's type. */
    method RecordReceiver(funcSymbol: SymbolId, recvSymbol: SymbolId)
      requires funcSymbol < |symbols| && recvSymbol < |symbols| && symbols[funcSymbol].symType.InvokableType?
      modifies this
      ensures var fs := old(symbols)[funcSymbol];
              State() == old(State()).(symbols := old(symbols)[funcSymbol := fs.(receiverSymbol := Some(recvSymbol),
                symType := fs.symType.(receiverType := Some(old(symbols)[recvSymbol].symType)))])
    {
      var fs := symbols[funcSymbol];
      symbols := symbols[funcSymbol := fs.(receiverSymbol := Some(recvSymbol),
                                           symType := fs.symType.(receiverType := Some(symbols[recvSymbol].symType)))];
    }

    /** visit(action) and visit(resource): a symbol of the member's kind,
        defined with its parameters. */
    method VisitMember(kind: SymKind, a: Invokable, env: Env)
      requires env.scope < |scopes| && EntrySpec.WellFormedInvokable(a)
      modifies this
      ensures State() == EntrySpec.VisitMember(old(State()), resolveTypeNode, kind, a, env)
      ensures |scopes| == |old(scopes)| + 1
    {
      var memberSymbol := |symbols|;
      symbols := symbols + [NewSymbol(kind, a.flags, a.name, env.pkgID, Some(scopes[env.scope].owner), NoType)];
      var _ := DefineInvokableSymbol(a, memberSymbol, env);
    }

    /** Marks each action or resource public and visits it, in order. */
    method VisitPublicMembers(kind: SymKind, fs: seq<Invokable>, env: Env)
      requires env.scope < |scopes| && forall j | 0 <= j < |fs| :: EntrySpec.WellFormedInvokable(fs[j])
      modifies this
      ensures State() == EntrySpec.VisitMembers(old(State()), resolveTypeNode, kind, EntrySpec.PublicInvokables(fs), env)
    {
      for i := 0 to |fs|
        invariant env.scope < |scopes|
        invariant State() == PublicMembersUpTo(old(State()), resolveTypeNode, kind, fs, i, env)
      {
        VisitPublicMember(old(State()), kind, fs, i, env);
      }
      assert EntrySpec.PublicInvokables(fs)[..|fs|] == EntrySpec.PublicInvokables(fs);
    }

    /** One step of the above: the `i`th member, marked public, is visited. */
    method VisitPublicMember(ghost st0: EntrySpec.PassState, kind: SymKind, fs: seq<Invokable>, i: nat, env: Env)
      requires i < |fs| && env.scope < |scopes| && forall j | 0 <= j < |fs| :: EntrySpec.WellFormedInvokable(fs[j])
      requires env.scope < |st0.scopes|
      requires State() == PublicMembersUpTo(st0, resolveTypeNode, kind, fs, i, env)
      modifies this
      ensures State() == PublicMembersUpTo(st0, resolveTypeNode, kind, fs, i + 1, env)
      ensures |scopes| == |old(scopes)| + 1
    {
      VisitMembersStep(st0, resolveTypeNode, kind, EntrySpec.PublicInvokables(fs), i, env);
      VisitMember(kind, fs[i].(flags := fs[i].flags + {Public}), env);
    }

    /** The symbol a node was given and that symbol's own scope, when it has both. */
    method NodeScope(id: NodeId) returns (r: Option<(SymbolId, ScopeId)>)
      ensures r == EntrySpec.NodeScope(State(), id)
    {
      r := None;
      if id in nodeSymbol && nodeSymbol[id] < |symbols| {
        var sym := nodeSymbol[id];
        if symbols[sym].scope.Some? && symbols[sym].scope.value < |scopes| {
          r := Some((sym, symbols[sym].scope.value));
        }
      }
    }

    /** visit(struct): the struct symbol, defined, with an empty struct type. */
    method VisitStruct(s: StructNode, env: Env)
      requires env.scope < |scopes|
      modifies this
      ensures State() == EntrySpec.VisitStruct(old(State()), s, env)
    {
      var structSymbol := |symbols|;
      symbols := symbols + [NewSymbol(StructSym, s.flags, s.name, env.pkgID, Some(scopes[env.scope].owner), NoType)];
      nodeSymbol := nodeSymbol[s.id := structSymbol];
      DefineSymbol(s.id, structSymbol, env);
      symbols := symbols[structSymbol := symbols[structSymbol].(symType := StructType(structSymbol, s.name, env.pkgID))];
    }

    method VisitStructs(ss: seq<StructNode>, env: Env)
      requires env.scope < |scopes|
      modifies this
      ensures State() == EntrySpec.DefineStructs(old(State()), ss, env)
    {
      ghost var st0 := State();
      for i := 0 to |ss|
        invariant env.scope < |scopes|
        invariant State() == EntrySpec.DefineStructs(st0, ss[..i], env)
      {
        DefineStructsStep(st0, ss, i, env);
        VisitStruct(ss[i], env);
      }
      assert ss[..|ss|] == ss;
    }

    /** defineConnectorInitFunction: the initialiser is recorded on the
        connector and visited as a function. */
    method DefineConnectorInitFunction(c: ConnectorNode, env: Env)
      requires env.scope < |scopes|
      modifies this
      ensures State() == EntrySpec.VisitFunction(old(State()).(initFunctions := old(initFunctions)[c.id := ConnectorInit(c)]),
                                                 resolveTypeNode, ConnectorInit(c), env)
    {
      var initFunction := ConnectorInitFunction(c);
      initFunctions := initFunctions[c.id := initFunction];
      VisitFunction(initFunction, env);
    }

    /** visit(connector): the initialiser is defined before the connector itself. */
    method VisitConnector(c: ConnectorNode, env: Env)
      requires env.scope < |scopes|
      modifies this
      ensures State() == EntrySpec.VisitConnector(old(State()), resolveTypeNode, c, env)
    {
      ghost var st0 := State();
      var conSymbol := |symbols|;
      symbols := symbols + [NewSymbol(ConnectorSym, c.flags, c.name, env.pkgID, Some(scopes[env.scope].owner), NoType)];
      nodeSymbol := nodeSymbol[c.id := conSymbol];
      ghost var st1 := EntrySpec.NewSlot(st0, NewSymbol(ConnectorSym, c.flags, c.name, env.pkgID, Some(EntrySpec.OwnerOf(st0, env)), NoType));
      assert State() == st1.(nodeSymbol := st1.nodeSymbol[c.id := conSymbol]);
      DefineConnectorInitFunction(c, env);
      DefineSymbol(c.id, conSymbol, env);
    }

    method VisitConnectors(cs: seq<ConnectorNode>, env: Env)
      requires env.scope < |scopes|
      modifies this
      ensures State() == EntrySpec.DefineConnectors(old(State()), resolveTypeNode, cs, env)
    {
      ghost var st0 := State();
      for i := 0 to |cs|
        invariant env.scope < |scopes|
        invariant State() == EntrySpec.DefineConnectors(st0, resolveTypeNode, cs[..i], env)
      {
        DefineConnectorsStep(st0, resolveTypeNode, cs, i, env);
        VisitConnector(cs[i], env);
      }
      assert cs[..|cs|] == cs;
    }

    /** defineServiceInitFunction */
    method DefineServiceInitFunction(s: ServiceNode, env: Env)
      requires env.scope < |scopes|
      modifies this
      ensures State() == EntrySpec.VisitFunction(old(State()).(initFunctions := old(initFunctions)[s.id := ServiceInit(s)]),
                                                 resolveTypeNode, ServiceInit(s), env)
    {
      var initFunction := ServiceInitFunction(s);
      initFunctions := initFunctions[s.id := initFunction];
      VisitFunction(initFunction, env);
    }

    /** visit(service) */
    method VisitService(s: ServiceNode, env: Env)
      requires env.scope < |scopes|
      modifies this
      ensures State() == EntrySpec.VisitService(old(State()), resolveTypeNode, s, env)
    {
      var serviceSymbol := |symbols|;
      symbols := symbols + [NewSymbol(ServiceSym, s.flags, s.name, env.pkgID, Some(scopes[env.scope].owner), NoType)];
      nodeSymbol := nodeSymbol[s.id := serviceSymbol];
      DefineServiceInitFunction(s, env);
      DefineSymbol(s.id, serviceSymbol, env);
    }

    /** defineStructFields, for one struct: each field is made public and
        defined in the struct's scope; the struct type gets the field list. */
    method DefineStructFieldsOf(s: StructNode, env: Env)
      modifies this
      ensures State() == EntrySpec.DefineStructFieldsOf(old(State()), resolveTypeNode, s, env)
    {
      var ns := NodeScope(s.id);
      if ns.None? {
        return;
      }
      var (structSymbol, sc) := ns.value;
      var structEnv := Env(sc, env.pkgID);
      var fields := DefineFields(s.fields, structEnv);
      symbols := symbols[structSymbol := symbols[structSymbol].(fields := fields)];
    }

    /** The field loop of defineStructFields: each field is made public,
        defined in the struct's scope and added to the field list. */
    method DefineFields(vs: seq<VarNode>, structEnv: Env) returns (fields: seq<StructField>)
      requires structEnv.scope < |scopes|
      modifies this
      ensures State() == EntrySpec.VisitVariables(old(State()), resolveTypeNode, EntrySpec.MakePublic(vs), structEnv)
      ensures fields == EntrySpec.FieldsOf(resolveTypeNode, EntrySpec.MakePublic(vs), structEnv)
    {
      ghost var pub := EntrySpec.MakePublic(vs);
      fields := [];
      for i := 0 to |vs|
        invariant |symbols| >= |old(symbols)| && |scopes| == |old(scopes)|
        invariant State() == EntrySpec.VisitVariables(old(State()), resolveTypeNode, pub[..i], structEnv)
        invariant fields == EntrySpec.FieldsOf(resolveTypeNode, pub[..i], structEnv)
      {
        var field := vs[i].(flags := vs[i].flags + {Public});
        VisitVariablesStep(old(State()), resolveTypeNode, pub, i, structEnv);
        FieldsOfStep(resolveTypeNode, pub, i, structEnv);
        VisitVariable(field, structEnv);
        fields := fields + [StructField(field.name, nodeType[field.id])];
      }
      assert pub[..|vs|] == pub;
    }

    method DefineStructFields(ss: seq<StructNode>, env: Env)
      modifies this
      ensures State() == EntrySpec.DefineStructFields(old(State()), resolveTypeNode, ss, env)
    {
      ghost var st0 := State();
      for i := 0 to |ss|
        invariant State() == EntrySpec.DefineStructFields(st0, resolveTypeNode, ss[..i], env)
      {
        DefineStructFieldsStep(st0, resolveTypeNode, ss, i, env);
        DefineStructFieldsOf(ss[i], env);
      }
      assert ss[..|ss|] == ss;
    }

    /** defineActions, for one connector: its actions, in the connector's scope. */
    method DefineActionsOf(c: ConnectorNode, env: Env)
      requires EntrySpec.WellFormedConnector(c)
      modifies this
      ensures State() == EntrySpec.DefineActionsOf(old(State()), resolveTypeNode, c, env)
    {
      var ns := NodeScope(c.id);
      if ns.Some? {
        VisitPublicMembers(ActionSym, c.actions, Env(ns.value.1, env.pkgID));
      }
    }

    method DefineActions(cs: seq<ConnectorNode>, env: Env)
      requires forall j | 0 <= j < |cs| :: EntrySpec.WellFormedConnector(cs[j])
      modifies this
      ensures State() == EntrySpec.DefineActions(old(State()), resolveTypeNode, cs, env)
    {
      ghost var st0 := State();
      for i := 0 to |cs|
        invariant State() == EntrySpec.DefineActions(st0, resolveTypeNode, cs[..i], env)
      {
        DefineActionsStep(st0, resolveTypeNode, cs, i, env);
        DefineActionsOf(cs[i], env);
      }
      assert cs[..|cs|] == cs;
    }

    method VisitFunctions(fs: seq<Invokable>, env: Env)
      requires env.scope < |scopes| && forall j | 0 <= j < |fs| :: EntrySpec.WellFormedInvokable(fs[j])
      modifies this
      ensures State() == EntrySpec.DefineFunctions(old(State()), resolveTypeNode, fs, env)
    {
      ghost var st0 := State();
      for i := 0 to |fs|
        invariant env.scope < |scopes|
        invariant State() == EntrySpec.DefineFunctions(st0, resolveTypeNode, fs[..i], env)
      {
        DefineFunctionsStep(st0, resolveTypeNode, fs, i, env);
        VisitFunction(fs[i], env);
      }
      assert fs[..|fs|] == fs;
    }

    /** defineServices, for one service: the service, then its resources in its scope. */
    method DefineServiceOf(s: ServiceNode, env: Env)
      requires env.scope < |scopes| && EntrySpec.WellFormedService(s)
      modifies this
      ensures State() == EntrySpec.DefineServiceOf(old(State()), resolveTypeNode, s, env)
    {
      VisitService(s, env);
      var ns := NodeScope(s.id);
      if ns.Some? {
        VisitPublicMembers(ResourceSym, s.resources, Env(ns.value.1, env.pkgID));
      }
    }

    method DefineServices(ss: seq<ServiceNode>, env: Env)
      requires env.scope < |scopes| && forall j | 0 <= j < |ss| :: EntrySpec.WellFormedService(ss[j])
      modifies this
      ensures State() == EntrySpec.DefineServices(old(State()), resolveTypeNode, ss, env)
    {
      ghost var st0 := State();
      for i := 0 to |ss|
        invariant env.scope < |scopes|
        invariant State() == EntrySpec.DefineServices(st0, resolveTypeNode, ss[..i], env)
      {
        DefineServicesStep(st0, resolveTypeNode, ss, i, env);
        DefineServiceOf(ss[i], env);
      }
      assert ss[..|ss|] == ss;
    }

    /** definePackageInitFunction */
    method DefinePackageInitFunction(pkgNodeId: NodeId, pkgName: Name, globals: seq<VarNode>, env: Env)
      requires env.scope < |scopes|
      modifies this
      ensures State() == EntrySpec.DefinePackageInitFunction(old(State()), resolveTypeNode, pkgNodeId, pkgName, globals, env)
    {
      var initFunction := PackageInitFunction(pkgNodeId, pkgName, globals);
      initFunctions := initFunctions[pkgNodeId := initFunction];
      VisitFunction(initFunction, env);
    }
  }

  // One step of each loop of SymbolEnter: the fold over a prefix one longer
  // is the fold over the prefix followed by the visit of the next element.

  lemma DefineImportsStep(st: EntrySpec.PassState, ld: EntrySpec.Loader, xs: seq<ImportNode>, i: nat, env: Env)
    requires i < |xs| && env.scope < |st.scopes|
    ensures EntrySpec.DefineImports(st, ld, xs[..i + 1], env)
         == EntrySpec.VisitImport(EntrySpec.DefineImports(st, ld, xs[..i], env), ld, xs[i], env)
  {
    assert xs[..i + 1][..i] == xs[..i];
  }

  lemma VisitVariablesStep(st: EntrySpec.PassState, rt: EntrySpec.Resolver, xs: seq<VarNode>, i: nat, env: Env)
    requires i < |xs| && env.scope < |st.scopes|
    ensures EntrySpec.VisitVariables(st, rt, xs[..i + 1], env)
         == EntrySpec.VisitVariable(EntrySpec.VisitVariables(st, rt, xs[..i], env), rt, xs[i], env)
  {
    assert xs[..i + 1][..i] == xs[..i];
  }

  /** The state once the first `i` members of `fs`, marked public, are visited. */
  ghost function PublicMembersUpTo(st: EntrySpec.PassState, rt: EntrySpec.Resolver, kind: SymKind, fs: seq<Invokable>,
                                   i: nat, env: Env): EntrySpec.PassState
    requires i <= |fs| && env.scope < |st.scopes| && forall j | 0 <= j < |fs| :: EntrySpec.WellFormedInvokable(fs[j])
  {
    EntrySpec.VisitMembers(st, rt, kind, EntrySpec.PublicInvokables(fs)[..i], env)
  }

  lemma VisitMembersStep(st: EntrySpec.PassState, rt: EntrySpec.Resolver, kind: SymKind, xs: seq<Invokable>, i: nat, env: Env)
    requires i < |xs| && env.scope < |st.scopes| && forall j | 0 <= j < |xs| :: EntrySpec.WellFormedInvokable(xs[j])
    ensures EntrySpec.VisitMembers(st, rt, kind, xs[..i + 1], env)
         == EntrySpec.VisitMember(EntrySpec.VisitMembers(st, rt, kind, xs[..i], env), rt, kind, xs[i], env)
  {
    assert xs[..i + 1][..i] == xs[..i];
  }

  lemma DefineStructsStep(st: EntrySpec.PassState, xs: seq<StructNode>, i: nat, env: Env)
    requires i < |xs| && env.scope < |st.scopes|
    ensures EntrySpec.DefineStructs(st, xs[..i + 1], env)
         == EntrySpec.VisitStruct(EntrySpec.DefineStructs(st, xs[..i], env), xs[i], env)
  {
    assert xs[..i + 1][..i] == xs[..i];
  }

  lemma DefineConnectorsStep(st: EntrySpec.PassState, rt: EntrySpec.Resolver, xs: seq<ConnectorNode>, i: nat, env: Env)
    requires i < |xs| && env.scope < |st.scopes|
    ensures EntrySpec.DefineConnectors(st, rt, xs[..i + 1], env)
         == EntrySpec.VisitConnector(EntrySpec.DefineConnectors(st, rt, xs[..i], env), rt, xs[i], env)
  {
    assert xs[..i + 1][..i] == xs[..i];
  }

  lemma DefineStructFieldsStep(st: EntrySpec.PassState, rt: EntrySpec.Resolver, xs: seq<StructNode>, i: nat, env: Env)
    requires i < |xs|
    ensures EntrySpec.DefineStructFields(st, rt, xs[..i + 1], env)
         == EntrySpec.DefineStructFieldsOf(EntrySpec.DefineStructFields(st, rt, xs[..i], env), rt, xs[i], env)
  {
    assert xs[..i + 1][..i] == xs[..i];
  }

  lemma DefineActionsStep(st: EntrySpec.PassState, rt: EntrySpec.Resolver, xs: seq<ConnectorNode>, i: nat, env: Env)
    requires i < |xs| && forall j | 0 <= j < |xs| :: EntrySpec.WellFormedConnector(xs[j])
    ensures EntrySpec.DefineActions(st, rt, xs[..i + 1], env)
         == EntrySpec.DefineActionsOf(EntrySpec.DefineActions(st, rt, xs[..i], env), rt, xs[i], env)
  {
    assert xs[..i + 1][..i] == xs[..i];
  }

  lemma DefineFunctionsStep(st: EntrySpec.PassState, rt: EntrySpec.Resolver, xs: seq<Invokable>, i: nat, env: Env)
    requires i < |xs| && env.scope < |st.scopes| && forall j | 0 <= j < |xs| :: EntrySpec.WellFormedInvokable(xs[j])
    ensures EntrySpec.DefineFunctions(st, rt, xs[..i + 1], env)
         == EntrySpec.VisitFunction(EntrySpec.DefineFunctions(st, rt, xs[..i], env), rt, xs[i], env)
  {
    assert xs[..i + 1][..i] == xs[..i];
  }

  lemma DefineServicesStep(st: EntrySpec.PassState, rt: EntrySpec.Resolver, xs: seq<ServiceNode>, i: nat, env: Env)
    requires i < |xs| && env.scope < |st.scopes| && forall j | 0 <= j < |xs| :: EntrySpec.WellFormedService(xs[j])
    ensures EntrySpec.DefineServices(st, rt, xs[..i + 1], env)
         == EntrySpec.DefineServiceOf(EntrySpec.DefineServices(st, rt, xs[..i], env), rt, xs[i], env)
  {
    assert xs[..i + 1][..i] == xs[..i];
  }

  lemma TypesOfStep(rt: EntrySpec.Resolver, xs: seq<VarNode>, i: nat, env: Env)
    requires i < |xs|
    ensures EntrySpec.TypesOf(rt, xs[..i + 1], env) == EntrySpec.TypesOf(rt, xs[..i], env) + [rt(xs[i].typeNode, env)]
  {
    assert xs[..i + 1][..i] == xs[..i];
  }

  lemma FieldsOfStep(rt: EntrySpec.Resolver, xs: seq<VarNode>, i: nat, env: Env)
    requires i < |xs|
    ensures EntrySpec.FieldsOf(rt, xs[..i + 1], env)
         == EntrySpec.FieldsOf(rt, xs[..i], env) + [StructField(xs[i].name, rt(xs[i].typeNode, env))]
  {
    assert xs[..i + 1][..i] == xs[..i];
  }

  lemma NamedStep(xs: seq<VarNode>, i: nat)
    requires i < |xs|
    ensures EntrySpec.Named(xs[..i + 1]) == EntrySpec.Named(xs[..i]) + if xs[i].name != EMPTY then [xs[i]] else []
  {
    assert xs[..i + 1][..i] == xs[..i];
  }

  lemma RangeStep(lo: nat, k: nat)
    ensures EntrySpec.Range(lo, k + 1) == EntrySpec.Range(lo, k) + [lo + k]
  {
  }
}
