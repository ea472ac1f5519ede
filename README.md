# SymbolEnter: the Ballerina compiler's symbol-entry pass, in Dafny

This project models `SymbolEnter`, the semantic-analysis pass of the Ballerina compiler that runs right after parsing. The pass walks a package's syntax tree and does three things. It creates a symbol for every package, import, struct, connector, service, function, action, resource, parameter, field and global variable. It enters each symbol into the enclosing scope after a uniqueness check. It synthesises the initialiser functions of connectors, services and the package.

The model has seven parts.

- **Data** (`base.dfy`, `ast.dfy`, `symbols.dfy`):
  - names, package ids, types and tree nodes are datatypes;
  - symbols live in one arena and scopes in another (`seq`s), and they refer to each other by index;
  - the annotations the pass writes into tree nodes (a node's symbol, a node's type, a node's synthesised init function) are maps keyed by node id.
- **The package node** (`package_node.dfy`): the class `PackageNodes.PackageNode`. Its methods fill the per-kind buckets (imports, structs, connectors, services, functions, global variables) from the compilation units, in order. They are proved against the pure `Add`/`AddAll` fold, and `AddAllIsBucketed` gives the closed form of that fold.
- **Initialiser construction** (`init_functions.dfy`): the three synthesised init functions and their bodies. Each body is one variable definition per variable, in order, followed by a single return.
- **The specification of the pass** (`entry_spec.dfy`): one pure function per operation of the pass. Each maps the pass state (the symbol and scope arenas, the diagnostics log and the node tables) to the new state, with the same branches as the code.
- **The pass itself** (`symbol_enter.dfy`): the class `SymbolEntering.SymbolEnter`. It holds the pass state in fields that its methods update in place. Every method ends in exactly the state its specification function gives.
- **Invariants** (`entry_validity.dfy`), proved to hold after every operation and for the whole of `visit(package)`:
  - the pass only adds: no symbol changes its kind, flags, name, package or owner; no scope loses or rebinds a name or changes owner; no diagnostic is withdrawn;
  - the state stays well formed: there is no dangling handle, and every defined symbol owns its own scope.
- **Behaviour** (`entry_properties.dfy`): what each operation does to symbols, scopes and diagnostics:
  - the first binding of a name wins, and every later one is reported as REDECLARED_SYMBOL;
  - a function's parameters and named return bindings take consecutive handles, and its type lists their types;
  - receiver validation, and a method's dotted symbol name;
  - struct fields, actions and resources are PUBLIC;
  - an initialiser is defined before its connector or service;
  - what `visit(package)` leaves behind: the package symbol, its scope and the package initialiser.

Two collaborators of the pass are parameters of the `SymbolEnter` constructor and are otherwise uninterpreted: the type resolver (`resolveTypeNode`, from a type node and an environment to a type) and the package loader (`loadPackage`, from a name path and version to a package id). Every source position is the id of a tree node.

Some descriptions of this pass say it reports a diagnostic when two imports share an alias. The code enters the alias with no uniqueness check and reports nothing, and the model follows the code (`VisitImport`). The same descriptions suggest that a method with an invalid receiver has its receiver type replaced by the error type. The code only logs the diagnostic, and the model does the same.

## Model

| member | source | states |
|---|---|---|
| `Symbols.Define` | modules/ballerina-lang/src/main/java/org/wso2/ballerinalang/compiler/semantics/analyzer/SymbolEnter.java:441-446 | Scope insertion keeps the owner and every existing binding, binds the new name exactly when it was unbound, and to the given symbol |
| `Symbols.Redeclared` | modules/ballerina-lang/src/main/java/org/wso2/ballerinalang/compiler/semantics/analyzer/SymbolEnter.java:441-446 | The uniqueness check yields no diagnostic iff the name is unbound in the scope, else exactly one REDECLARED_SYMBOL at the given position naming it |
| `Symbols.FuncSymbolName` | modules/ballerina-lang/src/main/java/org/wso2/ballerinalang/compiler/semantics/analyzer/SymbolEnter.java:568-573 | A function's symbol name is its plain name without a receiver, and the receiver type's rendering, a dot, then the name with one |
| `Symbols.MethodNameHasDot` | modules/ballerina-lang/src/main/java/org/wso2/ballerinalang/compiler/semantics/analyzer/SymbolEnter.java:568-573 | Every method symbol name contains a dot |
| `Symbols.MethodNameInjective` | modules/ballerina-lang/src/main/java/org/wso2/ballerinalang/compiler/semantics/analyzer/SymbolEnter.java:568-573 | For dot-free names, equal method symbol names imply equal function names and equal receiver-type renderings |
| `Symbols.ReceiverDiagnostics` | modules/ballerina-lang/src/main/java/org/wso2/ballerinalang/compiler/semantics/analyzer/SymbolEnter.java:545-566 | Receiver validation reports nothing iff the type is the error type or a struct of this package; exactly one FUNC_DEFINED_ON_NON_STRUCT_TYPE iff it is another non-error type, exactly one FUNC_DEFINED_ON_NON_LOCAL_STRUCT_TYPE iff it is a struct of another package; at the receiver, naming the function and the type |
| `PackageNodes.AddTopLevelNode` | modules/ballerina-lang/src/main/java/org/wso2/ballerinalang/compiler/semantics/analyzer/SymbolEnter.java:322-370 | Adding a node appends it to the ordered list unless it is a package declaration or import, and routes it to its kind's bucket (an import only when no import with the same name path, version and alias is present, the package declaration replaced) |
| `PackageNodes.PopulateCompilationUnit` | modules/ballerina-lang/src/main/java/org/wso2/ballerinalang/compiler/semantics/analyzer/SymbolEnter.java:315-320 | A unit's top-level nodes are added one by one, in order |
| `PackageNodes.PopulatePackageNode` | modules/ballerina-lang/src/main/java/org/wso2/ballerinalang/compiler/semantics/analyzer/SymbolEnter.java:304-307 | Every compilation unit is read in order: the buckets are those of adding all units' nodes, grouped by unit |
| `PackageNodes.AddAllIsBucketed` | modules/ballerina-lang/src/main/java/org/wso2/ballerinalang/compiler/semantics/analyzer/SymbolEnter.java:322-370 | After adding a sequence of nodes every bucket holds its old contents followed by exactly the nodes of its kind in encounter order; the declaration is the last one met; imports are deduplicated |
| `PackageNodes.PickConcat` | modules/ballerina-lang/src/main/java/org/wso2/ballerinalang/compiler/semantics/analyzer/SymbolEnter.java:325-331 | The kept nodes of several units are the units' kept nodes one after the other, so grouping by compilation unit is preserved |
| `PackageNodes.PickMembership` | modules/ballerina-lang/src/main/java/org/wso2/ballerinalang/compiler/semantics/analyzer/SymbolEnter.java:334-362 | An element is in a bucket iff some node of its kind carried it |
| `PackageNodes.TopLevelMembership` | modules/ballerina-lang/src/main/java/org/wso2/ballerinalang/compiler/semantics/analyzer/SymbolEnter.java:330-332 | The ordered list holds a node iff it was met and is neither a package declaration nor an import |
| `PackageNodes.UnbucketedKinds` | modules/ballerina-lang/src/main/java/org/wso2/ballerinalang/compiler/semantics/analyzer/SymbolEnter.java:363-368 | Annotation and XMLNS declarations reach no bucket; only the ordered list grows |
| `PackageNodes.ImportsDeduplicated` | modules/ballerina-lang/src/main/java/org/wso2/ballerinalang/compiler/semantics/analyzer/SymbolEnter.java:343-345 | No two imports in the bucket share name path, version and alias; an import of a given key is present iff it was already or one with that key was met; every entry is one already there or met |
| `PackageNodes.RepeatedImportKeptOnce` | modules/ballerina-lang/src/main/java/org/wso2/ballerinalang/compiler/semantics/analyzer/SymbolEnter.java:343-345 | A second import with the same name path, version and alias, from any node, leaves the import bucket unchanged |
| `PackageNodes.AddAllConcat` | modules/ballerina-lang/src/main/java/org/wso2/ballerinalang/compiler/semantics/analyzer/SymbolEnter.java:304-320 | Adding two runs of nodes is adding the first, then the second |
| `InitFunctions.CreateInitFunction` | modules/ballerina-lang/src/main/java/org/wso2/ballerinalang/compiler/semantics/analyzer/SymbolEnter.java:512-521 | An init function is named after its container with the init suffix, and starts with no receiver, parameters, return bindings or statements |
| `InitFunctions.VarDefs` | modules/ballerina-lang/src/main/java/org/wso2/ballerinalang/compiler/semantics/analyzer/SymbolEnter.java:482-484 | One variable-definition statement per variable, in declaration order |
| `InitFunctions.AddInitReturnStatement` | modules/ballerina-lang/src/main/java/org/wso2/ballerinalang/compiler/semantics/analyzer/SymbolEnter.java:538-543 | The body keeps its statements and gains one return at the end |
| `InitFunctions.InitBody` | modules/ballerina-lang/src/main/java/org/wso2/ballerinalang/compiler/semantics/analyzer/SymbolEnter.java:504-507 | An init body is the variable definitions in order followed by a return |
| `InitFunctions.InitBodyReturnsOnce` | modules/ballerina-lang/src/main/java/org/wso2/ballerinalang/compiler/semantics/analyzer/SymbolEnter.java:538-543 | An init body holds exactly one return, as its last statement |
| `InitFunctions.ConnectorParam` | modules/ballerina-lang/src/main/java/org/wso2/ballerinalang/compiler/semantics/analyzer/SymbolEnter.java:473-479 | The connector init's parameter is named CONNECTOR and typed by the connector's own name |
| `InitFunctions.ConnectorInit` | modules/ballerina-lang/src/main/java/org/wso2/ballerinalang/compiler/semantics/analyzer/SymbolEnter.java:470-486 | A connector init has the connector's name plus the suffix, that one parameter, no receiver or returns, and the variable definitions then a return |
| `InitFunctions.ServiceInit` | modules/ballerina-lang/src/main/java/org/wso2/ballerinalang/compiler/semantics/analyzer/SymbolEnter.java:490-497 | A service init has the service's name plus the suffix, no parameters, and the service variables then a return |
| `InitFunctions.PackageInit` | modules/ballerina-lang/src/main/java/org/wso2/ballerinalang/compiler/semantics/analyzer/SymbolEnter.java:501-508 | The package init has the package name plus the suffix, no parameters, and one definition per package-level variable in order then a return |
| `InitFunctions.AppendInitStatements` | modules/ballerina-lang/src/main/java/org/wso2/ballerinalang/compiler/semantics/analyzer/SymbolEnter.java:504-507 | The loop appends one definition per variable, then the return, to the body |
| `InitFunctions.ConnectorInitFunction` | modules/ballerina-lang/src/main/java/org/wso2/ballerinalang/compiler/semantics/analyzer/SymbolEnter.java:471-485 | Building a connector's init node gives ConnectorInit |
| `InitFunctions.ServiceInitFunction` | modules/ballerina-lang/src/main/java/org/wso2/ballerinalang/compiler/semantics/analyzer/SymbolEnter.java:491-496 | Building a service's init node gives ServiceInit |
| `InitFunctions.PackageInitFunction` | modules/ballerina-lang/src/main/java/org/wso2/ballerinalang/compiler/semantics/analyzer/SymbolEnter.java:502-507 | Building the package init node gives PackageInit |
| `EntrySpec.InitialState` | modules/ballerina-lang/src/main/java/org/wso2/ballerinalang/compiler/semantics/analyzer/SymbolEnter.java:117-118 | Before any package only the root package symbol exists, with its own empty scope, and no diagnostic |
| `EntrySpec.VarSymbolOf` | modules/ballerina-lang/src/main/java/org/wso2/ballerinalang/compiler/semantics/analyzer/SymbolEnter.java:459-460 | A variable symbol carries the binding's name and flags, the given type, the owner of the enclosing scope, and no scope of its own |
| `EntrySpec.DefineSymbol` | modules/ballerina-lang/src/main/java/org/wso2/ballerinalang/compiler/semantics/analyzer/SymbolEnter.java:441-446 | defineSymbol adds no symbol and exactly one scope, the symbol's own; what it does is stated by EntryProperties DefineSymbolGuarded |
| `EntrySpec.DefineVarSymbol` | modules/ballerina-lang/src/main/java/org/wso2/ballerinalang/compiler/semantics/analyzer/SymbolEnter.java:455-468 | defineVarSymbol adds exactly one symbol and no scope |
| `EntrySpec.VisitVariable` | modules/ballerina-lang/src/main/java/org/wso2/ballerinalang/compiler/semantics/analyzer/SymbolEnter.java:267-280 | visit(variable) adds one symbol for a named binding and none for EMPTY, and no scope; what it does is stated by EntryProperties VisitVariableNodes, VisitVariableScopes and VisitVariableUnnamed |
| `EntrySpec.VisitVariables` | modules/ballerina-lang/src/main/java/org/wso2/ballerinalang/compiler/semantics/analyzer/SymbolEnter.java:167 | Visiting bindings adds one symbol per named binding and no scope; what it does is stated by EntryProperties VisitVariablesScopes, VisitVariablesSymbols and VisitVariablesNodeSymbols |
| `EntrySpec.NamedMembers` | modules/ballerina-lang/src/main/java/org/wso2/ballerinalang/compiler/semantics/analyzer/SymbolEnter.java:423 | The bindings that get a symbol are exactly those not named EMPTY |
| `EntrySpec.TypesOf` | modules/ballerina-lang/src/main/java/org/wso2/ballerinalang/compiler/semantics/analyzer/SymbolEnter.java:431-436 | The type list has one entry per binding, its resolved type, in order |
| `EntrySpec.DefineInvokableSymbolParams` | modules/ballerina-lang/src/main/java/org/wso2/ballerinalang/compiler/semantics/analyzer/SymbolEnter.java:412-439 | The parameters and named return bindings each add one symbol, no scope is added, and the invokable gets an invokable type; what it does is stated by EntryProperties DefineInvokableSymbolParamsSymbols and DefineInvokableSymbolParamsScopes |
| `EntrySpec.CompleteSignature` | modules/ballerina-lang/src/main/java/org/wso2/ballerinalang/compiler/semantics/analyzer/SymbolEnter.java:427-438 | Recording the signature changes no symbol count, scope or diagnostic |
| `EntrySpec.RecordSignature` | modules/ballerina-lang/src/main/java/org/wso2/ballerinalang/compiler/semantics/analyzer/SymbolEnter.java:427-428 | Recording parameter lists and type keeps the arenas' sizes and the scopes |
| `EntrySpec.DefineInvokableSymbol` | modules/ballerina-lang/src/main/java/org/wso2/ballerinalang/compiler/semantics/analyzer/SymbolEnter.java:404-410 | defineInvokableSymbol adds the invokable's own scope and one symbol per parameter and named return binding, and types the invokable; what it does is stated by EntryProperties DefineInvokableSymbolSignature, DefineInvokableSymbolScopes and DefineInvokableSymbolNode |
| `EntrySpec.ValidateFuncReceiver` | modules/ballerina-lang/src/main/java/org/wso2/ballerinalang/compiler/semantics/analyzer/SymbolEnter.java:545-566 | validateFuncReceiver changes no symbol and no scope; what it reports is stated by Symbols.ReceiverDiagnostics and EntryProperties VisitFunctionReceiverDiagnostics |
| `EntrySpec.DefineReceiver` | modules/ballerina-lang/src/main/java/org/wso2/ballerinalang/compiler/semantics/analyzer/SymbolEnter.java:232-245 | The receiver part adds exactly one symbol, the receiver's, and no scope; what it does is stated by EntryProperties DefineReceiverEffect |
| `EntrySpec.VisitFunction` | modules/ballerina-lang/src/main/java/org/wso2/ballerinalang/compiler/semantics/analyzer/SymbolEnter.java:224-246 | visit(function) adds at least the function symbol and exactly one scope, the function's; what it does is stated by EntryProperties VisitFunctionSymbol, VisitFunctionNode, VisitFunctionReceiver and VisitMethodDiagnostics |
| `EntrySpec.VisitMember` | modules/ballerina-lang/src/main/java/org/wso2/ballerinalang/compiler/semantics/analyzer/SymbolEnter.java:249-264 | visit(action)/visit(resource) adds at least the member symbol and exactly one scope; what it does is stated by EntryProperties VisitMemberShape and VisitMemberNode |
| `EntrySpec.VisitStruct` | modules/ballerina-lang/src/main/java/org/wso2/ballerinalang/compiler/semantics/analyzer/SymbolEnter.java:187-195 | visit(struct) adds exactly one symbol and one scope; what it does is stated by EntryProperties VisitStructShape |
| `EntrySpec.VisitConnector` | modules/ballerina-lang/src/main/java/org/wso2/ballerinalang/compiler/semantics/analyzer/SymbolEnter.java:206-212 | visit(connector) adds the connector and its initialiser, and exactly two scopes; what it does is stated by EntryProperties VisitConnectorOrder and VisitConnectorInit |
| `EntrySpec.VisitService` | modules/ballerina-lang/src/main/java/org/wso2/ballerinalang/compiler/semantics/analyzer/SymbolEnter.java:215-221 | visit(service) adds the service and its initialiser, and exactly two scopes; what it does is stated by EntryProperties VisitServiceOrder and VisitServiceInit |
| `EntrySpec.PackageIdOf` | modules/ballerina-lang/src/main/java/org/wso2/ballerinalang/compiler/semantics/analyzer/SymbolEnter.java:287-292 | A package gets the default package id iff it has no declaration; otherwise the declared name path and version |
| `EntrySpec.AddPackageSymbol` | modules/ballerina-lang/src/main/java/org/wso2/ballerinalang/compiler/semantics/analyzer/SymbolEnter.java:291-294 | A package symbol takes one new symbol and one new scope |
| `EntrySpec.CreatePackageSymbol` | modules/ballerina-lang/src/main/java/org/wso2/ballerinalang/compiler/semantics/analyzer/SymbolEnter.java:285-296 | createPackageSymbol adds exactly one symbol and one scope |
| `EntrySpec.LoadedPackage` | modules/ballerina-lang/src/main/java/org/wso2/ballerinalang/compiler/semantics/analyzer/SymbolEnter.java:174-176 | After loading, the package id has a symbol; nothing is removed; what it does is stated by EntryProperties VisitImportEffect |
| `EntrySpec.VisitImport` | modules/ballerina-lang/src/main/java/org/wso2/ballerinalang/compiler/semantics/analyzer/SymbolEnter.java:173-179 | visit(import) never removes a symbol or scope; what it does is stated by EntryProperties VisitImportEffect |
| `EntrySpec.NodeScope` | modules/ballerina-lang/src/main/java/org/wso2/ballerinalang/compiler/semantics/analyzer/SymbolEnter.java:375 | A node's symbol and own scope, when reported, are both in the arenas |
| `EntrySpec.MakePublic` | modules/ballerina-lang/src/main/java/org/wso2/ballerinalang/compiler/semantics/analyzer/SymbolEnter.java:377-378 | Each field keeps its place and gains the PUBLIC flag |
| `EntrySpec.PublicInvokables` | modules/ballerina-lang/src/main/java/org/wso2/ballerinalang/compiler/semantics/analyzer/SymbolEnter.java:390-399 | Each action or resource keeps its place and gains the PUBLIC flag, staying well formed |
| `EntrySpec.FieldsOf` | modules/ballerina-lang/src/main/java/org/wso2/ballerinalang/compiler/semantics/analyzer/SymbolEnter.java:377-381 | The field list is each field's name and resolved type, in declaration order |
| `EntrySpec.DefineStructFieldsOf` | modules/ballerina-lang/src/main/java/org/wso2/ballerinalang/compiler/semantics/analyzer/SymbolEnter.java:373-382 | Defining one struct's fields adds symbols but no scope; what it does is stated by EntryProperties DefineStructFieldsOfEffect and DefineStructFieldsOfPublic |
| `EntrySpec.VisitMembers` | modules/ballerina-lang/src/main/java/org/wso2/ballerinalang/compiler/semantics/analyzer/SymbolEnter.java:398-400 | Visiting members adds one scope per member; what it does is stated by EntryProperties VisitMembersPublic |
| `EntrySpec.DefineActionsOf` | modules/ballerina-lang/src/main/java/org/wso2/ballerinalang/compiler/semantics/analyzer/SymbolEnter.java:396-401 | Defining a connector's actions never shrinks the arenas; what it does is stated by EntryProperties DefineActionsOfPublic |
| `EntrySpec.DefineServiceOf` | modules/ballerina-lang/src/main/java/org/wso2/ballerinalang/compiler/semantics/analyzer/SymbolEnter.java:386-392 | Defining a service's resources never shrinks the arenas; what it does is stated by EntryProperties DefineServiceOfPublic |
| `EntrySpec.DefineImports` | modules/ballerina-lang/src/main/java/org/wso2/ballerinalang/compiler/semantics/analyzer/SymbolEnter.java:147 | The import stage never removes a symbol or scope |
| `EntrySpec.DefineStructs` | modules/ballerina-lang/src/main/java/org/wso2/ballerinalang/compiler/semantics/analyzer/SymbolEnter.java:150 | The struct stage adds one symbol and one scope per struct |
| `EntrySpec.DefineConnectors` | modules/ballerina-lang/src/main/java/org/wso2/ballerinalang/compiler/semantics/analyzer/SymbolEnter.java:153 | The connector stage adds two scopes per connector |
| `EntrySpec.DefineStructFields` | modules/ballerina-lang/src/main/java/org/wso2/ballerinalang/compiler/semantics/analyzer/SymbolEnter.java:156 | The struct-field stage adds no scope |
| `EntrySpec.DefineActions` | modules/ballerina-lang/src/main/java/org/wso2/ballerinalang/compiler/semantics/analyzer/SymbolEnter.java:159 | The action stage never shrinks the symbol or scope arenas; what it does is stated by EntryProperties DefineActionsPublic |
| `EntrySpec.DefineFunctions` | modules/ballerina-lang/src/main/java/org/wso2/ballerinalang/compiler/semantics/analyzer/SymbolEnter.java:162 | The function stage adds one scope per function |
| `EntrySpec.DefineServices` | modules/ballerina-lang/src/main/java/org/wso2/ballerinalang/compiler/semantics/analyzer/SymbolEnter.java:165 | The service stage never shrinks the symbol or scope arenas; what it does is stated by EntryProperties DefineServicesPublic |
| `EntrySpec.DefinePackageInitFunction` | modules/ballerina-lang/src/main/java/org/wso2/ballerinalang/compiler/semantics/analyzer/SymbolEnter.java:501-510 | definePackageInitFunction adds the init function's symbol and scope |
| `EntrySpec.DefineTypeStages` | modules/ballerina-lang/src/main/java/org/wso2/ballerinalang/compiler/semantics/analyzer/SymbolEnter.java:147-153 | The import, struct and connector stages never shrink the arenas |
| `EntrySpec.DefineMemberStages` | modules/ballerina-lang/src/main/java/org/wso2/ballerinalang/compiler/semantics/analyzer/SymbolEnter.java:156-165 | The struct-field, action, function and service stages never shrink the arenas |
| `EntrySpec.DefineGlobalStages` | modules/ballerina-lang/src/main/java/org/wso2/ballerinalang/compiler/semantics/analyzer/SymbolEnter.java:167-169 | The last two stages add the init function's scope and at least its symbol; what it does is stated by EntryProperties GlobalStagesInit |
| `EntrySpec.EnterPackage` | modules/ballerina-lang/src/main/java/org/wso2/ballerinalang/compiler/semantics/analyzer/SymbolEnter.java:141-143 | The package step adds one symbol and one scope; what it does is stated by EntryProperties EnterPackageEffect |
| `EntrySpec.VisitPackage` | modules/ballerina-lang/src/main/java/org/wso2/ballerinalang/compiler/semantics/analyzer/SymbolEnter.java:139-170 | visit(package) adds at least the package symbol and the package scope; what it does is stated by EntryProperties VisitPackageSymbol and VisitPackageInit |
| `EntryValidity.InitialStateValid` | modules/ballerina-lang/src/main/java/org/wso2/ballerinalang/compiler/semantics/analyzer/SymbolEnter.java:117-118 | The initial state holds no dangling handle |
| `EntryValidity.DefineSymbolGrows` | modules/ballerina-lang/src/main/java/org/wso2/ballerinalang/compiler/semantics/analyzer/SymbolEnter.java:441-446 | defineSymbol only adds: no symbol changes identity, no binding is lost or rebound, no diagnostic withdrawn |
| `EntryValidity.DefineSymbolValid` | modules/ballerina-lang/src/main/java/org/wso2/ballerinalang/compiler/semantics/analyzer/SymbolEnter.java:441-446 | defineSymbol keeps every handle in range and every defined symbol owning its scope |
| `EntryValidity.DefineVarSymbolGrows` | modules/ballerina-lang/src/main/java/org/wso2/ballerinalang/compiler/semantics/analyzer/SymbolEnter.java:455-468 | defineVarSymbol only adds |
| `EntryValidity.DefineVarSymbolValid` | modules/ballerina-lang/src/main/java/org/wso2/ballerinalang/compiler/semantics/analyzer/SymbolEnter.java:455-468 | defineVarSymbol keeps the state valid |
| `EntryValidity.VisitVariableGrows` | modules/ballerina-lang/src/main/java/org/wso2/ballerinalang/compiler/semantics/analyzer/SymbolEnter.java:267-280 | visit(variable) only adds |
| `EntryValidity.VisitVariableValid` | modules/ballerina-lang/src/main/java/org/wso2/ballerinalang/compiler/semantics/analyzer/SymbolEnter.java:267-280 | visit(variable) keeps the state valid |
| `EntryValidity.VisitVariablesGrows` | modules/ballerina-lang/src/main/java/org/wso2/ballerinalang/compiler/semantics/analyzer/SymbolEnter.java:167 | Visiting bindings only adds |
| `EntryValidity.VisitVariablesValid` | modules/ballerina-lang/src/main/java/org/wso2/ballerinalang/compiler/semantics/analyzer/SymbolEnter.java:167 | Visiting bindings keeps the state valid |
| `EntryValidity.DefineInvokableSymbolParamsGrows` | modules/ballerina-lang/src/main/java/org/wso2/ballerinalang/compiler/semantics/analyzer/SymbolEnter.java:412-439 | defineInvokableSymbolParams only adds |
| `EntryValidity.DefineInvokableSymbolParamsValid` | modules/ballerina-lang/src/main/java/org/wso2/ballerinalang/compiler/semantics/analyzer/SymbolEnter.java:412-439 | defineInvokableSymbolParams keeps the state valid |
| `EntryValidity.DefineInvokableSymbolGrows` | modules/ballerina-lang/src/main/java/org/wso2/ballerinalang/compiler/semantics/analyzer/SymbolEnter.java:404-410 | defineInvokableSymbol only adds |
| `EntryValidity.DefineInvokableSymbolValid` | modules/ballerina-lang/src/main/java/org/wso2/ballerinalang/compiler/semantics/analyzer/SymbolEnter.java:404-410 | defineInvokableSymbol keeps the state valid |
| `EntryValidity.ValidateFuncReceiverKeeps` | modules/ballerina-lang/src/main/java/org/wso2/ballerinalang/compiler/semantics/analyzer/SymbolEnter.java:545-566 | validateFuncReceiver only adds and keeps the state valid |
| `EntryValidity.DefineReceiverGrows` | modules/ballerina-lang/src/main/java/org/wso2/ballerinalang/compiler/semantics/analyzer/SymbolEnter.java:232-245 | The receiver part only adds |
| `EntryValidity.DefineReceiverValid` | modules/ballerina-lang/src/main/java/org/wso2/ballerinalang/compiler/semantics/analyzer/SymbolEnter.java:232-245 | The receiver part keeps the state valid |
| `EntryValidity.VisitFunctionGrows` | modules/ballerina-lang/src/main/java/org/wso2/ballerinalang/compiler/semantics/analyzer/SymbolEnter.java:224-246 | visit(function) only adds |
| `EntryValidity.VisitFunctionValid` | modules/ballerina-lang/src/main/java/org/wso2/ballerinalang/compiler/semantics/analyzer/SymbolEnter.java:224-246 | visit(function) keeps the state valid |
| `EntryValidity.VisitMemberGrows` | modules/ballerina-lang/src/main/java/org/wso2/ballerinalang/compiler/semantics/analyzer/SymbolEnter.java:249-264 | visit(action)/visit(resource) only adds |
| `EntryValidity.VisitMemberValid` | modules/ballerina-lang/src/main/java/org/wso2/ballerinalang/compiler/semantics/analyzer/SymbolEnter.java:249-264 | visit(action)/visit(resource) keeps the state valid |
| `EntryValidity.VisitStructGrows` | modules/ballerina-lang/src/main/java/org/wso2/ballerinalang/compiler/semantics/analyzer/SymbolEnter.java:187-195 | visit(struct) only adds |
| `EntryValidity.VisitStructValid` | modules/ballerina-lang/src/main/java/org/wso2/ballerinalang/compiler/semantics/analyzer/SymbolEnter.java:187-195 | visit(struct) keeps the state valid |
| `EntryValidity.VisitConnectorGrows` | modules/ballerina-lang/src/main/java/org/wso2/ballerinalang/compiler/semantics/analyzer/SymbolEnter.java:206-212 | visit(connector) only adds |
| `EntryValidity.VisitConnectorValid` | modules/ballerina-lang/src/main/java/org/wso2/ballerinalang/compiler/semantics/analyzer/SymbolEnter.java:206-212 | visit(connector) keeps the state valid |
| `EntryValidity.VisitServiceGrows` | modules/ballerina-lang/src/main/java/org/wso2/ballerinalang/compiler/semantics/analyzer/SymbolEnter.java:215-221 | visit(service) only adds |
| `EntryValidity.VisitServiceValid` | modules/ballerina-lang/src/main/java/org/wso2/ballerinalang/compiler/semantics/analyzer/SymbolEnter.java:215-221 | visit(service) keeps the state valid |
| `EntryValidity.AddPackageSymbolKeeps` | modules/ballerina-lang/src/main/java/org/wso2/ballerinalang/compiler/semantics/analyzer/SymbolEnter.java:291-294 | A new package symbol only adds and keeps the state valid |
| `EntryValidity.CreatePackageSymbolKeeps` | modules/ballerina-lang/src/main/java/org/wso2/ballerinalang/compiler/semantics/analyzer/SymbolEnter.java:285-296 | createPackageSymbol only adds and keeps the state valid |
| `EntryValidity.LoadedPackageKeeps` | modules/ballerina-lang/src/main/java/org/wso2/ballerinalang/compiler/semantics/analyzer/SymbolEnter.java:174-176 | Loading a package only adds and keeps the state valid |
| `EntryValidity.VisitImportGrows` | modules/ballerina-lang/src/main/java/org/wso2/ballerinalang/compiler/semantics/analyzer/SymbolEnter.java:173-179 | visit(import) only adds |
| `EntryValidity.VisitImportValid` | modules/ballerina-lang/src/main/java/org/wso2/ballerinalang/compiler/semantics/analyzer/SymbolEnter.java:173-179 | visit(import) keeps the state valid |
| `EntryValidity.DefineStructFieldsOfGrows` | modules/ballerina-lang/src/main/java/org/wso2/ballerinalang/compiler/semantics/analyzer/SymbolEnter.java:373-382 | Defining one struct's fields only adds |
| `EntryValidity.DefineStructFieldsOfValid` | modules/ballerina-lang/src/main/java/org/wso2/ballerinalang/compiler/semantics/analyzer/SymbolEnter.java:373-382 | Defining one struct's fields keeps the state valid |
| `EntryValidity.VisitMembersGrows` | modules/ballerina-lang/src/main/java/org/wso2/ballerinalang/compiler/semantics/analyzer/SymbolEnter.java:398-400 | Visiting members only adds |
| `EntryValidity.VisitMembersValid` | modules/ballerina-lang/src/main/java/org/wso2/ballerinalang/compiler/semantics/analyzer/SymbolEnter.java:398-400 | Visiting members keeps the state valid |
| `EntryValidity.DefineActionsOfKeeps` | modules/ballerina-lang/src/main/java/org/wso2/ballerinalang/compiler/semantics/analyzer/SymbolEnter.java:396-401 | Defining one connector's actions only adds and keeps the state valid |
| `EntryValidity.DefineServiceOfGrows` | modules/ballerina-lang/src/main/java/org/wso2/ballerinalang/compiler/semantics/analyzer/SymbolEnter.java:386-392 | Defining one service only adds |
| `EntryValidity.DefineServiceOfValid` | modules/ballerina-lang/src/main/java/org/wso2/ballerinalang/compiler/semantics/analyzer/SymbolEnter.java:386-392 | Defining one service keeps the state valid |
| `EntryValidity.DefineImportsGrows` | modules/ballerina-lang/src/main/java/org/wso2/ballerinalang/compiler/semantics/analyzer/SymbolEnter.java:147 | The import stage only adds |
| `EntryValidity.DefineImportsValid` | modules/ballerina-lang/src/main/java/org/wso2/ballerinalang/compiler/semantics/analyzer/SymbolEnter.java:147 | The import stage keeps the state valid |
| `EntryValidity.DefineStructsGrows` | modules/ballerina-lang/src/main/java/org/wso2/ballerinalang/compiler/semantics/analyzer/SymbolEnter.java:150 | The struct stage only adds |
| `EntryValidity.DefineStructsValid` | modules/ballerina-lang/src/main/java/org/wso2/ballerinalang/compiler/semantics/analyzer/SymbolEnter.java:150 | The struct stage keeps the state valid |
| `EntryValidity.DefineConnectorsGrows` | modules/ballerina-lang/src/main/java/org/wso2/ballerinalang/compiler/semantics/analyzer/SymbolEnter.java:153 | The connector stage only adds |
| `EntryValidity.DefineConnectorsValid` | modules/ballerina-lang/src/main/java/org/wso2/ballerinalang/compiler/semantics/analyzer/SymbolEnter.java:153 | The connector stage keeps the state valid |
| `EntryValidity.DefineStructFieldsGrows` | modules/ballerina-lang/src/main/java/org/wso2/ballerinalang/compiler/semantics/analyzer/SymbolEnter.java:372-383 | The struct-field stage only adds |
| `EntryValidity.DefineStructFieldsValid` | modules/ballerina-lang/src/main/java/org/wso2/ballerinalang/compiler/semantics/analyzer/SymbolEnter.java:372-383 | The struct-field stage keeps the state valid |
| `EntryValidity.DefineFunctionsGrows` | modules/ballerina-lang/src/main/java/org/wso2/ballerinalang/compiler/semantics/analyzer/SymbolEnter.java:162 | The function stage only adds |
| `EntryValidity.DefineFunctionsValid` | modules/ballerina-lang/src/main/java/org/wso2/ballerinalang/compiler/semantics/analyzer/SymbolEnter.java:162 | The function stage keeps the state valid |
| `EntryValidity.DefineServicesGrows` | modules/ballerina-lang/src/main/java/org/wso2/ballerinalang/compiler/semantics/analyzer/SymbolEnter.java:385-393 | The service stage never shrinks the symbol or scope arenas |
| `EntryValidity.DefineServicesValid` | modules/ballerina-lang/src/main/java/org/wso2/ballerinalang/compiler/semantics/analyzer/SymbolEnter.java:385-393 | The service stage keeps the state valid |
| `EntryValidity.DefineActionsKeeps` | modules/ballerina-lang/src/main/java/org/wso2/ballerinalang/compiler/semantics/analyzer/SymbolEnter.java:395-402 | The action stage only adds and keeps the state valid |
| `EntryValidity.DefinePackageInitFunctionKeeps` | modules/ballerina-lang/src/main/java/org/wso2/ballerinalang/compiler/semantics/analyzer/SymbolEnter.java:501-510 | definePackageInitFunction only adds and keeps the state valid |
| `EntryValidity.DefineTypeStagesKeeps` | modules/ballerina-lang/src/main/java/org/wso2/ballerinalang/compiler/semantics/analyzer/SymbolEnter.java:147-153 | The first three stages only add and keep the state valid |
| `EntryValidity.DefineMemberStagesGrows` | modules/ballerina-lang/src/main/java/org/wso2/ballerinalang/compiler/semantics/analyzer/SymbolEnter.java:156-165 | The struct-field, action, function and service stages never shrink the arenas |
| `EntryValidity.DefineMemberStagesValid` | modules/ballerina-lang/src/main/java/org/wso2/ballerinalang/compiler/semantics/analyzer/SymbolEnter.java:156-165 | The middle four stages keep the state valid |
| `EntryValidity.DefineGlobalStagesKeeps` | modules/ballerina-lang/src/main/java/org/wso2/ballerinalang/compiler/semantics/analyzer/SymbolEnter.java:167-169 | The last two stages only add and keep the state valid |
| `EntryValidity.EnterPackageKeeps` | modules/ballerina-lang/src/main/java/org/wso2/ballerinalang/compiler/semantics/analyzer/SymbolEnter.java:141-143 | The package step only adds and keeps the state valid |
| `EntryValidity.VisitPackageKeeps` | modules/ballerina-lang/src/main/java/org/wso2/ballerinalang/compiler/semantics/analyzer/SymbolEnter.java:139-170 | visit(package) as a whole only adds (no scope loses or rebinds a name, no symbol changes identity, no diagnostic is withdrawn) and keeps the state valid |
| `EntryProperties.EnterAllBinds` | modules/ballerina-lang/src/main/java/org/wso2/ballerinalang/compiler/semantics/analyzer/SymbolEnter.java:412-425 | Entering bindings in order keeps the owner and old bindings; a name ends up bound iff it was already, or it is a binding's non-EMPTY name |
| `EntryProperties.EnterAllFirstWins` | modules/ballerina-lang/src/main/java/org/wso2/ballerinalang/compiler/semantics/analyzer/SymbolEnter.java:412-425 | The first binding of a fresh name wins: the name is bound to that binding's handle |
| `EntryProperties.RedeclaredAllCount` | modules/ballerina-lang/src/main/java/org/wso2/ballerinalang/compiler/semantics/analyzer/SymbolEnter.java:412-425 | At most one REDECLARED_SYMBOL per binding, and none when the names are distinct and fresh |
| `EntryProperties.VarSymbolsAt` | modules/ballerina-lang/src/main/java/org/wso2/ballerinalang/compiler/semantics/analyzer/SymbolEnter.java:272-279 | The j-th new variable symbol belongs to the j-th named binding |
| `EntryProperties.VisitVariablesScopes` | modules/ballerina-lang/src/main/java/org/wso2/ballerinalang/compiler/semantics/analyzer/SymbolEnter.java:267-280 | Visiting bindings enters the named ones in order in the environment's scope with one diagnostic per clash; no other scope changes |
| `EntryProperties.VisitVariableScopes` | modules/ballerina-lang/src/main/java/org/wso2/ballerinalang/compiler/semantics/analyzer/SymbolEnter.java:267-280 | One binding: EMPTY leaves the scope and log alone; a name goes through the guarded insert |
| `EntryProperties.VisitVariablesSymbols` | modules/ballerina-lang/src/main/java/org/wso2/ballerinalang/compiler/semantics/analyzer/SymbolEnter.java:267-280 | Visiting bindings appends exactly their variable symbols, owned by the scope's owner |
| `EntryProperties.VisitVariablesNodes` | modules/ballerina-lang/src/main/java/org/wso2/ballerinalang/compiler/semantics/analyzer/SymbolEnter.java:267-280 | Every binding gets its type and every named one its symbol; initialisers, package environments and loaded packages are untouched |
| `EntryProperties.VisitVariableNodes` | modules/ballerina-lang/src/main/java/org/wso2/ballerinalang/compiler/semantics/analyzer/SymbolEnter.java:267-280 | One binding gets its type, and its symbol when named; no node loses an annotation |
| `EntryProperties.DefineSymbolGuarded` | modules/ballerina-lang/src/main/java/org/wso2/ballerinalang/compiler/semantics/analyzer/SymbolEnter.java:441-446 | The guarded insert: a fresh empty own scope always; entered under its name iff the name was unbound; otherwise scope unchanged and one REDECLARED_SYMBOL; nothing else changes |
| `EntryProperties.VisitVariableUnnamed` | modules/ballerina-lang/src/main/java/org/wso2/ballerinalang/compiler/semantics/analyzer/SymbolEnter.java:272-277 | An EMPTY-named binding is typed but gets no symbol, enters no scope and logs nothing |
| `EntryProperties.VarSymbolsAreVariables` | modules/ballerina-lang/src/main/java/org/wso2/ballerinalang/compiler/semantics/analyzer/SymbolEnter.java:455-468 | Every symbol made for bindings is a variable of the given owner with no scope of its own, and PUBLIC when all the bindings are |
| `EntryProperties.DefineInvokableSymbolParamsSymbols` | modules/ballerina-lang/src/main/java/org/wso2/ballerinalang/compiler/semantics/analyzer/SymbolEnter.java:412-439 | The symbol arena after defineInvokableSymbolParams: parameters' then named returns' variables appended, the invokable recording their handles and its type |
| `EntryProperties.DefineInvokableSymbolParamsRecord` | modules/ballerina-lang/src/main/java/org/wso2/ballerinalang/compiler/semantics/analyzer/SymbolEnter.java:427-438 | The invokable records its parameter handles, its named return handles after them, and the type of all parameters and all return bindings |
| `EntryProperties.DefineInvokableSymbolParamsScopes` | modules/ballerina-lang/src/main/java/org/wso2/ballerinalang/compiler/semantics/analyzer/SymbolEnter.java:414-425 | Parameters then named returns are entered in the invokable's scope in order; no other scope changes; diagnostics in that order |
| `EntryProperties.DefineInvokableSymbolSignature` | modules/ballerina-lang/src/main/java/org/wso2/ballerinalang/compiler/semantics/analyzer/SymbolEnter.java:404-439 | The invokable keeps its identity, gets its own scope, parameter handles then named return handles, and one parameter type per parameter and one return type per return binding, named or not |
| `EntryProperties.DefineInvokableSymbolParamsAt` | modules/ballerina-lang/src/main/java/org/wso2/ballerinalang/compiler/semantics/analyzer/SymbolEnter.java:414-418 | The j-th new symbol is the j-th parameter's variable, owned by the invokable, typed in its scope |
| `EntryProperties.DefineInvokableSymbolRetsAt` | modules/ballerina-lang/src/main/java/org/wso2/ballerinalang/compiler/semantics/analyzer/SymbolEnter.java:420-425 | After the parameters come the named return bindings' variables, in order |
| `EntryProperties.DefineInvokableSymbolParamSymbols` | modules/ballerina-lang/src/main/java/org/wso2/ballerinalang/compiler/semantics/analyzer/SymbolEnter.java:404-425 | defineInvokableSymbol appends one variable per parameter, then per named return binding, each owned by the invokable |
| `EntryProperties.DefineInvokableSymbolParamTypes` | modules/ballerina-lang/src/main/java/org/wso2/ballerinalang/compiler/semantics/analyzer/SymbolEnter.java:431-438 | The invokable type's parameter types are, position by position, the types of its parameter symbols |
| `EntryProperties.DefineInvokableSymbolScopes` | modules/ballerina-lang/src/main/java/org/wso2/ballerinalang/compiler/semantics/analyzer/SymbolEnter.java:404-425 | The name enters the current scope by the guarded insert; the own fresh scope binds the parameters then named returns; no other scope changes; diagnostics in that order |
| `EntryProperties.DefineInvokableSymbolParamsOthers` | modules/ballerina-lang/src/main/java/org/wso2/ballerinalang/compiler/semantics/analyzer/SymbolEnter.java:412-439 | defineInvokableSymbolParams changes no existing symbol other than the invokable |
| `EntryProperties.DefineInvokableSymbolOthers` | modules/ballerina-lang/src/main/java/org/wso2/ballerinalang/compiler/semantics/analyzer/SymbolEnter.java:404-410 | defineInvokableSymbol changes no existing symbol other than the invokable |
| `EntryProperties.OwnScopeBinds` | modules/ballerina-lang/src/main/java/org/wso2/ballerinalang/compiler/semantics/analyzer/SymbolEnter.java:414-425 | An invokable's own scope binds exactly its bindings' names, never EMPTY |
| `EntryProperties.VisitStructShape` | modules/ballerina-lang/src/main/java/org/wso2/ballerinalang/compiler/semantics/analyzer/SymbolEnter.java:187-195 | visit(struct): next handle, node annotated, struct symbol of this package owned by the current owner, own fresh scope, struct type with an empty field list, guarded insert; old symbols unchanged |
| `EntryProperties.DefineStructFieldsOfEffect` | modules/ballerina-lang/src/main/java/org/wso2/ballerinalang/compiler/semantics/analyzer/SymbolEnter.java:372-383 | After defineStructFields the field list is the declared fields in order as (name, resolved type); the fields are entered in order in the struct's own scope; no other scope changes |
| `EntryProperties.DefineStructFieldsOfSymbols` | modules/ballerina-lang/src/main/java/org/wso2/ballerinalang/compiler/semantics/analyzer/SymbolEnter.java:372-383 | defineStructFields appends the field variables and sets the field list, changing no other symbol |
| `EntryProperties.DefineStructFieldsOfPublic` | modules/ballerina-lang/src/main/java/org/wso2/ballerinalang/compiler/semantics/analyzer/SymbolEnter.java:377-379 | Every symbol added for a struct's fields is a PUBLIC variable owned by the struct, one per named field |
| `EntryProperties.DefineReceiverEffect` | modules/ballerina-lang/src/main/java/org/wso2/ballerinalang/compiler/semantics/analyzer/SymbolEnter.java:232-245 | The receiver takes the next handle as a variable owned by the function; the function records it and its type as receiverType; a field clash is logged first; nothing else changes |
| `EntryProperties.VisitFunctionSymbol` | modules/ballerina-lang/src/main/java/org/wso2/ballerinalang/compiler/semantics/analyzer/SymbolEnter.java:224-229 | The function symbol takes the next handle, named T.f for a method on T and f otherwise, with the function's flags, package, owner and own fresh scope |
| `EntryProperties.VisitFunctionScopes` | modules/ballerina-lang/src/main/java/org/wso2/ballerinalang/compiler/semantics/analyzer/SymbolEnter.java:224-229 | visit(function) enters the symbol name in the current scope by the guarded insert and changes no other existing scope |
| `EntryProperties.VisitFunctionReceiver` | modules/ballerina-lang/src/main/java/org/wso2/ballerinalang/compiler/semantics/analyzer/SymbolEnter.java:242-244 | A method's receiver is the last symbol added, right after the parameters and named returns: a variable owned by the function and typed in its scope; the function records it as receiverSymbol and its type as the invokable type's receiverType |
| `EntryProperties.VisitFunctionReceiverBound` | modules/ballerina-lang/src/main/java/org/wso2/ballerinalang/compiler/semantics/analyzer/SymbolEnter.java:242 | A method's receiver is bound in the function's own scope |
| `EntryProperties.VisitFunctionReceiverDiagnostics` | modules/ballerina-lang/src/main/java/org/wso2/ballerinalang/compiler/semantics/analyzer/SymbolEnter.java:225 | A method's diagnostics start with those of validateFuncReceiver on the receiver type |
| `EntryProperties.VisitMethodDiagnostics` | modules/ballerina-lang/src/main/java/org/wso2/ballerinalang/compiler/semantics/analyzer/SymbolEnter.java:224-246 | A method's diagnostics, in order: receiver validation, the guarded insert of T.f, parameters, returns, the field clash checked after the signature is defined, the receiver's insert into the function scope |
| `EntryProperties.VisitFunctionPlainDiagnostics` | modules/ballerina-lang/src/main/java/org/wso2/ballerinalang/compiler/semantics/analyzer/SymbolEnter.java:224-229 | A plain function's diagnostics are its guarded insert's, then its parameters', then its returns' |
| `EntryProperties.LookupFieldStable` | modules/ballerina-lang/src/main/java/org/wso2/ballerinalang/compiler/semantics/analyzer/SymbolEnter.java:234-236 | A field found in a struct's scope is still found after the state grows, if the struct keeps its scope |
| `EntryProperties.FieldFoundAtCheck` | modules/ballerina-lang/src/main/java/org/wso2/ballerinalang/compiler/semantics/analyzer/SymbolEnter.java:234-237 | A field found before visit(function) is still found when the clash check runs |
| `EntryProperties.VisitFunctionFieldClash` | modules/ballerina-lang/src/main/java/org/wso2/ballerinalang/compiler/semantics/analyzer/SymbolEnter.java:234-240 | A method named like a field of its receiver struct logs STRUCT_FIELD_AND_FUNC_WITH_SAME_NAME |
| `EntryProperties.VisitVariablesNodeFrame` | modules/ballerina-lang/src/main/java/org/wso2/ballerinalang/compiler/semantics/analyzer/SymbolEnter.java:267-280 | Visiting bindings annotates only their own nodes |
| `EntryProperties.DefineInvokableSymbolParamsNodeFrame` | modules/ballerina-lang/src/main/java/org/wso2/ballerinalang/compiler/semantics/analyzer/SymbolEnter.java:412-425 | defineInvokableSymbolParams annotates only the parameter and return nodes |
| `EntryProperties.VisitFunctionNodeFrame` | modules/ballerina-lang/src/main/java/org/wso2/ballerinalang/compiler/semantics/analyzer/SymbolEnter.java:224-246 | visit(function) changes the symbol annotation of no node besides the function, its parameters, its returns and its receiver |
| `EntryProperties.VisitFunctionTables` | modules/ballerina-lang/src/main/java/org/wso2/ballerinalang/compiler/semantics/analyzer/SymbolEnter.java:224-246 | visit(function) leaves initialisers, package environments and loaded packages untouched |
| `EntryProperties.DefineInvokableSymbolNode` | modules/ballerina-lang/src/main/java/org/wso2/ballerinalang/compiler/semantics/analyzer/SymbolEnter.java:404-410 | defineInvokableSymbol annotates the invokable's node with its handle when no parameter, return or receiver shares its node |
| `EntryProperties.VisitFunctionNode` | modules/ballerina-lang/src/main/java/org/wso2/ballerinalang/compiler/semantics/analyzer/SymbolEnter.java:224-229 | visit(function) annotates the function node with the function symbol, the next handle |
| `EntryProperties.VisitMemberNode` | modules/ballerina-lang/src/main/java/org/wso2/ballerinalang/compiler/semantics/analyzer/SymbolEnter.java:249-264 | visit(action)/visit(resource) annotates the member node with its symbol, the next handle |
| `EntryProperties.VisitVariablesNodeSymbols` | modules/ballerina-lang/src/main/java/org/wso2/ballerinalang/compiler/semantics/analyzer/SymbolEnter.java:267-280 | With distinct nodes, the j-th named binding's node is annotated with the j-th new handle |
| `EntryProperties.VisitConnectorInit` | modules/ballerina-lang/src/main/java/org/wso2/ballerinalang/compiler/semantics/analyzer/SymbolEnter.java:206-212 | The connector node is annotated with the connector symbol (the next handle) and its recorded initialiser is exactly ConnectorInit of the connector |
| `EntryProperties.VisitConnectorOrder` | modules/ballerina-lang/src/main/java/org/wso2/ballerinalang/compiler/semantics/analyzer/SymbolEnter.java:210-211 | The connector symbol takes the next handle with the connector's name, flags and owner, its initialiser the one after, named with the init suffix; the initialiser's scope is created first and its name enters the current scope before the connector's |
| `EntryProperties.VisitServiceInit` | modules/ballerina-lang/src/main/java/org/wso2/ballerinalang/compiler/semantics/analyzer/SymbolEnter.java:215-221 | The service node is annotated with the service symbol (the next handle) and its recorded initialiser is exactly ServiceInit of the service |
| `EntryProperties.VisitServiceOrder` | modules/ballerina-lang/src/main/java/org/wso2/ballerinalang/compiler/semantics/analyzer/SymbolEnter.java:219-220 | The service symbol takes the next handle with the service's name, flags and owner, its initialiser the one after; the initialiser's scope is created and its name entered before the service's |
| `EntryProperties.DefineInvokableSymbolParamsNew` | modules/ballerina-lang/src/main/java/org/wso2/ballerinalang/compiler/semantics/analyzer/SymbolEnter.java:414-425 | The symbols appended are the parameters' variables, then the named returns' |
| `EntryProperties.DefineInvokableSymbolNewVariables` | modules/ballerina-lang/src/main/java/org/wso2/ballerinalang/compiler/semantics/analyzer/SymbolEnter.java:404-425 | Every symbol defineInvokableSymbol adds is a variable owned by the invokable |
| `EntryProperties.VisitMemberShape` | modules/ballerina-lang/src/main/java/org/wso2/ballerinalang/compiler/semantics/analyzer/SymbolEnter.java:249-264 | An action or resource symbol takes the next handle with its own kind, flags and name; every other new symbol is a variable |
| `EntryProperties.VisitMembersPublic` | modules/ballerina-lang/src/main/java/org/wso2/ballerinalang/compiler/semantics/analyzer/SymbolEnter.java:398-400 | Visiting public members adds only public symbols of that kind |
| `EntryProperties.DefineActionsOfPublic` | modules/ballerina-lang/src/main/java/org/wso2/ballerinalang/compiler/semantics/analyzer/SymbolEnter.java:396-401 | Every action symbol a connector's actions add is PUBLIC |
| `EntryProperties.DefineActionsPublic` | modules/ballerina-lang/src/main/java/org/wso2/ballerinalang/compiler/semantics/analyzer/SymbolEnter.java:395-402 | Every action symbol the action stage adds is PUBLIC |
| `EntryProperties.VisitServiceAdds` | modules/ballerina-lang/src/main/java/org/wso2/ballerinalang/compiler/semantics/analyzer/SymbolEnter.java:215-221 | visit(service) adds exactly two symbols, the service then its initialiser |
| `EntryProperties.DefineServiceOfPublic` | modules/ballerina-lang/src/main/java/org/wso2/ballerinalang/compiler/semantics/analyzer/SymbolEnter.java:386-392 | Every resource symbol a service adds is PUBLIC |
| `EntryProperties.DefineServicesPublic` | modules/ballerina-lang/src/main/java/org/wso2/ballerinalang/compiler/semantics/analyzer/SymbolEnter.java:385-393 | Every resource symbol the service stage adds is PUBLIC |
| `EntryProperties.EnterPackageEffect` | modules/ballerina-lang/src/main/java/org/wso2/ballerinalang/compiler/semantics/analyzer/SymbolEnter.java:141-143 | The package symbol takes the next handle, named after its id and owned by the root; the node is annotated; its environment is its own fresh scope; nothing else changes |
| `EntryProperties.StagesGrow` | modules/ballerina-lang/src/main/java/org/wso2/ballerinalang/compiler/semantics/analyzer/SymbolEnter.java:147-169 | The stages after the package symbol only add |
| `EntryProperties.VisitPackageSymbol` | modules/ballerina-lang/src/main/java/org/wso2/ballerinalang/compiler/semantics/analyzer/SymbolEnter.java:139-170 | After every stage the package symbol still has its id and name, is owned by the root, and owns the package scope |
| `EntryProperties.VisitPackageInit` | modules/ballerina-lang/src/main/java/org/wso2/ballerinalang/compiler/semantics/analyzer/SymbolEnter.java:169 | The package node's recorded initialiser is the package init built from the package-level variables in order |
| `EntryProperties.GlobalStagesInit` | modules/ballerina-lang/src/main/java/org/wso2/ballerinalang/compiler/semantics/analyzer/SymbolEnter.java:167-169 | The last stage records the package init for the package node |
| `EntryProperties.VisitImportEffect` | modules/ballerina-lang/src/main/java/org/wso2/ballerinalang/compiler/semantics/analyzer/SymbolEnter.java:173-179 | visit(import): the node gets the package's symbol, a new package symbol of that id on first load and the existing one after; the alias is bound to it iff it was unbound, else the scope is unchanged; no diagnostic, no other scope changes |
| `SymbolEntering.SymbolEnter.constructor` | modules/ballerina-lang/src/main/java/org/wso2/ballerinalang/compiler/semantics/analyzer/SymbolEnter.java:108-119 | Before any package the state is InitialState, with the given type resolver and loader |
| `SymbolEntering.SymbolEnter.DefinePackage` | modules/ballerina-lang/src/main/java/org/wso2/ballerinalang/compiler/semantics/analyzer/SymbolEnter.java:121-126 | Fills the package node's buckets from its units in order, then leaves exactly the state of VisitPackage over them; returns the new package symbol |
| `SymbolEntering.SymbolEnter.VisitPackage` | modules/ballerina-lang/src/main/java/org/wso2/ballerinalang/compiler/semantics/analyzer/SymbolEnter.java:139-170 | Leaves exactly EntrySpec.VisitPackage |
| `SymbolEntering.SymbolEnter.EnterPackage` | modules/ballerina-lang/src/main/java/org/wso2/ballerinalang/compiler/semantics/analyzer/SymbolEnter.java:141-143 | Leaves EntrySpec.EnterPackage; returns the package's environment and name |
| `SymbolEntering.SymbolEnter.DefineTypeStages` | modules/ballerina-lang/src/main/java/org/wso2/ballerinalang/compiler/semantics/analyzer/SymbolEnter.java:147-153 | Leaves EntrySpec.DefineTypeStages |
| `SymbolEntering.SymbolEnter.DefineMemberStages` | modules/ballerina-lang/src/main/java/org/wso2/ballerinalang/compiler/semantics/analyzer/SymbolEnter.java:156-165 | Leaves EntrySpec.DefineMemberStages |
| `SymbolEntering.SymbolEnter.DefineGlobalStages` | modules/ballerina-lang/src/main/java/org/wso2/ballerinalang/compiler/semantics/analyzer/SymbolEnter.java:167-169 | Leaves EntrySpec.DefineGlobalStages |
| `SymbolEntering.SymbolEnter.CreatePackageSymbol` | modules/ballerina-lang/src/main/java/org/wso2/ballerinalang/compiler/semantics/analyzer/SymbolEnter.java:285-296 | Leaves EntrySpec.CreatePackageSymbol; the new symbol has the declared id (default without one), its name and its own scope |
| `SymbolEntering.SymbolEnter.AddPackageSymbol` | modules/ballerina-lang/src/main/java/org/wso2/ballerinalang/compiler/semantics/analyzer/SymbolEnter.java:288-294 | Leaves EntrySpec.AddPackageSymbol; returns the new handle |
| `SymbolEntering.SymbolEnter.VisitImport` | modules/ballerina-lang/src/main/java/org/wso2/ballerinalang/compiler/semantics/analyzer/SymbolEnter.java:173-179 | Leaves EntrySpec.VisitImport |
| `SymbolEntering.SymbolEnter.VisitImports` | modules/ballerina-lang/src/main/java/org/wso2/ballerinalang/compiler/semantics/analyzer/SymbolEnter.java:147 | Leaves EntrySpec.DefineImports |
| `SymbolEntering.SymbolEnter.DefineSymbol` | modules/ballerina-lang/src/main/java/org/wso2/ballerinalang/compiler/semantics/analyzer/SymbolEnter.java:441-446 | Leaves EntrySpec.DefineSymbol |
| `SymbolEntering.SymbolEnter.DefineVarSymbol` | modules/ballerina-lang/src/main/java/org/wso2/ballerinalang/compiler/semantics/analyzer/SymbolEnter.java:455-468 | Leaves EntrySpec.DefineVarSymbol; returns the new handle |
| `SymbolEntering.SymbolEnter.VisitVariable` | modules/ballerina-lang/src/main/java/org/wso2/ballerinalang/compiler/semantics/analyzer/SymbolEnter.java:267-280 | Leaves EntrySpec.VisitVariable; the node gets the resolved type, and a named one the new symbol of that type |
| `SymbolEntering.SymbolEnter.VisitVariables` | modules/ballerina-lang/src/main/java/org/wso2/ballerinalang/compiler/semantics/analyzer/SymbolEnter.java:167 | Leaves EntrySpec.VisitVariables |
| `SymbolEntering.SymbolEnter.DefineParams` | modules/ballerina-lang/src/main/java/org/wso2/ballerinalang/compiler/semantics/analyzer/SymbolEnter.java:414-418 | Leaves the parameters visited; returns the consecutive parameter handles and their types in order |
| `SymbolEntering.SymbolEnter.DefineRetParams` | modules/ballerina-lang/src/main/java/org/wso2/ballerinalang/compiler/semantics/analyzer/SymbolEnter.java:420-425 | Leaves the return bindings visited; returns the named ones' handles and all their types in order |
| `SymbolEntering.SymbolEnter.DefineInvokableSymbolParams` | modules/ballerina-lang/src/main/java/org/wso2/ballerinalang/compiler/semantics/analyzer/SymbolEnter.java:412-439 | Leaves EntrySpec.DefineInvokableSymbolParams |
| `SymbolEntering.SymbolEnter.DefineSignature` | modules/ballerina-lang/src/main/java/org/wso2/ballerinalang/compiler/semantics/analyzer/SymbolEnter.java:414-438 | Leaves both visits followed by CompleteSignature |
| `SymbolEntering.SymbolEnter.RecordSignature` | modules/ballerina-lang/src/main/java/org/wso2/ballerinalang/compiler/semantics/analyzer/SymbolEnter.java:427-438 | Leaves EntrySpec.CompleteSignature |
| `SymbolEntering.SymbolEnter.DefineInvokableSymbol` | modules/ballerina-lang/src/main/java/org/wso2/ballerinalang/compiler/semantics/analyzer/SymbolEnter.java:404-410 | Leaves EntrySpec.DefineInvokableSymbol; returns the invokable's environment |
| `SymbolEntering.SymbolEnter.ValidateFuncReceiver` | modules/ballerina-lang/src/main/java/org/wso2/ballerinalang/compiler/semantics/analyzer/SymbolEnter.java:545-566 | Leaves EntrySpec.ValidateFuncReceiver; the receiver node gets its resolved type |
| `SymbolEntering.SymbolEnter.LookupField` | modules/ballerina-lang/src/main/java/org/wso2/ballerinalang/compiler/semantics/analyzer/SymbolEnter.java:234-236 | Returns EntrySpec.LookupField and changes nothing |
| `SymbolEntering.SymbolEnter.VisitFunction` | modules/ballerina-lang/src/main/java/org/wso2/ballerinalang/compiler/semantics/analyzer/SymbolEnter.java:224-246 | Leaves EntrySpec.VisitFunction |
| `SymbolEntering.SymbolEnter.DefineReceiver` | modules/ballerina-lang/src/main/java/org/wso2/ballerinalang/compiler/semantics/analyzer/SymbolEnter.java:232-245 | Leaves EntrySpec.DefineReceiver |
| `SymbolEntering.SymbolEnter.ReportFieldClash` | modules/ballerina-lang/src/main/java/org/wso2/ballerinalang/compiler/semantics/analyzer/SymbolEnter.java:234-240 | Only appends the field-clash diagnostics |
| `SymbolEntering.SymbolEnter.RecordReceiver` | modules/ballerina-lang/src/main/java/org/wso2/ballerinalang/compiler/semantics/analyzer/SymbolEnter.java:243-244 | Only sets the function's receiver symbol and its type's receiverType |
| `SymbolEntering.SymbolEnter.VisitMember` | modules/ballerina-lang/src/main/java/org/wso2/ballerinalang/compiler/semantics/analyzer/SymbolEnter.java:249-264 | Leaves EntrySpec.VisitMember |
| `SymbolEntering.SymbolEnter.VisitPublicMembers` | modules/ballerina-lang/src/main/java/org/wso2/ballerinalang/compiler/semantics/analyzer/SymbolEnter.java:389-400 | Leaves EntrySpec.VisitMembers over the members marked PUBLIC |
| `SymbolEntering.SymbolEnter.VisitPublicMember` | modules/ballerina-lang/src/main/java/org/wso2/ballerinalang/compiler/semantics/analyzer/SymbolEnter.java:390-391 | Advances the members loop by one member, marked PUBLIC |
| `SymbolEntering.SymbolEnter.NodeScope` | modules/ballerina-lang/src/main/java/org/wso2/ballerinalang/compiler/semantics/analyzer/SymbolEnter.java:375 | Returns EntrySpec.NodeScope and changes nothing |
| `SymbolEntering.SymbolEnter.VisitStruct` | modules/ballerina-lang/src/main/java/org/wso2/ballerinalang/compiler/semantics/analyzer/SymbolEnter.java:187-195 | Leaves EntrySpec.VisitStruct |
| `SymbolEntering.SymbolEnter.VisitStructs` | modules/ballerina-lang/src/main/java/org/wso2/ballerinalang/compiler/semantics/analyzer/SymbolEnter.java:150 | Leaves EntrySpec.DefineStructs |
| `SymbolEntering.SymbolEnter.DefineConnectorInitFunction` | modules/ballerina-lang/src/main/java/org/wso2/ballerinalang/compiler/semantics/analyzer/SymbolEnter.java:470-488 | Records ConnectorInit for the connector and leaves its visit as a function |
| `SymbolEntering.SymbolEnter.VisitConnector` | modules/ballerina-lang/src/main/java/org/wso2/ballerinalang/compiler/semantics/analyzer/SymbolEnter.java:206-212 | Leaves EntrySpec.VisitConnector |
| `SymbolEntering.SymbolEnter.VisitConnectors` | modules/ballerina-lang/src/main/java/org/wso2/ballerinalang/compiler/semantics/analyzer/SymbolEnter.java:153 | Leaves EntrySpec.DefineConnectors |
| `SymbolEntering.SymbolEnter.DefineServiceInitFunction` | modules/ballerina-lang/src/main/java/org/wso2/ballerinalang/compiler/semantics/analyzer/SymbolEnter.java:490-499 | Records ServiceInit for the service and leaves its visit as a function |
| `SymbolEntering.SymbolEnter.VisitService` | modules/ballerina-lang/src/main/java/org/wso2/ballerinalang/compiler/semantics/analyzer/SymbolEnter.java:215-221 | Leaves EntrySpec.VisitService |
| `SymbolEntering.SymbolEnter.DefineStructFieldsOf` | modules/ballerina-lang/src/main/java/org/wso2/ballerinalang/compiler/semantics/analyzer/SymbolEnter.java:373-382 | Leaves EntrySpec.DefineStructFieldsOf |
| `SymbolEntering.SymbolEnter.DefineFields` | modules/ballerina-lang/src/main/java/org/wso2/ballerinalang/compiler/semantics/analyzer/SymbolEnter.java:377-381 | Leaves the fields, marked PUBLIC, visited; returns their (name, type) list in order |
| `SymbolEntering.SymbolEnter.DefineStructFields` | modules/ballerina-lang/src/main/java/org/wso2/ballerinalang/compiler/semantics/analyzer/SymbolEnter.java:372-383 | Leaves EntrySpec.DefineStructFields |
| `SymbolEntering.SymbolEnter.DefineActionsOf` | modules/ballerina-lang/src/main/java/org/wso2/ballerinalang/compiler/semantics/analyzer/SymbolEnter.java:396-401 | Leaves EntrySpec.DefineActionsOf |
| `SymbolEntering.SymbolEnter.DefineActions` | modules/ballerina-lang/src/main/java/org/wso2/ballerinalang/compiler/semantics/analyzer/SymbolEnter.java:395-402 | Leaves EntrySpec.DefineActions |
| `SymbolEntering.SymbolEnter.VisitFunctions` | modules/ballerina-lang/src/main/java/org/wso2/ballerinalang/compiler/semantics/analyzer/SymbolEnter.java:162 | Leaves EntrySpec.DefineFunctions |
| `SymbolEntering.SymbolEnter.DefineServiceOf` | modules/ballerina-lang/src/main/java/org/wso2/ballerinalang/compiler/semantics/analyzer/SymbolEnter.java:386-392 | Leaves EntrySpec.DefineServiceOf |
| `SymbolEntering.SymbolEnter.DefineServices` | modules/ballerina-lang/src/main/java/org/wso2/ballerinalang/compiler/semantics/analyzer/SymbolEnter.java:385-393 | Leaves EntrySpec.DefineServices |
| `SymbolEntering.SymbolEnter.DefinePackageInitFunction` | modules/ballerina-lang/src/main/java/org/wso2/ballerinalang/compiler/semantics/analyzer/SymbolEnter.java:501-510 | Leaves EntrySpec.DefinePackageInitFunction |

## Left out

- Workers (`visit(BLangWorker)`, `defineSymbolWithCurrentEnvOwner`) are not modelled. The code has no stage that reaches them from a package.
- XMLNS declarations are not modelled beyond their place in the ordered top-level list: `visit(BLangXMLNS)` only throws. Annotations are in the list too, and are otherwise a no-op in the code.
- Loading an imported package is reduced to a registry. The loader is a parameter that yields a package id, and the package's symbol is created the first time that id is met. Recursive symbol entry of the imported package and import cycles are not modelled.
- Type resolution is a parameter. Which types exist, and how a type node resolves, lie outside this pass.
- `VisitFunction`: the receiver type is resolved twice, once in the enclosing environment for validation and the symbol name, and once in the function's environment for the receiver symbol. The code does this too. The model does not assume the two results agree.
- `LookupField`: fields are looked up only on struct types; for any other receiver type the lookup finds nothing. The code searches the scope of that type's type symbol, which holds no variable for the types this pass creates.
- `ValidateFuncReceiver`: package identities are compared by value; the code compares the package-id objects by reference. The struct type's package is read from the type value, which carries the package its symbol was created in (`VisitStruct` builds it so); the code reads it from the type's symbol.
- `PackageNodes.AddTopLevelNode`: two imports are taken to be equal when they have the same name path, version and alias. The equality the code relies on is that of the import node class, which is not part of this model; the node id is not part of the comparison.
- Parameters and receivers must be named, never EMPTY (`WellFormedInvokable`). An unnamed one would make the code dereference a missing symbol.
- `NodeScope`: a struct, connector or service whose node has no symbol or scope is skipped when its members are defined. In the code every such node has both by then, so this guard never fires there.
- The code swaps its current environment field around `defineNode`. The model passes the environment as an explicit parameter.
- The PUBLIC flag on fields, actions and resources is given to the visited copy and to the symbol made from it. It is not written back into the tree nodes.
- Synthesised nodes (init functions, the connector init's parameter) get node ids derived from their container's id. The code allocates fresh node objects.
- Diagnostics carry the code, the position and the argument strings. Message formatting and the diagnostic log's other fields are not modelled.
- The compiler-context registry through which the pass and its collaborators find each other, and flag bit masks, are left out: flags are a set.
- `VisitPackageKeeps`: that the package environment recorded at the start of the pass survives the later stages is not stated. That every action and every resource of the package is PUBLIC is proved per stage (`DefineActionsPublic`, `DefineServicesPublic`), not for the whole of `visit(package)`.
- Symbol sizes and scopes are arena indices. Object identity, aliasing between symbols, and garbage are not modelled.
