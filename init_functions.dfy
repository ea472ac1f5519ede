/** Construction of the synthesised initialiser functions of connectors,
    services and packages. */
module InitFunctions {
  import opened Base
  import opened Ast

  /** An initialiser body: one variable definition per variable, in
      declaration order, then exactly one return. */
  ghost predicate IsInitBody(body: seq<Stmt>, vars: seq<VarNode>)
  {
    && |body| == |vars| + 1
    && (forall i | 0 <= i < |vars| :: body[i] == VarDefStmt(vars[i]))
    && body[|vars|] == ReturnStmt
  }

  /** An initialiser body holds exactly one return, and it is the last statement. */
  lemma InitBodyReturnsOnce(body: seq<Stmt>, vars: seq<VarNode>, i: nat)
    requires IsInitBody(body, vars) && i < |body|
    ensures body[i] == ReturnStmt <==> i == |body| - 1
  {
  }

  /** An init function node named after its container, with an empty body. */
  function CreateInitFunction(id: NodeId, containerName: Name): (f: Invokable)
    ensures f.id == InitFunctionOf(id) && f.name == containerName + INIT_FUNCTION_SUFFIX
    ensures f.flags == {} && f.receiver.None? && f.params == [] && f.retParams == [] && f.body == []
  {
    Invokable(InitFunctionOf(id), containerName + INIT_FUNCTION_SUFFIX, {}, None, [], [], [])
  }

  /** One variable-definition statement per variable, in order. */
  function VarDefs(vars: seq<VarNode>): (r: seq<Stmt>)
    ensures |r| == |vars| && forall i | 0 <= i < |vars| :: r[i] == VarDefStmt(vars[i])
  {
    if vars == [] then [] else VarDefs(vars[..|vars| - 1]) + [VarDefStmt(vars[|vars| - 1])]
  }

  /** Adds the closing return statement. */
  function AddInitReturnStatement(body: seq<Stmt>): (r: seq<Stmt>)
    ensures |r| == |body| + 1 && r[..|body|] == body && r[|body|] == ReturnStmt
  {
    body + [ReturnStmt]
  }

  /** The body of an initialiser over `vars`. */
  function InitBody(vars: seq<VarNode>): (r: seq<Stmt>)
    ensures IsInitBody(r, vars)
  {
    AddInitReturnStatement(VarDefs(vars))
  }

  /** The synthetic parameter of a connector's initialiser: named CONNECTOR,
      typed by the connector's own name. */
  function ConnectorParam(c: ConnectorNode): (p: VarNode)
    ensures p.name == CONNECTOR && p.typeNode == UserDefinedTypeNode(None, c.name)
  {
    VarNode(ConnectorParamOf(c.id), CONNECTOR, {}, UserDefinedTypeNode(None, c.name))
  }

  /** A connector's initialiser: one parameter of the connector's type, its
      variable definitions in order, then a return. */
  function ConnectorInit(c: ConnectorNode): (f: Invokable)
    ensures f.id == InitFunctionOf(c.id) && f.name == c.name + INIT_FUNCTION_SUFFIX
    ensures f.receiver.None? && f.retParams == [] && f.flags == {}
    ensures f.params == [ConnectorParam(c)] && IsInitBody(f.body, c.varDefs)
  {
    CreateInitFunction(c.id, c.name).(params := [ConnectorParam(c)], body := InitBody(c.varDefs))
  }

  /** A service's initialiser: no parameters, its variable definitions in
      order, then a return. */
  function ServiceInit(s: ServiceNode): (f: Invokable)
    ensures f.id == InitFunctionOf(s.id) && f.name == s.name + INIT_FUNCTION_SUFFIX
    ensures f.receiver.None? && f.params == [] && f.retParams == [] && f.flags == {}
    ensures IsInitBody(f.body, s.vars)
  {
    CreateInitFunction(s.id, s.name).(body := InitBody(s.vars))
  }

  /** The package initialiser: named after the package, no parameters, one
      definition per package-level variable in order, then a return. */
  function PackageInit(pkgNodeId: NodeId, pkgName: Name, globals: seq<VarNode>): (f: Invokable)
    ensures f.id == InitFunctionOf(pkgNodeId) && f.name == pkgName + INIT_FUNCTION_SUFFIX
    ensures f.receiver.None? && f.params == [] && f.retParams == [] && f.flags == {}
    ensures IsInitBody(f.body, globals)
  {
    CreateInitFunction(pkgNodeId, pkgName).(body := InitBody(globals))
  }

  /** Appends a variable definition per variable to `body`, then the return. */
  method AppendInitStatements(body: seq<Stmt>, vars: seq<VarNode>) returns (r: seq<Stmt>)
    ensures r == body + InitBody(vars)
  {
    r := body;
    for i := 0 to |vars|
      invariant r == body + VarDefs(vars[..i])
    {
      assert vars[..i + 1][..i] == vars[..i];
      r := r + [VarDefStmt(vars[i])];
    }
    assert vars[..|vars|] == vars;
    r := AddInitReturnStatement(r);
  }

  /** defineConnectorInitFunction, building part: the initialiser node. */
  method ConnectorInitFunction(c: ConnectorNode) returns (f: Invokable)
    ensures f == ConnectorInit(c)
  {
    f := CreateInitFunction(c.id, c.name);
    f := f.(params := f.params + [ConnectorParam(c)]);
    var body := AppendInitStatements(f.body, c.varDefs);
    f := f.(body := body);
  }

  /** defineServiceInitFunction, building part. */
  method ServiceInitFunction(s: ServiceNode) returns (f: Invokable)
    ensures f == ServiceInit(s)
  {
    f := CreateInitFunction(s.id, s.name);
    var body := AppendInitStatements(f.body, s.vars);
    f := f.(body := body);
  }

  /** definePackageInitFunction, building part. */
  method PackageInitFunction(pkgNodeId: NodeId, pkgName: Name, globals: seq<VarNode>) returns (f: Invokable)
    ensures f == PackageInit(pkgNodeId, pkgName, globals)
  {
    f := CreateInitFunction(pkgNodeId, pkgName);
    var body := AppendInitStatements(f.body, globals);
    f := f.(body := body);
  }
}
