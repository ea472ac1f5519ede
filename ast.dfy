/** The parsed tree the pass works on. Nodes are values; each carries a
    `NodeId` standing for the identity of the source's node object, and the
    annotations the pass writes into nodes are kept by the pass, keyed by it. */
module Ast {
  import opened Base

  /** Node identity. Nodes from source files are `Src`; nodes the pass
      synthesises get an identity derived from the node they belong to. */
  datatype NodeId =
    | Src(n: nat)
    | InitFunctionOf(container: NodeId)
    | ConnectorParamOf(container: NodeId)

  /** A syntactic type reference, handed to the type resolver. */
  datatype TypeNode =
    | BuiltinTypeNode(name: Name)
    | UserDefinedTypeNode(pkgAlias: Option<Name>, typeName: Name)

  /** A variable declaration: a parameter, return binding, receiver, struct
      field, container-level or package-level variable. */
  datatype VarNode = VarNode(id: NodeId, name: Name, flags: set<Flag>, typeNode: TypeNode)

  datatype Stmt = VarDefStmt(v: VarNode) | ReturnStmt

  /** Functions, actions, resources and workers. Only functions use `receiver`. */
  datatype Invokable = Invokable(
    id: NodeId,
    name: Name,
    flags: set<Flag>,
    receiver: Option<VarNode>,
    params: seq<VarNode>,
    retParams: seq<VarNode>,
    body: seq<Stmt>)

  datatype StructNode = StructNode(id: NodeId, name: Name, flags: set<Flag>, fields: seq<VarNode>)

  datatype ConnectorNode = ConnectorNode(
    id: NodeId, name: Name, flags: set<Flag>, varDefs: seq<VarNode>, actions: seq<Invokable>)

  datatype ServiceNode = ServiceNode(
    id: NodeId, name: Name, flags: set<Flag>, vars: seq<VarNode>, resources: seq<Invokable>)

  datatype ImportNode = ImportNode(id: NodeId, nameComps: seq<Name>, version: Name, alias: Name)

  datatype PackageDecl = PackageDecl(id: NodeId, nameComps: seq<Name>, version: Name)

  /** The kinds of node a compilation unit holds at top level. */
  datatype TopLevelNode =
    | PackageDeclNode(decl: PackageDecl)
    | ImportTop(imp: ImportNode)
    | FunctionTop(fn: Invokable)
    | StructTop(st: StructNode)
    | ConnectorTop(con: ConnectorNode)
    | ServiceTop(svc: ServiceNode)
    | VariableTop(v: VarNode)
    | AnnotationTop(annId: NodeId)
    | XmlnsTop(xmlnsId: NodeId)

  datatype CompilationUnit = CompilationUnit(name: Name, topLevelNodes: seq<TopLevelNode>)
}
