/** Symbols, scopes, environments and diagnostics, and the pure decisions
    of the pass: scope insertion, method naming and receiver validation. */
module Symbols {
  import opened Base
  import opened Ast

  datatype SymKind =
    | PackageSym
    | StructSym
    | ConnectorSym
    | ServiceSym
    | FunctionSym
    | ActionSym
    | ResourceSym
    | VariableSym

  datatype StructField = StructField(name: Name, fieldType: Type)

  /** One declared entity. `owner` is the owner of the scope it was created
      in (absent only for the root package). `scope` is the symbol's own scope,
      given when the symbol is defined; variables have none. The invokable
      parts (`params`, `retParams`, `receiverSymbol`) and the struct part
      (`fields`) are empty for other kinds. */
  datatype Symbol = Symbol(
    kind: SymKind,
    flags: set<Flag>,
    name: Name,
    pkgID: PackageID,
    owner: Option<SymbolId>,
    symType: Type,
    scope: Option<ScopeId>,
    params: seq<SymbolId>,
    retParams: seq<SymbolId>,
    receiverSymbol: Option<SymbolId>,
    fields: seq<StructField>)

  /** A symbol as created, before it is defined or completed. */
  function NewSymbol(kind: SymKind, flags: set<Flag>, name: Name, pkgID: PackageID,
                     owner: Option<SymbolId>, t: Type): Symbol
  {
    Symbol(kind, flags, name, pkgID, owner, t, None, [], [], None, [])
  }

  /** A mapping from names to symbols, owned by one symbol. */
  datatype Scope = Scope(owner: SymbolId, entries: map<Name, SymbolId>)

  /** The traversal context: the current scope and the enclosing package's id. */
  datatype Env = Env(scope: ScopeId, pkgID: PackageID)

  datatype DiagnosticCode =
    | RedeclaredSymbol
    | FuncDefinedOnNonStructType
    | FuncDefinedOnNonLocalStructType
    | StructFieldAndFuncWithSameName

  datatype Diagnostic = Diagnostic(pos: NodeId, code: DiagnosticCode, args: seq<Name>)

  /** Inserting a binding: a name already bound keeps its symbol. */
  function Define(sc: Scope, name: Name, id: SymbolId): (r: Scope)
    ensures r.owner == sc.owner
    ensures forall n :: n in r.entries <==> n in sc.entries || n == name
    ensures forall n :: n in sc.entries ==> r.entries[n] == sc.entries[n]
    ensures name !in sc.entries ==> r.entries[name] == id
  {
    if name in sc.entries then sc else sc.(entries := sc.entries[name := id])
  }

  /** The uniqueness check: a name may be entered only if the scope lacks it;
      otherwise one REDECLARED_SYMBOL diagnostic is reported. */
  function Redeclared(sc: Scope, name: Name, pos: NodeId): (r: seq<Diagnostic>)
    ensures name !in sc.entries <==> r == []
    ensures name in sc.entries ==> r == [Diagnostic(pos, RedeclaredSymbol, [name])]
  {
    if name in sc.entries then [Diagnostic(pos, RedeclaredSymbol, [name])] else []
  }

  /** Scopes only grow: no scope disappears, changes owner, or loses or
      rebinds a name. */
  ghost predicate ScopesGrow(s0: seq<Scope>, s1: seq<Scope>)
  {
    && |s0| <= |s1|
    && forall i | 0 <= i < |s0| ::
         && s1[i].owner == s0[i].owner
         && (forall n | n in s0[i].entries :: n in s1[i].entries && s1[i].entries[n] == s0[i].entries[n])
  }

  lemma ScopesGrowTrans(s0: seq<Scope>, s1: seq<Scope>, s2: seq<Scope>)
    requires ScopesGrow(s0, s1) && ScopesGrow(s1, s2)
    ensures ScopesGrow(s0, s2)
  {
  }

  /** The name a function symbol is entered under: the receiver type's
      rendering, a dot and the name for a method; the plain name otherwise. */
  function FuncSymbolName(name: Name, receiverType: Option<Type>): (r: Name)
    ensures receiverType.None? ==> r == name
    ensures receiverType.Some? ==>
      var t := TypeString(receiverType.value);
      |r| == |t| + 1 + |name| && r[..|t|] == t && r[|t|] == '.' && r[|t| + 1..] == name
  {
    if receiverType.Some? then TypeString(receiverType.value) + "." + name else name
  }

  /** A method's symbol name always holds a dot, so it never clashes with a
      function whose name has none. */
  lemma MethodNameHasDot(name: Name, t: Type)
    ensures '.' in FuncSymbolName(name, Some(t))
  {
    var r := FuncSymbolName(name, Some(t));
    assert r[|TypeString(t)|] == '.';
  }

  /** For dot-free function names the qualified name determines both the
      function name and the receiver type's rendering. */
  lemma MethodNameInjective(n1: Name, t1: Type, n2: Name, t2: Type)
    requires '.' !in n1 && '.' !in n2
    requires FuncSymbolName(n1, Some(t1)) == FuncSymbolName(n2, Some(t2))
    ensures n1 == n2 && TypeString(t1) == TypeString(t2)
  {
    var r := FuncSymbolName(n1, Some(t1));
    var a, b := TypeString(t1), TypeString(t2);
    if |n1| != |n2| {
      assert false;
    }
    assert a == r[..|a|] == b;
    assert n1 == r[|a| + 1..] == n2;
  }

  /** Validation of a method receiver whose type resolved to `t`: nothing for
      the error type (already reported) or a struct of this package; one
      diagnostic for a non-struct type or a struct of another package. */
  function ReceiverDiagnostics(pos: NodeId, funcName: Name, t: Type, pkgID: PackageID): (r: seq<Diagnostic>)
    ensures |r| <= 1
    ensures r == [] <==> t.ErrorType? || (t.StructType? && t.pkgID == pkgID)
    ensures |r| == 1 ==> r[0].pos == pos && r[0].args == [funcName, TypeString(t)]
    ensures |r| == 1 && r[0].code == FuncDefinedOnNonStructType <==> !t.ErrorType? && !t.StructType?
    ensures |r| == 1 && r[0].code == FuncDefinedOnNonLocalStructType <==> t.StructType? && t.pkgID != pkgID
  {
    if t.ErrorType? then []
    else if !t.StructType? then [Diagnostic(pos, FuncDefinedOnNonStructType, [funcName, TypeString(t)])]
    else if pkgID != t.pkgID then [Diagnostic(pos, FuncDefinedOnNonLocalStructType, [funcName, TypeString(t)])]
    else []
  }
}
