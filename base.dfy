/** Names, flags, package identities and semantic types shared by the
    symbol-entry pass. */
module Base {

  datatype Option<+T> = None | Some(value: T)

  /** Identifiers are compared by their text. */
  type Name = string

  /** The reserved "no name" sentinel, used for unnamed return bindings. */
  const EMPTY: Name := ""

  /** Suffix appended to a container's name to name its synthesised initialiser. */
  const INIT_FUNCTION_SUFFIX: Name := ".<init>"

  /** Name of the synthetic parameter of a connector's initialiser. */
  const CONNECTOR: Name := "connector"

  /** Name of the default (undeclared) package. */
  const DEFAULT_PACKAGE_NAME: Name := "."

  /** Declaration modifiers; a symbol carries a set of them. */
  datatype Flag = Public | Native | Const

  /** Identity of a package: the default package, or a name path with a version. */
  datatype PackageID = DefaultPackage | PackageID(nameComps: seq<Name>, version: Name)

  /** Joins name components with '.' separators. */
  function JoinDot(comps: seq<Name>): (r: Name)
    ensures comps == [] ==> r == EMPTY
    ensures |comps| == 1 ==> r == comps[0]
  {
    if comps == [] then EMPTY
    else if |comps| == 1 then comps[0]
    else comps[0] + "." + JoinDot(comps[1..])
  }

  /** The name a package symbol carries. */
  function PackageName(id: PackageID): Name
  {
    match id
    case DefaultPackage => DEFAULT_PACKAGE_NAME
    case PackageID(comps, _) => JoinDot(comps)
  }

  /** Handles into the symbol and scope arenas of the pass. */
  type SymbolId = nat
  type ScopeId = nat

  /** Semantic types. A struct type refers to its type symbol by handle; the
      field list lives on that symbol, so every reference sees the same list. */
  datatype Type =
    | ErrorType
    | NoType
    | BuiltinType(tag: Name)
    | StructType(tsym: SymbolId, name: Name, pkgID: PackageID)
    | InvokableType(paramTypes: seq<Type>, retTypes: seq<Type>, receiverType: Option<Type>)

  /** Textual rendering of a type, as used in qualified method names and diagnostics. */
  function TypeString(t: Type): Name
  {
    match t
    case ErrorType => "error"
    case NoType => "none"
    case BuiltinType(tag) => tag
    case StructType(_, name, _) => name
    case InvokableType(_, _, _) => "function"
  }
}
