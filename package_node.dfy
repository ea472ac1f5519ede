/** The package node and the sorting of its compilation units' top-level
    declarations into one ordered list plus per-kind buckets. */
module PackageNodes {
  import opened Base
  import opened Ast

  /** The abstract value of a package node's buckets. */
  datatype Buckets = Buckets(
    topLevelNodes: seq<TopLevelNode>,
    pkgDecl: Option<PackageDecl>,
    imports: seq<ImportNode>,
    functions: seq<Invokable>,
    structs: seq<StructNode>,
    connectors: seq<ConnectorNode>,
    services: seq<ServiceNode>,
    globalVars: seq<VarNode>)

  const NoBuckets: Buckets := Buckets([], None, [], [], [], [], [], [])

  /** Package declarations and imports are left out of the ordered list. */
  predicate KeptAtTopLevel(n: TopLevelNode)
  {
    !n.PackageDeclNode? && !n.ImportTop?
  }

  /** What makes two import declarations the same import: the package name
      path, the version and the alias, whatever node they come from. */
  function ImportKey(i: ImportNode): (seq<Name>, Name, Name)
  {
    (i.nameComps, i.version, i.alias)
  }

  /** Whether `imps` already holds an import equal to `i`. */
  predicate HasImport(imps: seq<ImportNode>, i: ImportNode)
  {
    exists k | 0 <= k < |imps| :: ImportKey(imps[k]) == ImportKey(i)
  }

  /** The effect of adding one top-level node to the buckets. */
  function Add(b: Buckets, n: TopLevelNode): Buckets
  {
    var b1 := if KeptAtTopLevel(n) then b.(topLevelNodes := b.topLevelNodes + [n]) else b;
    match n
    case PackageDeclNode(d) => b1.(pkgDecl := Some(d))
    case ImportTop(i) => if HasImport(b1.imports, i) then b1 else b1.(imports := b1.imports + [i])
    case FunctionTop(f) => b1.(functions := b1.functions + [f])
    case StructTop(s) => b1.(structs := b1.structs + [s])
    case ConnectorTop(c) => b1.(connectors := b1.connectors + [c])
    case ServiceTop(s) => b1.(services := b1.services + [s])
    case VariableTop(v) => b1.(globalVars := b1.globalVars + [v])
    case AnnotationTop(_) => b1
    case XmlnsTop(_) => b1
  }

  /** Adding a sequence of nodes, first to last. */
  function AddAll(b: Buckets, ns: seq<TopLevelNode>): Buckets
  {
    if ns == [] then b else Add(AddAll(b, ns[..|ns| - 1]), ns[|ns| - 1])
  }

  /** All top-level nodes of the compilation units, grouped by unit, in order. */
  function Flatten(units: seq<CompilationUnit>): seq<TopLevelNode>
  {
    if units == [] then [] else Flatten(units[..|units| - 1]) + units[|units| - 1].topLevelNodes
  }

  // Reference definitions of each bucket, independent of `Add`.

  /** The elements `sel` picks out of `ns`, in order. */
  function Pick<T>(ns: seq<TopLevelNode>, sel: TopLevelNode -> Option<T>): seq<T>
  {
    if ns == [] then []
    else
      var last := ns[|ns| - 1];
      Pick(ns[..|ns| - 1], sel) + (if sel(last).Some? then [sel(last).value] else [])
  }

  function SelTopLevel(n: TopLevelNode): Option<TopLevelNode> { if KeptAtTopLevel(n) then Some(n) else None }
  function SelFunction(n: TopLevelNode): Option<Invokable> { if n.FunctionTop? then Some(n.fn) else None }
  function SelStruct(n: TopLevelNode): Option<StructNode> { if n.StructTop? then Some(n.st) else None }
  function SelConnector(n: TopLevelNode): Option<ConnectorNode> { if n.ConnectorTop? then Some(n.con) else None }
  function SelService(n: TopLevelNode): Option<ServiceNode> { if n.ServiceTop? then Some(n.svc) else None }
  function SelVariable(n: TopLevelNode): Option<VarNode> { if n.VariableTop? then Some(n.v) else None }

  /** Imports appended to `acc`, skipping any already present. */
  function ImportsInto(acc: seq<ImportNode>, ns: seq<TopLevelNode>): seq<ImportNode>
  {
    if ns == [] then acc
    else
      var prev := ImportsInto(acc, ns[..|ns| - 1]);
      var last := ns[|ns| - 1];
      if last.ImportTop? && !HasImport(prev, last.imp) then prev + [last.imp] else prev
  }

  /** The last package declaration among `ns`, or `d` if there is none. */
  function LastDecl(d: Option<PackageDecl>, ns: seq<TopLevelNode>): Option<PackageDecl>
  {
    if ns == [] then d
    else if ns[|ns| - 1].PackageDeclNode? then Some(ns[|ns| - 1].decl)
    else LastDecl(d, ns[..|ns| - 1])
  }

  /** Adding nodes one by one gives, in every bucket, the old contents followed
      by exactly the nodes of that kind in encounter order. */
  lemma {:induction false} AddAllIsBucketed(b: Buckets, ns: seq<TopLevelNode>)
    ensures AddAll(b, ns) == Buckets(
      b.topLevelNodes + Pick(ns, SelTopLevel),
      LastDecl(b.pkgDecl, ns),
      ImportsInto(b.imports, ns),
      b.functions + Pick(ns, SelFunction),
      b.structs + Pick(ns, SelStruct),
      b.connectors + Pick(ns, SelConnector),
      b.services + Pick(ns, SelService),
      b.globalVars + Pick(ns, SelVariable))
  {
    if ns != [] {
      var init := ns[..|ns| - 1];
      AddAllIsBucketed(b, init);
      PickStep(b.topLevelNodes, ns, SelTopLevel);
      PickStep(b.functions, ns, SelFunction);
      PickStep(b.structs, ns, SelStruct);
      PickStep(b.connectors, ns, SelConnector);
      PickStep(b.services, ns, SelService);
      PickStep(b.globalVars, ns, SelVariable);
    }
  }

  lemma PickStep<T>(a: seq<T>, ns: seq<TopLevelNode>, sel: TopLevelNode -> Option<T>)
    requires ns != []
    ensures var last := ns[|ns| - 1];
            a + Pick(ns, sel) == a + Pick(ns[..|ns| - 1], sel) + (if sel(last).Some? then [sel(last).value] else [])
  {
  }

  /** Picking distributes over concatenation: the buckets of several
      compilation units are the units' buckets one after the other. */
  lemma {:induction false} PickConcat<T>(xs: seq<TopLevelNode>, ys: seq<TopLevelNode>, sel: TopLevelNode -> Option<T>)
    ensures Pick(xs + ys, sel) == Pick(xs, sel) + Pick(ys, sel)
  {
    if ys != [] {
      var ys' := ys[..|ys| - 1];
      assert (xs + ys)[..|xs + ys| - 1] == xs + ys';
      PickConcat(xs, ys', sel);
    } else {
      assert xs + ys == xs;
    }
  }

  /** A picked element comes from a node of `ns`, and every node that `sel`
      accepts contributes its element. */
  lemma {:induction false} PickMembership<T>(ns: seq<TopLevelNode>, sel: TopLevelNode -> Option<T>, x: T)
    ensures x in Pick(ns, sel) <==> exists k :: 0 <= k < |ns| && sel(ns[k]) == Some(x)
  {
    if ns != [] {
      var init := ns[..|ns| - 1];
      PickMembership(init, sel, x);
      if x in Pick(init, sel) {
        var k :| 0 <= k < |init| && sel(init[k]) == Some(x);
        assert sel(ns[k]) == Some(x);
      }
      if exists k :: 0 <= k < |ns| && sel(ns[k]) == Some(x) {
        var k :| 0 <= k < |ns| && sel(ns[k]) == Some(x);
        if k < |init| {
          assert sel(init[k]) == Some(x);
        }
      }
    }
  }

  /** The ordered list keeps every node except package declarations and imports. */
  lemma TopLevelMembership(ns: seq<TopLevelNode>, n: TopLevelNode)
    ensures n in Pick(ns, SelTopLevel) <==> n in ns && KeptAtTopLevel(n)
  {
    PickMembership(ns, SelTopLevel, n);
    if n in ns && KeptAtTopLevel(n) {
      var k :| 0 <= k < |ns| && ns[k] == n;
      assert SelTopLevel(ns[k]) == Some(n);
    }
  }

  /** Annotation and XMLNS declarations reach no bucket: only the ordered list grows. */
  lemma UnbucketedKinds(b: Buckets, n: TopLevelNode)
    requires n.AnnotationTop? || n.XmlnsTop?
    ensures Add(b, n) == b.(topLevelNodes := b.topLevelNodes + [n])
  {
  }

  /** No two imports of `s` are the same import. */
  ghost predicate DistinctImports(s: seq<ImportNode>)
  {
    forall i, j | 0 <= i < j < |s| :: ImportKey(s[i]) != ImportKey(s[j])
  }

  /** Some import declaration among `ns` is the same import as `i`. */
  ghost predicate ImportMet(ns: seq<TopLevelNode>, i: ImportNode)
  {
    exists k | 0 <= k < |ns| :: ns[k].ImportTop? && ImportKey(ns[k].imp) == ImportKey(i)
  }

  /** The import bucket never holds the same import twice; it holds an import
      equal to `i` iff one was already there or one was met among `ns`; and
      every import it holds was already there or was declared among `ns`. */
  lemma {:induction false} ImportsDeduplicated(acc: seq<ImportNode>, ns: seq<TopLevelNode>, i: ImportNode)
    requires DistinctImports(acc)
    ensures DistinctImports(ImportsInto(acc, ns))
    ensures HasImport(ImportsInto(acc, ns), i) <==> HasImport(acc, i) || ImportMet(ns, i)
    ensures forall x | x in ImportsInto(acc, ns) :: x in acc || ImportTop(x) in ns
  {
    if ns != [] {
      var init := ns[..|ns| - 1];
      var last := ns[|ns| - 1];
      var prev := ImportsInto(acc, init);
      ImportsDeduplicated(acc, init, i);
      if last.ImportTop? {
        ImportsDeduplicated(acc, init, last.imp);
      }
      assert ns == init + [last];
      var r := ImportsInto(acc, ns);
      assert r == prev || r == prev + [last.imp];
      if HasImport(prev, i) {
        var k :| 0 <= k < |prev| && ImportKey(prev[k]) == ImportKey(i);
        assert r[k] == prev[k];
      }
      if ImportMet(init, i) {
        var k :| 0 <= k < |init| && init[k].ImportTop? && ImportKey(init[k].imp) == ImportKey(i);
        assert ns[k] == init[k];
      }
      if last.ImportTop? && ImportKey(last.imp) == ImportKey(i) {
        assert ns[|ns| - 1] == last;
        if r != prev {
          assert r[|prev|] == last.imp;
        }
      }
      if ImportMet(ns, i) && !ImportMet(init, i) {
        var k :| 0 <= k < |ns| && ns[k].ImportTop? && ImportKey(ns[k].imp) == ImportKey(i);
        if k < |init| {
          assert init[k] == ns[k];
        }
      }
    }
  }

  /** A second declaration of the same import, even from another node, leaves
      the import bucket as the first one left it. */
  lemma RepeatedImportKeptOnce(b: Buckets, i1: ImportNode, i2: ImportNode)
    requires ImportKey(i1) == ImportKey(i2)
    ensures Add(Add(b, ImportTop(i1)), ImportTop(i2)).imports == Add(b, ImportTop(i1)).imports
  {
    var b1 := Add(b, ImportTop(i1));
    if !HasImport(b.imports, i1) {
      assert b1.imports[|b.imports|] == i1;
    }
    assert HasImport(b1.imports, i2);
  }

  /** The package node. Its compilation units are fixed; its buckets are
      appended to while the units are read. */
  class PackageNode {
    const id: NodeId
    const compUnits: seq<CompilationUnit>
    var topLevelNodes: seq<TopLevelNode>
    var pkgDecl: Option<PackageDecl>
    var imports: seq<ImportNode>
    var functions: seq<Invokable>
    var structs: seq<StructNode>
    var connectors: seq<ConnectorNode>
    var services: seq<ServiceNode>
    var globalVars: seq<VarNode>

    ghost function Contents(): Buckets
      reads this
    {
      Buckets(topLevelNodes, pkgDecl, imports, functions, structs, connectors, services, globalVars)
    }

    /** A freshly parsed package: its units, and empty buckets. */
    constructor (id: NodeId, compUnits: seq<CompilationUnit>)
      ensures this.id == id && this.compUnits == compUnits
      ensures Contents() == NoBuckets
    {
      this.id := id;
      this.compUnits := compUnits;
      topLevelNodes, pkgDecl, imports := [], None, [];
      functions, structs, connectors, services, globalVars := [], [], [], [], [];
    }
  }

  /** Adds one top-level node to the ordered list and to its kind's bucket. */
  method AddTopLevelNode(pkg: PackageNode, node: TopLevelNode)
    modifies pkg
    ensures pkg.Contents() == Add(old(pkg.Contents()), node)
  {
    if KeptAtTopLevel(node) {
      pkg.topLevelNodes := pkg.topLevelNodes + [node];
    }
    match node {
      case PackageDeclNode(d) =>
        pkg.pkgDecl := Some(d);
      case ImportTop(i) =>
        if !HasImport(pkg.imports, i) {
          pkg.imports := pkg.imports + [i];
        }
      case FunctionTop(f) =>
        pkg.functions := pkg.functions + [f];
      case StructTop(s) =>
        pkg.structs := pkg.structs + [s];
      case ConnectorTop(c) =>
        pkg.connectors := pkg.connectors + [c];
      case ServiceTop(s) =>
        pkg.services := pkg.services + [s];
      case VariableTop(v) =>
        pkg.globalVars := pkg.globalVars + [v];
      case AnnotationTop(_) =>
      case XmlnsTop(_) =>
    }
  }

  /** Adds every top-level node of one compilation unit, in order. */
  method PopulateCompilationUnit(pkg: PackageNode, unit: CompilationUnit)
    modifies pkg
    ensures pkg.Contents() == AddAll(old(pkg.Contents()), unit.topLevelNodes)
  {
    var ns := unit.topLevelNodes;
    for i := 0 to |ns|
      invariant pkg.Contents() == AddAll(old(pkg.Contents()), ns[..i])
    {
      assert ns[..i + 1][..i] == ns[..i];
      AddTopLevelNode(pkg, ns[i]);
    }
    assert ns[..|ns|] == ns;
  }

  lemma {:induction false} AddAllConcat(b: Buckets, xs: seq<TopLevelNode>, ys: seq<TopLevelNode>)
    ensures AddAll(b, xs + ys) == AddAll(AddAll(b, xs), ys)
  {
    if ys != [] {
      var ys' := ys[..|ys| - 1];
      assert (xs + ys)[..|xs + ys| - 1] == xs + ys';
      AddAllConcat(b, xs, ys');
    } else {
      assert xs + ys == xs;
    }
  }

  /** Reads every compilation unit of the package, in order. */
  method PopulatePackageNode(pkg: PackageNode)
    modifies pkg
    ensures pkg.Contents() == AddAll(old(pkg.Contents()), Flatten(pkg.compUnits))
  {
    var units := pkg.compUnits;
    for i := 0 to |units|
      invariant pkg.Contents() == AddAll(old(pkg.Contents()), Flatten(units[..i]))
    {
      assert units[..i + 1][..i] == units[..i];
      AddAllConcat(old(pkg.Contents()), Flatten(units[..i]), units[i].topLevelNodes);
      PopulateCompilationUnit(pkg, units[i]);
    }
    assert units[..|units|] == units;
  }
}
