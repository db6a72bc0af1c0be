/** Dependency graphs of the workspace boundary checker: depth-first cycle
    detection and the worklist closure of the approved packages. */
module DependencyGraph {
  import opened Sequences

  type Name(==, !new)

  /** Each package with its dependencies, in the order they are iterated. */
  type Graph = map<Name, seq<Name>>

  predicate Edge(g: Graph, a: Name, b: Name) { a in g && b in g[a] }

  /** Every dependency is itself a package of the graph. */
  predicate Closed(g: Graph) {
    forall a, b :: a in g && b in g[a] ==> b in g
  }

  predicate IsPath(g: Graph, p: seq<Name>) {
    |p| > 1 ==> IsPath(g, DropLast(p)) && Edge(g, Last(DropLast(p)), Last(p))
  }

  ghost predicate HasCycle(g: Graph) {
    exists p :: |p| > 1 && IsPath(g, p) && p[0] == Last(p)
  }

  function Elements(s: seq<Name>): set<Name> {
    if s == [] then {} else Elements(DropLast(s)) + {Last(s)}
  }

  lemma {:induction false} ElementsAre(s: seq<Name>, x: Name)
    ensures x in Elements(s) <==> x in s
  {
    if s != [] {
      ElementsAre(DropLast(s), x);
      assert s == DropLast(s) + [Last(s)];
    }
  }

  // ----- finishing order excludes cycles ------------------------------------------

  /** Every package comes after all its dependencies. */
  predicate Topological(g: Graph, order: seq<Name>) {
    order != [] ==>
      && Topological(g, DropLast(order)) && Last(order) in g
      && forall d :: d in g[Last(order)] ==> d in Elements(DropLast(order))
  }

  /** How far into the order a package first appears, counted from one. */
  function Rank(order: seq<Name>, x: Name): nat {
    if order == [] then 0
    else if x in Elements(DropLast(order)) then Rank(DropLast(order), x)
    else if x == Last(order) then |order| else 0
  }

  lemma {:induction false} RankBound(order: seq<Name>, x: Name)
    requires x in Elements(order)
    ensures 0 < Rank(order, x) <= |order|
  {
    if x in Elements(DropLast(order)) { RankBound(DropLast(order), x); }
  }

  /** Ranks fall along every edge. */
  lemma {:induction false} EdgesDescend(g: Graph, order: seq<Name>, a: Name, b: Name)
    requires Topological(g, order) && a in Elements(order) && Edge(g, a, b)
    ensures b in Elements(order) && Rank(order, b) < Rank(order, a)
  {
    if a in Elements(DropLast(order)) {
      EdgesDescend(g, DropLast(order), a, b);
    } else {
      RankBound(DropLast(order), b);
    }
  }

  lemma {:induction false} PathsDescend(g: Graph, order: seq<Name>, p: seq<Name>)
    requires Topological(g, order) && |p| > 1 && IsPath(g, p) && p[0] in Elements(order)
    ensures Last(p) in Elements(order) && Rank(order, Last(p)) < Rank(order, p[0])
  {
    var front := DropLast(p);
    if |front| > 1 { PathsDescend(g, order, front); }
    EdgesDescend(g, order, Last(front), Last(p));
  }

  lemma {:induction false} OrderExcludesCycles(g: Graph, order: seq<Name>)
    requires Topological(g, order) && g.Keys <= Elements(order)
    ensures !HasCycle(g)
  {
    if p :| |p| > 1 && IsPath(g, p) && p[0] == Last(p) {
      PathStart(g, p);
      PathsDescend(g, order, p);
    }
  }

  lemma {:induction false} PathStart(g: Graph, p: seq<Name>)
    requires |p| > 1 && IsPath(g, p)
    ensures p[0] in g
  {
    if |p| > 2 { PathStart(g, DropLast(p)); }
  }

  lemma {:induction false} PathSnoc(g: Graph, p: seq<Name>, x: Name)
    requires IsPath(g, p) && (p == [] || Edge(g, Last(p), x))
    ensures IsPath(g, p + [x])
  {
  }

  lemma {:induction false} SuffixIsPath(g: Graph, p: seq<Name>, k: nat)
    requires IsPath(g, p) && k <= |p|
    ensures IsPath(g, p[k..])
  {
    if k + 1 < |p| {
      SuffixIsPath(g, DropLast(p), k);
      assert DropLast(p[k..]) == DropLast(p)[k..];
    }
  }

  /** An edge back onto the stack closes a cycle. */
  lemma {:induction false} BackEdge(g: Graph, stack: seq<Name>, x: Name)
    requires IsPath(g, stack) && x in Elements(stack) && stack != [] && Edge(g, Last(stack), x)
    ensures HasCycle(g)
  {
    ElementsAre(stack, x);
    var k :| 0 <= k < |stack| && stack[k] == x;
    PathSnoc(g, stack, x);
    SuffixIsPath(g, stack + [x], k);
    var p := (stack + [x])[k..];
    assert |p| > 1 && p[0] == x == Last(p);
  }

  // ----- the depth-first search ----------------------------------------------------

  /** What holds between any two visits: the stack is a path over what is being
      visited, and the finished packages are in dependency order. */
  ghost predicate Searching(g: Graph, visiting: set<Name>, visited: set<Name>, stack: seq<Name>, order: seq<Name>) {
    && IsPath(g, stack) && visiting == Elements(stack) && visiting <= g.Keys
    && Topological(g, order) && visited == Elements(order)
  }

  lemma {:induction false} Enter(
      g: Graph, visiting: set<Name>, visited: set<Name>, stack: seq<Name>, order: seq<Name>, x: Name)
    requires Searching(g, visiting, visited, stack, order) && x in g && (stack == [] || Edge(g, Last(stack), x))
    ensures Searching(g, visiting + {x}, visited, stack + [x], order)
  {
  }

  lemma {:induction false} Finish(
      g: Graph, visiting: set<Name>, visited: set<Name>, stack: seq<Name>, order: seq<Name>, x: Name)
    requires Topological(g, order) && visited == Elements(order) && x in g && forall d :: d in g[x] ==> d in visited
    requires IsPath(g, stack) && visiting == Elements(stack) && visiting <= g.Keys
    ensures Searching(g, visiting, visited + {x}, stack, order + [x])
  {
  }

  class Search {
    const graph: Graph
    var visiting: set<Name>
    var visited: set<Name>
    ghost var stack: seq<Name>
    ghost var order: seq<Name>

    constructor (g: Graph)
      ensures graph == g && visiting == {} && visited == {} && stack == [] && Valid()
    {
      graph, visiting, visited, stack, order := g, {}, {}, [], [];
    }

    ghost predicate Valid() reads this {
      Searching(graph, visiting, visited, stack, order)
    }

    /** `visit`: either everything below `name` is finished, or there is a cycle. */
    method Visit(name: Name) returns (ok: bool)
      requires Valid() && Closed(graph) && name in graph && (stack == [] || Edge(graph, Last(stack), name))
      modifies this
      ensures ok ==> Valid() && visiting == old(visiting) && stack == old(stack)
      ensures ok ==> old(visited) <= visited && name in visited
      ensures !ok ==> HasCycle(graph)
      decreases |graph.Keys - visiting|, 0
    {
      if name in visiting {
        BackEdge(graph, stack, name);
        return false;
      }
      if name in visited { return true; }
      ghost var outer, path := visiting, stack;
      Enter(graph, visiting, visited, stack, order, name);
      OneFewer(graph.Keys, visiting, name);
      visiting, stack := visiting + {name}, stack + [name];
      ok := VisitAll(name);
      if !ok { return false; }
      Finish(graph, outer, visited, path, order, name);
      assert visiting - {name} == outer;
      visiting, stack, visited, order := visiting - {name}, path, visited + {name}, order + [name];
    }

    /** The loop over the dependencies of the package on top of the stack. */
    method VisitAll(name: Name) returns (ok: bool)
      requires Valid() && Closed(graph) && name in graph && stack != [] && Last(stack) == name
      modifies this
      ensures ok ==> Valid() && visiting == old(visiting) && stack == old(stack) && old(visited) <= visited
      ensures ok ==> forall d :: d in graph[name] ==> d in visited
      ensures !ok ==> HasCycle(graph)
      decreases |graph.Keys - visiting|, 1
    {
      var dependencies := graph[name];
      for i := 0 to |dependencies|
        invariant Valid() && visiting == old(visiting) && stack == old(stack) && old(visited) <= visited
        invariant forall k :: 0 <= k < i ==> dependencies[k] in visited
      {
        ok := Visit(dependencies[i]);
        if !ok { return false; }
      }
      return true;
    }
  }

  lemma {:induction false} OneFewer(all: set<Name>, some: set<Name>, x: Name)
    requires x in all && x !in some
    ensures |all - (some + {x})| < |all - some|
  {
    assert all - some == (all - (some + {x})) + {x};
  }

  /** The search over all packages succeeds exactly on acyclic graphs. */
  method CheckAcyclic(g: Graph, names: seq<Name>) returns (ok: bool)
    requires Closed(g) && forall x :: x in g <==> x in names
    ensures ok <==> !HasCycle(g)
  {
    var search := new Search(g);
    for i := 0 to |names|
      invariant search.graph == g && search.Valid() && search.stack == [] && fresh(search)
      invariant forall x :: x in names[..i] ==> x in search.visited
    {
      ok := search.Visit(names[i]);
      if !ok { return false; }
      assert names[..i + 1] == names[..i] + [names[i]];
    }
    assert names[..|names|] == names;
    assert forall x :: x in g ==> x in names[..|names|];
    OrderExcludesCycles(g, search.order);
    return true;
  }

  // ----- the worklist ----------------------------------------------------------------

  /** Reached from a root along dependency edges. */
  ghost predicate Reachable(g: Graph, roots: seq<Name>, x: Name) {
    exists p :: Leads(g, roots, p, x)
  }

  predicate Leads(g: Graph, roots: seq<Name>, p: seq<Name>, x: Name) {
    p != [] && p[0] in roots && IsPath(g, p) && Last(p) == x
  }

  lemma {:induction false} RootReachable(g: Graph, roots: seq<Name>, x: Name)
    requires x in roots
    ensures Reachable(g, roots, x)
  {
    assert Leads(g, roots, [x], x);
  }

  lemma {:induction false} StepReachable(g: Graph, roots: seq<Name>, x: Name, y: Name)
    requires Reachable(g, roots, x) && Edge(g, x, y)
    ensures Reachable(g, roots, y)
  {
    var p :| Leads(g, roots, p, x);
    PathSnoc(g, p, y);
    assert Leads(g, roots, p + [y], y);
  }

  /** A set with the roots and closed under edges holds everything reachable. */
  lemma {:induction false} ClosureHolds(g: Graph, roots: seq<Name>, s: set<Name>, p: seq<Name>)
    requires p != [] && p[0] in roots && IsPath(g, p)
    requires forall x :: x in roots ==> x in s
    requires forall x, y :: x in s && x in g && y in g[x] ==> y in s
    ensures Last(p) in s
  {
    if |p| > 1 {
      var front := DropLast(p);
      ClosureHolds(g, roots, s, front);
    }
  }

  /** Found and still to do: sound, and nothing is forgotten. */
  ghost predicate Working(g: Graph, roots: seq<Name>, reachable: set<Name>, pending: seq<Name>) {
    && reachable <= g.Keys && (forall x :: x in pending ==> x in g)
    && (forall x :: x in reachable || x in pending ==> Reachable(g, roots, x))
    && (forall x :: x in roots ==> x in reachable || x in pending)
    && Settled(g, reachable, pending)
  }

  lemma {:induction false} WorkBegins(g: Graph, roots: seq<Name>)
    requires forall x :: x in roots ==> x in g
    ensures Working(g, roots, {}, roots)
  {
    forall x | x in roots ensures Reachable(g, roots, x) { RootReachable(g, roots, x); }
  }

  lemma {:induction false} SkipKnown(g: Graph, roots: seq<Name>, reachable: set<Name>, pending: seq<Name>)
    requires Working(g, roots, reachable, pending) && pending != [] && Last(pending) in reachable
    ensures Working(g, roots, reachable, DropLast(pending))
  {
  }

  predicate Settled(g: Graph, reachable: set<Name>, pending: seq<Name>) {
    forall x, y :: x in reachable && x in g && y in g[x] ==> y in reachable || y in pending
  }

  lemma {:induction false} SettleNew(g: Graph, reachable: set<Name>, front: seq<Name>, x: Name)
    requires Settled(g, reachable, front + [x]) && x in g
    ensures Settled(g, reachable + {x}, front + g[x])
  {
  }

  lemma {:induction false} TakeNew(g: Graph, roots: seq<Name>, reachable: set<Name>, pending: seq<Name>)
    requires Closed(g) && Working(g, roots, reachable, pending) && pending != [] && Last(pending) !in reachable
    ensures var x := Last(pending);
            x in g && Working(g, roots, reachable + {x}, DropLast(pending) + g[x])
  {
    var x := Last(pending);
    assert pending == DropLast(pending) + [x];
    SettleNew(g, reachable, DropLast(pending), x);
    forall y | y in g[x] ensures Reachable(g, roots, y) { StepReachable(g, roots, x, y); }
  }

  lemma {:induction false} WorkEnds(g: Graph, roots: seq<Name>, reachable: set<Name>)
    requires Working(g, roots, reachable, [])
    ensures forall x :: x in reachable <==> Reachable(g, roots, x)
  {
    forall x | Reachable(g, roots, x) ensures x in reachable {
      var p :| Leads(g, roots, p, x);
      ClosureHolds(g, roots, reachable, p);
    }
  }

  /** The worklist computes exactly the transitive closure of the roots, on cyclic
      graphs too, and looks up only names the graph has. */
  method Closure(g: Graph, roots: seq<Name>) returns (reachable: set<Name>)
    requires Closed(g) && forall x :: x in roots ==> x in g
    ensures forall x :: x in reachable <==> Reachable(g, roots, x)
  {
    reachable := {};
    var pending := roots;
    WorkBegins(g, roots);
    while pending != []
      invariant Working(g, roots, reachable, pending)
      decreases |g.Keys - reachable|, |pending|
    {
      var name := Last(pending);
      if name in reachable {
        SkipKnown(g, roots, reachable, pending);
        pending := DropLast(pending);
      } else {
        TakeNew(g, roots, reachable, pending);
        OneFewer(g.Keys, reachable, name);
        reachable, pending := reachable + {name}, DropLast(pending) + g[name];
      }
    }
    WorkEnds(g, roots, reachable);
  }

  // ----- the policy --------------------------------------------------------------------

  type Version(==, !new)

  datatype PackageId = PackageId(name: Name, version: Version)

  datatype Package = Package(id: PackageId, dependencies: seq<PackageId>)

  function NamesOf(ids: seq<PackageId>): (r: seq<Name>)
    ensures |r| == |ids| && forall i :: 0 <= i < |ids| ==> r[i] == ids[i].name
  {
    seq(|ids|, i requires 0 <= i < |ids| => ids[i].name)
  }

  /** Packages by name; the policy has one version of each. */
  function ByName(packages: seq<Package>): Graph {
    if packages == [] then map[]
    else ByName(DropLast(packages))[Last(packages).id.name := NamesOf(Last(packages).dependencies)]
  }

  predicate OneVersion(packages: seq<Package>) {
    forall i, j :: 0 <= i < j < |packages| ==> packages[i].id.name != packages[j].id.name
  }

  predicate Approved(packages: seq<Package>, id: PackageId) {
    exists i :: 0 <= i < |packages| && packages[i].id == id
  }

  /** Every dependency edge names an approved package. */
  predicate EdgesApproved(packages: seq<Package>) {
    forall i, d :: 0 <= i < |packages| && d in packages[i].dependencies ==> Approved(packages, d)
  }

  predicate DirectApproved(packages: seq<Package>, direct: seq<Name>) {
    forall x :: x in direct ==> exists i :: 0 <= i < |packages| && packages[i].id.name == x
  }

  /** The closure part of `load_dependency_policy`. */
  predicate PolicyOk(packages: seq<Package>, direct: seq<Name>) {
    OneVersion(packages) && EdgesApproved(packages) && DirectApproved(packages, direct)
  }

  lemma {:induction false} NameFound(packages: seq<Package>, i: nat)
    requires i < |packages|
    ensures packages[i].id.name in ByName(packages)
  {
    if i < |packages| - 1 { NameFound(DropLast(packages), i); }
  }

  lemma {:induction false} NameOrigin(packages: seq<Package>, x: Name) returns (i: nat)
    requires x in ByName(packages)
    ensures i < |packages| && packages[i].id.name == x && ByName(packages)[x] == NamesOf(packages[i].dependencies)
  {
    if Last(packages).id.name == x { i := |packages| - 1; } else { i := NameOrigin(DropLast(packages), x); }
  }

  /** The policy's checks are what keeps the later lookups from failing. */
  lemma {:induction false} PolicyClosesLookups(packages: seq<Package>, direct: seq<Name>)
    requires PolicyOk(packages, direct)
    ensures Closed(ByName(packages)) && forall x :: x in direct ==> x in ByName(packages)
  {
    var g := ByName(packages);
    forall a, b | a in g && b in g[a] ensures b in g {
      var i := NameOrigin(packages, a);
      var k :| 0 <= k < |g[a]| && g[a][k] == b;
      var d := packages[i].dependencies[k];
      assert d in packages[i].dependencies && Approved(packages, d);
      var j :| 0 <= j < |packages| && packages[j].id == d;
      NameFound(packages, j);
    }
    forall x | x in direct ensures x in g {
      var i :| 0 <= i < |packages| && packages[i].id.name == x;
      NameFound(packages, i);
    }
  }

  /** The end of `validate_lockfile`: no approved package is unreachable. */
  method CheckClosure(packages: seq<Package>, direct: seq<Name>) returns (ok: bool)
    requires PolicyOk(packages, direct)
    ensures ok <==> forall i :: 0 <= i < |packages| ==> Reachable(ByName(packages), direct, packages[i].id.name)
  {
    PolicyClosesLookups(packages, direct);
    var g := ByName(packages);
    var reachable := Closure(g, direct);
    ok := reachable == g.Keys;
    EveryNameMeansEveryPackage(packages, direct, reachable);
  }

  lemma {:induction false} ReachableIsApproved(g: Graph, roots: seq<Name>, x: Name)
    requires Closed(g) && (forall r :: r in roots ==> r in g) && Reachable(g, roots, x)
    ensures x in g
  {
  }

  lemma {:induction false} EveryNameMeansEveryPackage(packages: seq<Package>, direct: seq<Name>, reachable: set<Name>)
    requires PolicyOk(packages, direct)
    requires forall x :: x in reachable <==> Reachable(ByName(packages), direct, x)
    ensures reachable == ByName(packages).Keys <==>
            forall i :: 0 <= i < |packages| ==> Reachable(ByName(packages), direct, packages[i].id.name)
  {
    var g := ByName(packages);
    PolicyClosesLookups(packages, direct);
    forall x | x in reachable ensures x in g { ReachableIsApproved(g, direct, x); }
    if reachable == g.Keys {
      forall i | 0 <= i < |packages| ensures packages[i].id.name in g { NameFound(packages, i); }
    }
    if forall i :: 0 <= i < |packages| ==> Reachable(g, direct, packages[i].id.name) {
      forall x | x in g ensures x in reachable { var i := NameOrigin(packages, x); }
      assert reachable == g.Keys;
    }
  }
}
