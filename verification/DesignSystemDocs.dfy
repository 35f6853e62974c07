/**
 * The design-system document check: broken links and anchors, and Markdown files that no chain of
 * links from README.md leads to, found by a recursive visit of the link graph.
 */
module DesignSystemDocs {

  /** A link as resolved from its file; an `Existing` one without an anchor has `anchorFound`. */
  datatype Link =
    | External
    | Missing(line: nat)
    | Existing(line: nat, target: string, anchorFound: bool)

  datatype Doc = Doc(name: string, links: seq<Link>)

  datatype Violation =
    | BrokenLink(file: string, line: nat)
    | MissingAnchor(file: string, line: nat)
    | Unreachable(file: string)

  type Graph = map<string, set<string>>

  const README := "README.md"

  predicate IsMarkdown(name: string) {
    |name| >= 3 && name[|name| - 3..] == ".md"
  }

  function Targets(links: seq<Link>): set<string> {
    set i | 0 <= i < |links| && links[i].Existing? && IsMarkdown(links[i].target) :: links[i].target
  }

  ghost predicate UniqueNames(files: seq<Doc>) {
    forall i, j :: 0 <= i < j < |files| ==> files[i].name != files[j].name
  }

  /** The graph has a node for each file and an edge for each link to an existing Markdown file. */
  ghost predicate IsGraphOf(graph: Graph, files: seq<Doc>) {
    && (forall name :: name in graph <==> exists i :: 0 <= i < |files| && files[i].name == name)
    && (forall i :: 0 <= i < |files| ==> files[i].name in graph && graph[files[i].name] == Targets(files[i].links))
  }

  // ----- Reachability -----

  predicate Edge(graph: Graph, a: string, b: string) {
    a in graph && b in graph[a]
  }

  /** One file leads to another exactly if one of its links does, with or without its anchor, and the other is Markdown. */
  lemma EdgeIsALink(graph: Graph, files: seq<Doc>, a: string, b: string)
    requires IsGraphOf(graph, files) && UniqueNames(files)
    ensures Edge(graph, a, b) <==>
      |b| >= 3 && b[|b| - 3..] == ".md" && exists i :: 0 <= i < |files| && files[i].name == a && LinksTo(files[i], b)
  {
    if i :| 0 <= i < |files| && files[i].name == a {
      assert graph[a] == Targets(files[i].links);
      assert forall j :: 0 <= j < |files| && files[j].name == a ==> j == i;
    }
  }

  predicate LinksTo(file: Doc, target: string) {
    exists j :: 0 <= j < |file.links| && file.links[j].Existing? && file.links[j].target == target
  }

  /** A chain of links. */
  ghost predicate IsChain(graph: Graph, chain: seq<string>) {
    chain != [] && forall i :: 0 <= i < |chain| - 1 ==> StepAt(graph, chain, i)
  }

  predicate StepAt(graph: Graph, chain: seq<string>, i: nat)
    requires i < |chain| - 1
  {
    Edge(graph, chain[i], chain[i + 1])
  }

  ghost predicate Reaches(graph: Graph, from: string, to: string) {
    exists chain :: IsChain(graph, chain) && chain[0] == from && chain[|chain| - 1] == to
  }

  /** Every chain of links stays inside the set of files. */
  ghost predicate StaysInside(graph: Graph, from: string) {
    forall name :: Reaches(graph, from, name) ==> name in graph
  }

  lemma ReachesItself(graph: Graph, name: string)
    ensures Reaches(graph, name, name)
  {
    assert IsChain(graph, [name]);
  }

  lemma EdgeThenReaches(graph: Graph, a: string, b: string, c: string)
    requires Edge(graph, a, b) && Reaches(graph, b, c)
    ensures Reaches(graph, a, c)
  {
    var chain :| IsChain(graph, chain) && chain[0] == b && chain[|chain| - 1] == c;
    var longer := [a] + chain;
    forall i: nat | i < |longer| - 1 ensures StepAt(graph, longer, i) {
      if i > 0 {
        assert StepAt(graph, chain, i - 1);
      }
    }
    assert IsChain(graph, longer);
  }

  /** A set that links do not leave contains all that is reachable from its members. */
  lemma {:induction false} ClosedHoldsChains(graph: Graph, closed: set<string>, chain: seq<string>)
    requires forall a, b :: a in closed && Edge(graph, a, b) ==> b in closed
    requires IsChain(graph, chain) && chain[0] in closed
    ensures chain[|chain| - 1] in closed
  {
    if |chain| > 1 {
      assert StepAt(graph, chain, 0);
      forall i: nat | i < |chain[1..]| - 1 ensures StepAt(graph, chain[1..], i) {
        assert StepAt(graph, chain, i + 1);
      }
      ClosedHoldsChains(graph, closed, chain[1..]);
    }
  }

  /** What a visit that ran to its end has added to `before`. */
  ghost predicate VisitedFrom(graph: Graph, name: string, before: set<string>, after: set<string>) {
    && before <= after && name in after
    && (forall a :: a in after - before ==> a in graph && Reaches(graph, name, a))
    && (forall a, b :: a in after - before && Edge(graph, a, b) ==> b in after)
  }

  /** Starting with nothing visited, that is exactly what is reachable. */
  lemma VisitedIsReachable(graph: Graph, name: string, visited: set<string>)
    requires VisitedFrom(graph, name, {}, visited)
    ensures forall a :: a in visited <==> Reaches(graph, name, a)
  {
    forall a | Reaches(graph, name, a) ensures a in visited {
      var chain :| IsChain(graph, chain) && chain[0] == name && chain[|chain| - 1] == a;
      ClosedHoldsChains(graph, visited, chain);
    }
  }

  // ----- The check -----

  class LinkVisitor {
    const graph: Graph
    var visited: set<string>

    constructor (graph: Graph)
      ensures this.graph == graph && visited == {}
    {
      this.graph := graph;
      visited := {};
    }

    /**
     * `visit`, which ends on every graph. Without a node for `name` it raises: `ok` is false, and
     * then a chain of links leads out of the graph.
     */
    method Visit(name: string) returns (ok: bool)
      modifies this
      ensures old(visited) <= visited
      ensures ok ==> VisitedFrom(graph, name, old(visited), visited)
      ensures !ok ==> !StaysInside(graph, name)
      decreases graph.Keys - visited, 1
    {
      ReachesItself(graph, name);
      if name in visited { return true; }
      if name !in graph {
        visited := visited + {name};
        return false;
      }
      assert name in graph.Keys - visited;
      ok := VisitLinks(name);
    }

    /** `visited.add(name)`, then the visit of each linked file. */
    method VisitLinks(name: string) returns (ok: bool)
      requires name in graph && name !in visited
      modifies this
      ensures old(visited) <= visited
      ensures ok ==> VisitedFrom(graph, name, old(visited), visited)
      ensures !ok ==> !StaysInside(graph, name)
      decreases graph.Keys - visited, 0
    {
      ReachesItself(graph, name);
      ghost var before := visited;
      assert name in graph.Keys - before;
      visited := visited + {name};
      var left := graph[name];
      while left != {}
        invariant left <= graph[name] && before + {name} <= visited
        invariant forall a :: a in visited - before ==> a in graph && Reaches(graph, name, a)
        invariant forall a, b :: a in visited - before && Edge(graph, a, b) ==> b in visited || (a == name && b in left)
        decreases left
      {
        var next :| next in left;
        assert Edge(graph, name, next);
        forall a | Reaches(graph, next, a) ensures Reaches(graph, name, a) {
          EdgeThenReaches(graph, name, next, a);
        }
        ok := Visit(next);
        if !ok {
          return;
        }
        left := left - {next};
      }
      ok := true;
    }
  }

  method BuildGraph(files: seq<Doc>) returns (graph: Graph, violations: seq<Violation>)
    requires UniqueNames(files)
    ensures IsGraphOf(graph, files)
    ensures forall v :: v in violations <==> LinkViolation(files, v)
  {
    graph, violations := map[], [];
    for i := 0 to |files|
      invariant IsGraphOf(graph, files[..i])
      invariant forall v :: v in violations <==> LinkViolation(files[..i], v)
    {
      var file := files[i];
      var targets, found := CheckLinks(file);
      assert files[..i + 1] == files[..i] + [file];
      assert forall name :: name in graph ==> name != file.name;
      OneMoreFile(files[..i], file);
      graph := graph[file.name := targets];
      violations := violations + found;
    }
    assert files[..|files|] == files;
  }

  /** One file's links: its edges and what is wrong with them. */
  method CheckLinks(file: Doc) returns (targets: set<string>, violations: seq<Violation>)
    ensures targets == Targets(file.links)
    ensures forall v :: v in violations <==> BadLink(file, v)
  {
    targets, violations := {}, [];
    for i := 0 to |file.links|
      invariant targets == Targets(file.links[..i])
      invariant forall v :: v in violations <==> BadLink(Doc(file.name, file.links[..i]), v)
    {
      var link := file.links[i];
      assert forall j :: 0 <= j < i ==> file.links[..i][j] == file.links[..i + 1][j];
      OneMoreLink(file, i);
      if link.Missing? {
        violations := violations + [BrokenLink(file.name, link.line)];
      } else if link.Existing? {
        if !link.anchorFound {
          violations := violations + [MissingAnchor(file.name, link.line)];
        }
        if IsMarkdown(link.target) {
          targets := targets + {link.target};
        }
      }
    }
    assert file.links[..|file.links|] == file.links;
    assert Doc(file.name, file.links) == file;
  }

  /** What a link is reported for. */
  predicate Reported(name: string, link: Link, v: Violation) {
    || (link.Missing? && v == BrokenLink(name, link.line))
    || (link.Existing? && !link.anchorFound && v == MissingAnchor(name, link.line))
  }

  ghost predicate BadLink(file: Doc, v: Violation) {
    exists i :: 0 <= i < |file.links| && Reported(file.name, file.links[i], v)
  }

  ghost predicate LinkViolation(files: seq<Doc>, v: Violation) {
    exists i :: 0 <= i < |files| && BadLink(files[i], v)
  }

  lemma OneMoreLink(file: Doc, i: nat)
    requires i < |file.links|
    ensures Targets(file.links[..i + 1]) ==
      Targets(file.links[..i]) + (if file.links[i].Existing? && IsMarkdown(file.links[i].target) then {file.links[i].target} else {})
    ensures forall v :: BadLink(Doc(file.name, file.links[..i + 1]), v) <==>
      BadLink(Doc(file.name, file.links[..i]), v) || Reported(file.name, file.links[i], v)
  {
    var a, b := file.links[..i], file.links[..i + 1];
    assert forall j :: 0 <= j < i ==> a[j] == b[j];
    forall v ensures BadLink(Doc(file.name, b), v) <==> BadLink(Doc(file.name, a), v) || Reported(file.name, file.links[i], v) {
      if BadLink(Doc(file.name, a), v) {
        var j :| 0 <= j < i && Reported(file.name, a[j], v);
        assert Reported(file.name, b[j], v);
      }
      assert b[i] == file.links[i];
    }
  }

  lemma OneMoreFile(files: seq<Doc>, file: Doc)
    ensures forall v :: LinkViolation(files + [file], v) <==> LinkViolation(files, v) || BadLink(file, v)
  {
    var all := files + [file];
    forall v ensures LinkViolation(all, v) <==> LinkViolation(files, v) || BadLink(file, v) {
      if LinkViolation(files, v) {
        var i :| 0 <= i < |files| && BadLink(files[i], v);
        assert BadLink(all[i], v);
      }
      assert all[|files|] == file;
    }
  }

  /**
   * The whole check. It raises exactly if some chain of links from README.md leaves the files;
   * otherwise the unreachable files it reports are exactly those that are not ignored and that no
   * chain of links leads to.
   */
  method ValidateDesignSystem(files: seq<Doc>, ignored: set<string>) returns (raised: bool, violations: seq<Violation>)
    requires UniqueNames(files)
    ensures forall graph :: IsGraphOf(graph, files) ==> IsVerdict(graph, files, ignored, raised, violations)
  {
    var graph;
    graph, violations := BuildGraph(files);
    var visitor := new LinkVisitor(graph);
    var ok := visitor.Visit(README);
    raised := !ok;
    if ok {
      VisitedIsReachable(graph, README, visitor.visited);
      var unreached := ReportUnreached(graph, visitor.visited, files, ignored);
      violations := violations + unreached;
    }
    assert IsVerdict(graph, files, ignored, raised, violations);
    forall other | IsGraphOf(other, files) ensures other == graph {
      GraphIsUnique(graph, other, files);
    }
  }

  ghost predicate IsVerdict(graph: Graph, files: seq<Doc>, ignored: set<string>, raised: bool, violations: seq<Violation>) {
    && raised == !StaysInside(graph, README)
    && (!raised ==> forall v :: v in violations <==> LinkViolation(files, v) || Unreached(graph, files, ignored, v))
  }

  method ReportUnreached(ghost graph: Graph, visited: set<string>, files: seq<Doc>, ignored: set<string>)
      returns (violations: seq<Violation>)
    requires forall name :: name in visited <==> Reaches(graph, README, name)
    ensures forall v :: v in violations <==> Unreached(graph, files, ignored, v)
  {
    violations := [];
    for i := 0 to |files|
      invariant forall v :: v in violations <==> Unreached(graph, files[..i], ignored, v)
    {
      var name := files[i].name;
      OneMoreName(graph, files[..i], files[i], ignored);
      assert files[..i + 1] == files[..i] + [files[i]];
      if name !in ignored && name !in visited {
        violations := violations + [Unreachable(name)];
      }
    }
    assert files[..|files|] == files;
  }

  ghost predicate Unreached(graph: Graph, files: seq<Doc>, ignored: set<string>, v: Violation) {
    v.Unreachable? && v.file !in ignored && !Reaches(graph, README, v.file)
    && exists i :: 0 <= i < |files| && files[i].name == v.file
  }

  lemma OneMoreName(graph: Graph, files: seq<Doc>, file: Doc, ignored: set<string>)
    ensures forall v :: Unreached(graph, files + [file], ignored, v) <==>
      || Unreached(graph, files, ignored, v)
      || (v == Unreachable(file.name) && file.name !in ignored && !Reaches(graph, README, file.name))
  {
    var all := files + [file];
    forall v | Unreached(graph, files, ignored, v) ensures Unreached(graph, all, ignored, v) {
      var i :| 0 <= i < |files| && files[i].name == v.file;
      assert all[i].name == v.file;
    }
    assert all[|files|] == file;
  }

  /** There is only one graph of a list of files, so the check's result is determined. */
  lemma GraphIsUnique(a: Graph, b: Graph, files: seq<Doc>)
    requires IsGraphOf(a, files) && IsGraphOf(b, files)
    ensures a == b
  {
    forall name | name in a ensures name in b && a[name] == b[name] {
      var i :| 0 <= i < |files| && files[i].name == name;
    }
  }
}
