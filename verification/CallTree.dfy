// The call tree printed by `calls`: a depth-bounded walk over callers or callees
// that shares one set of visited names.

module CallGraphs {

  datatype StoredCallEdge = StoredCallEdge(caller: string, callee: string, file: string, line: nat)

  // An edge as handed to the walk: the name at its far end, and where it was found.
  datatype Edge = Edge(name: string, file: string, graph: nat, line: nat)

  datatype Direction = Callers | Callees

  function Near(d: Direction, e: StoredCallEdge): string {
    match d case Callers => e.callee case Callees => e.caller
  }

  function Far(d: Direction, e: StoredCallEdge): string {
    match d case Callers => e.caller case Callees => e.callee
  }

  // Edges are told apart by far name and file, joined by a tab.
  function EdgeKey(e: Edge): string {
    e.name + "\t" + e.file
  }

  ghost function KeysOf(es: seq<Edge>): set<string> {
    set e | e in es :: EdgeKey(e)
  }

  // Extends `found` by the matching edges of graph number g, skipping known keys.
  ghost function AddHits(found: seq<Edge>, edges: seq<StoredCallEdge>, g: nat, d: Direction, name: string): seq<Edge> {
    if edges == [] then found
    else
      var e := edges[|edges| - 1];
      var r := AddHits(found, edges[..|edges| - 1], g, d, name);
      var hit := Edge(Far(d, e), e.file, g, e.line);
      if Near(d, e) == name && EdgeKey(hit) !in KeysOf(r) then r + [hit] else r
  }

  // The edges next to `name`, over all graphs in order.
  ghost function Edges(graphs: seq<seq<StoredCallEdge>>, d: Direction, name: string): seq<Edge> {
    if graphs == [] then []
    else
      var g := |graphs| - 1;
      AddHits(Edges(graphs[..g], d, name), graphs[g], g, d, name)
  }

  // CallGraphQuery::find_callers and find_callees.
  method Find(graphs: seq<seq<StoredCallEdge>>, d: Direction, name: string) returns (result: seq<Edge>)
    ensures result == Edges(graphs, d, name)
  {
    hide EdgeKey, KeysOf, AddHits;
    KeysOfNone();
    result := [];
    var seen: set<string> := {};
    for g := 0 to |graphs|
      invariant result == Edges(graphs[..g], d, name)
      invariant seen == KeysOf(result)
    {
      result, seen := FindIn(result, seen, graphs[g], g, d, name);
      assert graphs[..g + 1][..g] == graphs[..g];
    }
    assert graphs[..|graphs|] == graphs;
  }

  method FindIn(
      found: seq<Edge>, seen0: set<string>, edges: seq<StoredCallEdge>, g: nat, d: Direction, name: string)
    returns (result: seq<Edge>, seen: set<string>)
    requires seen0 == KeysOf(found)
    ensures result == AddHits(found, edges, g, d, name) && seen == KeysOf(result)
  {
    hide EdgeKey, KeysOf;
    result, seen := found, seen0;
    for i := 0 to |edges|
      invariant result == AddHits(found, edges[..i], g, d, name)
      invariant seen == KeysOf(result)
    {
      var e := edges[i];
      assert edges[..i + 1][..i] == edges[..i];
      var hit := Edge(Far(d, e), e.file, g, e.line);
      if Near(d, e) == name {
        var key := EdgeKey(hit);
        if key !in seen {
          KeysOfAdd(result, hit);
          seen := seen + {key};
          result := result + [hit];
        }
      }
    }
    assert edges[..|edges|] == edges;
  }

  lemma KeysOfNone()
    ensures KeysOf([]) == {}
  {
  }

  lemma KeysOfAdd(es: seq<Edge>, e: Edge)
    ensures KeysOf(es + [e]) == KeysOf(es) + {EdgeKey(e)}
  {
    hide EdgeKey;
    assert forall x :: x in es + [e] <==> x in es || x == e;
  }

  ghost function NamesOf(es: seq<Edge>): set<string> {
    set e | e in es :: e.name
  }

  ghost predicate TabFree(s: string) {
    forall i :: 0 <= i < |s| ==> s[i] != '\t'
  }

  ghost predicate Joins(e: StoredCallEdge, d: Direction, name: string, far: string) {
    if d.Callers? then e.callee == name && e.caller == far else e.caller == name && e.callee == far
  }

  // What the graphs say: some graph has an edge between `name` and `far`.
  ghost predicate HasEdge(graphs: seq<seq<StoredCallEdge>>, d: Direction, name: string, far: string) {
    exists g, i :: 0 <= g < |graphs| && 0 <= i < |graphs[g]| && Joins(graphs[g][i], d, name, far)
  }

  // The graphs have this edge next to `name`.
  ghost predicate Known(graphs: seq<seq<StoredCallEdge>>, d: Direction, name: string, e: Edge) {
    exists g, i ::
      0 <= g < |graphs| && 0 <= i < |graphs[g]| && Joins(graphs[g][i], d, name, e.name) &&
      graphs[g][i].file == e.file && graphs[g][i].line == e.line && g == e.graph
  }

  // No two edges next to `name` have one key and different names at their far ends.
  ghost predicate KeysTellNames(graphs: seq<seq<StoredCallEdge>>, d: Direction, name: string) {
    forall a, b :: Known(graphs, d, name, a) && Known(graphs, d, name, b) && EdgeKey(a) == EdgeKey(b) ==>
      a.name == b.name
  }

  lemma KeyTellsName(a: Edge, b: Edge)
    requires TabFree(a.name) && TabFree(b.name) && EdgeKey(a) == EdgeKey(b)
    ensures a.name == b.name
  {
    var k := EdgeKey(a);
    assert forall i :: 0 <= i < |a.name| ==> k[i] == a.name[i];
    assert forall i :: 0 <= i < |b.name| ==> k[i] == b.name[i];
    assert k[|a.name|] == '\t' && k[|b.name|] == '\t';
  }

  // Names without tabs are told apart.
  lemma TabFreeTells(graphs: seq<seq<StoredCallEdge>>, d: Direction, name: string)
    requires forall g, i :: 0 <= g < |graphs| && 0 <= i < |graphs[g]| ==> TabFree(Far(d, graphs[g][i]))
    ensures KeysTellNames(graphs, d, name)
  {
    hide TabFree, EdgeKey;
    forall a, b | Known(graphs, d, name, a) && Known(graphs, d, name, b) && EdgeKey(a) == EdgeKey(b)
      ensures a.name == b.name
    {
      KeyTellsName(a, b);
    }
  }

  lemma {:induction false} AddHitsNames(
      graphs: seq<seq<StoredCallEdge>>, d: Direction, name: string, found: seq<Edge>, g: nat, n: nat, far: string)
    requires g < |graphs| && n <= |graphs[g]| && forall e :: e in found ==> Known(graphs, d, name, e)
    ensures var r := AddHits(found, graphs[g][..n], g, d, name);
            && (forall e :: e in r ==> Known(graphs, d, name, e))
            && (far in NamesOf(r) ==> far in NamesOf(found) || JoinedWithin(graphs[g], n, d, name, far))
            && (KeysTellNames(graphs, d, name) ==>
                  (far in NamesOf(r) <==> far in NamesOf(found) || JoinedWithin(graphs[g], n, d, name, far)))
  {
    if n > 0 {
      hide EdgeKey, KeysTellNames, Known;
      var e, before := graphs[g][n - 1], graphs[g][..n - 1];
      var r := AddHits(found, before, g, d, name);
      AddHitsNames(graphs, d, name, found, g, n - 1, far);
      var hit := Edge(Far(d, e), e.file, g, e.line);
      assert graphs[g][..n][..n - 1] == before;
      JoinedStep(graphs[g], n, d, name, far);
      assert forall x :: x in r + [hit] <==> x in r || x == hit;
      if Near(d, e) == name {
        HitKnown(graphs, d, name, g, n - 1);
        if EdgeKey(hit) in KeysOf(r) && KeysTellNames(graphs, d, name) {
          SeenName(graphs, d, name, r, hit);
        }
      }
    }
  }

  ghost predicate JoinedWithin(edges: seq<StoredCallEdge>, n: nat, d: Direction, name: string, far: string)
    requires n <= |edges|
  {
    exists i :: 0 <= i < n && Joins(edges[i], d, name, far)
  }

  lemma JoinedStep(edges: seq<StoredCallEdge>, n: nat, d: Direction, name: string, far: string)
    requires 0 < n <= |edges|
    ensures JoinedWithin(edges, n, d, name, far) <==>
            JoinedWithin(edges, n - 1, d, name, far) || Joins(edges[n - 1], d, name, far)
  {
  }

  lemma HitKnown(graphs: seq<seq<StoredCallEdge>>, d: Direction, name: string, g: nat, i: nat)
    requires g < |graphs| && i < |graphs[g]| && Near(d, graphs[g][i]) == name
    ensures var e := graphs[g][i]; Known(graphs, d, name, Edge(Far(d, e), e.file, g, e.line))
  {
    assert Joins(graphs[g][i], d, name, Far(d, graphs[g][i]));
  }

  lemma SeenName(graphs: seq<seq<StoredCallEdge>>, d: Direction, name: string, r: seq<Edge>, hit: Edge)
    requires EdgeKey(hit) in KeysOf(r) && KeysTellNames(graphs, d, name) && Known(graphs, d, name, hit)
    requires forall e :: e in r ==> Known(graphs, d, name, e)
    ensures hit.name in NamesOf(r)
  {
    hide EdgeKey, Known;
    var x :| x in r && EdgeKey(x) == EdgeKey(hit);
  }

  // Only neighbours recorded in the graphs are found; and each of them is, if keys tell the
  // names of neighbours apart.
  lemma EdgesNames(graphs: seq<seq<StoredCallEdge>>, d: Direction, name: string, far: string)
    ensures forall e :: e in Edges(graphs, d, name) ==> Known(graphs, d, name, e)
    ensures far in NamesOf(Edges(graphs, d, name)) ==> HasEdge(graphs, d, name, far)
    ensures KeysTellNames(graphs, d, name) ==>
              (far in NamesOf(Edges(graphs, d, name)) <==> HasEdge(graphs, d, name, far))
  {
    hide KeysTellNames, Edges, Known;
    EdgesUpTo(graphs, d, name, far, |graphs|);
    assert graphs[..|graphs|] == graphs;
  }

  lemma {:induction false} EdgesUpTo(graphs: seq<seq<StoredCallEdge>>, d: Direction, name: string, far: string, n: nat)
    requires n <= |graphs|
    ensures var r := Edges(graphs[..n], d, name);
            && (forall e :: e in r ==> Known(graphs, d, name, e))
            && (far in NamesOf(r) ==> HasEdge(graphs[..n], d, name, far))
            && (KeysTellNames(graphs, d, name) ==> (far in NamesOf(r) <==> HasEdge(graphs[..n], d, name, far)))
  {
    if n > 0 {
      hide KeysTellNames, Known, AddHits, Joins;
      EdgesUpTo(graphs, d, name, far, n - 1);
      assert graphs[..n][..n - 1] == graphs[..n - 1];
      var last := graphs[n - 1];
      assert last[..|last|] == last;
      AddHitsNames(graphs, d, name, Edges(graphs[..n - 1], d, name), n - 1, |last|, far);
      assert forall g :: 0 <= g < n - 1 ==> graphs[..n][g] == graphs[..n - 1][g];
    }
  }
}

module CallTree {
  import opened CallGraphs

  datatype Emitted = Emitted(edge: Edge, level: nat)

  // The names visited so far and what has been reported, in order.
  datatype Trail = Trail(visited: set<string>, out: seq<Emitted>)

  type Successors = string -> seq<Edge>

  ghost function SuccessorsIn(graphs: seq<seq<StoredCallEdge>>, d: Direction): Successors {
    name => Edges(graphs, d, name)
  }

  // The walk over the edges of one name, as a function of what was visited before.
  ghost function Visit(succ: Successors, edges: seq<Edge>, level: nat, depth: nat, t: Trail): Trail
    decreases if level <= depth then depth - level else 0, |edges|
  {
    if edges == [] then t
    else
      var e := edges[0];
      var t' :=
        if e.name in t.visited then t
        else
          var met := Trail(t.visited + {e.name}, t.out + [Emitted(e, level)]);
          if level < depth then Visit(succ, succ(e.name), level + 1, depth, met) else met;
      Visit(succ, edges[1..], level, depth, t')
  }

  class Walker {
    const graphs: seq<seq<StoredCallEdge>>
    const direction: Direction
    const depth: nat
    var visited: set<string>
    var out: seq<Emitted>

    constructor (graphs: seq<seq<StoredCallEdge>>, direction: Direction, depth: nat, root: string)
      ensures this.graphs == graphs && this.direction == direction && this.depth == depth
      ensures visited == {root} && out == []
    {
      this.graphs, this.direction, this.depth := graphs, direction, depth;
      visited, out := {root}, [];
    }

    // collect_edges_recursive, and print_tree of the command line.
    method Collect(name: string, level: nat)
      modifies this
      ensures Trail(visited, out) ==
          Visit(SuccessorsIn(graphs, direction), Edges(graphs, direction, name), level, depth,
                                           old(Trail(visited, out)))
      decreases if level <= depth then depth - level else 0
    {
      hide Edges;
      ghost var succ := SuccessorsIn(graphs, direction);
      var edges := Find(graphs, direction, name);
      for i := 0 to |edges|
        invariant Visit(succ, edges[i..], level, depth, Trail(visited, out))
               == Visit(succ, edges, level, depth, old(Trail(visited, out)))
      {
        var e := edges[i];
        assert edges[i..][1..] == edges[i + 1..];
        if e.name !in visited {
          visited := visited + {e.name};
          out := out + [Emitted(e, level)];
          if level < depth {
            Collect(e.name, level + 1);
          }
        }
      }
    }
  }

  // handle_calls for a depth above 1, in one direction.
  method Tree(graphs: seq<seq<StoredCallEdge>>, direction: Direction, depth: nat, root: string)
    returns (out: seq<Emitted>)
    ensures out == Report(SuccessorsIn(graphs, direction), depth, root).out
  {
    var w := new Walker(graphs, direction, depth, root);
    w.Collect(root, 1);
    out := w.out;
  }

  ghost function Report(succ: Successors, depth: nat, root: string): Trail {
    Visit(succ, succ(root), 1, depth, Trail({root}, []))
  }

  // A chain of k edges leads from a to b.
  ghost predicate IsChain(succ: Successors, p: seq<string>) {
    forall i, j :: 0 <= i && j == i + 1 && j < |p| ==> p[j] in NamesOf(succ(p[i]))
  }

  ghost predicate Chain(succ: Successors, a: string, b: string, k: nat) {
    exists p :: IsChain(succ, p) && |p| == k + 1 && p[0] == a && p[k] == b
  }

  lemma ChainNext(succ: Successors, a: string, b: string, k: nat, c: string)
    requires Chain(succ, a, b, k) && c in NamesOf(succ(b))
    ensures Chain(succ, a, c, k + 1)
  {
    var p :| IsChain(succ, p) && |p| == k + 1 && p[0] == a && p[k] == b;
    var q := p + [c];
    assert IsChain(succ, q) && q[0] == a && q[k + 1] == c;
  }

  ghost predicate DistinctNames(out: seq<Emitted>) {
    forall i, j :: 0 <= i < j < |out| ==> out[i].edge.name != out[j].edge.name
  }

  ghost function Reported(out: seq<Emitted>): set<string> {
    set x | x in out :: x.edge.name
  }

  // Nothing is reported twice, and nothing is reported without being visited.
  ghost predicate Fair(t: Trail) {
    DistinctNames(t.out) && Reported(t.out) <= t.visited
  }

  lemma FairAdd(t: Trail, e: Edge, level: nat)
    requires Fair(t) && e.name !in t.visited
    ensures Fair(Trail(t.visited + {e.name}, t.out + [Emitted(e, level)]))
  {
    ReportedAdd(t.out, Emitted(e, level));
  }

  // The walk only adds: what is new in `visited` is exactly what was reported, once each.
  lemma {:induction false} VisitGrows(succ: Successors, edges: seq<Edge>, level: nat, depth: nat, t: Trail)
    requires Fair(t)
    ensures var r := Visit(succ, edges, level, depth, t);
            && t.out <= r.out && t.visited <= r.visited
            && Fair(r)
            && r.visited == t.visited + Reported(r.out)
            && NamesOf(edges) <= r.visited
    decreases if level <= depth then depth - level else 0, |edges|
  {
    hide Fair, DistinctNames, Reported, NamesOf;
    FairMeans(t);
    if edges != [] {
      var e := edges[0];
      var t' := t;
      if e.name !in t.visited {
        t' := Trail(t.visited + {e.name}, t.out + [Emitted(e, level)]);
        ReportedAdd(t.out, Emitted(e, level));
        FairAdd(t, e, level);
        if level < depth {
          VisitGrows(succ, succ(e.name), level + 1, depth, t');
          ReportedPrefix(t'.out, Visit(succ, succ(e.name), level + 1, depth, t').out);
          t' := Visit(succ, succ(e.name), level + 1, depth, t');
        }
      }
      VisitGrows(succ, edges[1..], level, depth, t');
      ReportedPrefix(t'.out, Visit(succ, edges[1..], level, depth, t').out);
      NamesOfFirst(edges);
    }
  }

  lemma FairMeans(t: Trail)
    requires Fair(t)
    ensures Reported(t.out) <= t.visited && NamesOf([]) == {}
  {
  }

  lemma ReportedAdd(out: seq<Emitted>, x: Emitted)
    ensures Reported(out + [x]) == Reported(out) + {x.edge.name}
  {
    assert forall y :: y in out + [x] <==> y in out || y == x;
  }

  lemma ReportedPrefix(a: seq<Emitted>, b: seq<Emitted>)
    requires a <= b
    ensures Reported(a) <= Reported(b)
  {
  }

  ghost predicate OnChains(succ: Successors, root: string, depth: nat, out: seq<Emitted>) {
    forall i :: 0 <= i < |out| ==>
      1 <= out[i].level <= depth && Chain(succ, root, out[i].edge.name, out[i].level)
  }

  lemma {:induction false} VisitOnChains(
      succ: Successors, root: string, name: string, edges: seq<Edge>, level: nat, depth: nat, t: Trail)
    requires 1 <= level <= depth && Chain(succ, root, name, level - 1)
    requires NamesOf(edges) <= NamesOf(succ(name))
    requires OnChains(succ, root, depth, t.out)
    ensures OnChains(succ, root, depth, Visit(succ, edges, level, depth, t).out)
    decreases depth - level, |edges|
  {
    if edges != [] {
      hide Chain;
      var e := edges[0];
      var t' := t;
      if e.name !in t.visited {
        assert e.name in NamesOf(edges);
        ChainNext(succ, root, name, level - 1, e.name);
        t' := Trail(t.visited + {e.name}, t.out + [Emitted(e, level)]);
        if level < depth {
          VisitOnChains(succ, root, e.name, succ(e.name), level + 1, depth, t');
          t' := Visit(succ, succ(e.name), level + 1, depth, t');
        }
      }
      assert NamesOf(edges[1..]) <= NamesOf(edges);
      VisitOnChains(succ, root, name, edges[1..], level, depth, t');
    }
  }

  // From position `from` on, everything reported above the depth bound has all its
  // successors visited.
  ghost predicate Expanded(succ: Successors, depth: nat, out: seq<Emitted>, from: nat, visited: set<string>) {
    forall i :: from <= i < |out| && out[i].level < depth ==> NamesOf(succ(out[i].edge.name)) <= visited
  }

  lemma {:induction false} VisitExpands(succ: Successors, edges: seq<Edge>, level: nat, depth: nat, t: Trail)
    requires level <= depth && Fair(t)
    ensures var r := Visit(succ, edges, level, depth, t);
            Expanded(succ, depth, r.out, |t.out|, r.visited)
    decreases depth - level, |edges|
  {
    hide Fair, NamesOf;
    if edges != [] {
      var e := edges[0];
      var t' := t;
      if e.name !in t.visited {
        t' := Trail(t.visited + {e.name}, t.out + [Emitted(e, level)]);
        FairAdd(t, e, level);
        if level < depth {
          VisitExpands(succ, succ(e.name), level + 1, depth, t');
          VisitGrows(succ, succ(e.name), level + 1, depth, t');
          t' := Visit(succ, succ(e.name), level + 1, depth, t');
        }
      }
      assert Expanded(succ, depth, t'.out, |t.out|, t'.visited);
      VisitGrows(succ, edges[1..], level, depth, t');
      VisitExpands(succ, edges[1..], level, depth, t');
      var r := Visit(succ, edges[1..], level, depth, t');
      forall i | |t.out| <= i < |r.out| && r.out[i].level < depth
        ensures NamesOf(succ(r.out[i].edge.name)) <= r.visited
      {
        if i < |t'.out| {
          assert r.out[i] == t'.out[i];
        }
      }
    }
  }

  ghost predicate ClosedUnder(succ: Successors, names: set<string>) {
    forall n :: n in names ==> NamesOf(succ(n)) <= names
  }

  ghost predicate Shallow(out: seq<Emitted>, bound: nat) {
    forall i :: 0 <= i < |out| ==> out[i].level < bound
  }

  lemma NamesOfFirst(edges: seq<Edge>)
    requires edges != []
    ensures NamesOf(edges) == {edges[0].name} + NamesOf(edges[1..])
  {
    assert forall x :: x in edges <==> x == edges[0] || x in edges[1..];
  }

  lemma ShallowAdd(t: Trail, e: Edge, level: nat, names: set<string>)
    requires level <= |t.visited| && t.visited <= names && Shallow(t.out, |names|)
    requires e.name in names && e.name !in t.visited
    ensures t.visited + {e.name} <= names && level + 1 <= |t.visited + {e.name}|
    ensures Shallow(t.out + [Emitted(e, level)], |names|)
  {
    SubsetSize(t.visited + {e.name}, names);
  }

  // A name is never reported deeper than the number of names visited allows.
  lemma {:induction false} VisitLevels(
      succ: Successors, edges: seq<Edge>, level: nat, depth: nat, t: Trail, names: set<string>)
    requires level <= |t.visited| && level <= depth && Fair(t)
    requires t.visited <= names && NamesOf(edges) <= names && ClosedUnder(succ, names)
    requires Shallow(t.out, |names|)
    ensures Shallow(Visit(succ, edges, level, depth, t).out, |names|)
    ensures Visit(succ, edges, level, depth, t).visited <= names
    decreases depth - level, |edges|
  {
    hide Fair, NamesOf, ClosedUnder, Shallow;
    if edges != [] {
      var e := edges[0];
      var t' := t;
      NamesOfFirst(edges);
      if e.name !in t.visited {
        t' := Trail(t.visited + {e.name}, t.out + [Emitted(e, level)]);
        FairAdd(t, e, level);
        ShallowAdd(t, e, level, names);
        if level < depth {
          SuccessorsStay(succ, names, e.name);
          VisitLevels(succ, succ(e.name), level + 1, depth, t', names);
          VisitGrows(succ, succ(e.name), level + 1, depth, t');
          t' := Visit(succ, succ(e.name), level + 1, depth, t');
        }
      }
      SubsetSize(t.visited, t'.visited);
      VisitLevels(succ, edges[1..], level, depth, t', names);
    }
  }

  lemma SuccessorsStay(succ: Successors, names: set<string>, n: string)
    requires ClosedUnder(succ, names) && n in names
    ensures NamesOf(succ(n)) <= names
  {
  }

  lemma SubsetSize<T>(a: set<T>, b: set<T>)
    requires a <= b
    ensures |a| <= |b|
  {
    assert b == a + (b - a);
  }

  // At every depth: no name twice, never the root, each at a level within the bound
  // and with a real chain of exactly that many calls behind it.
  lemma ReportSound(succ: Successors, depth: nat, root: string)
    requires depth >= 1
    ensures var r := Report(succ, depth, root);
            && DistinctNames(r.out)
            && root !in Reported(r.out)
            && OnChains(succ, root, depth, r.out)
            && r.visited == {root} + Reported(r.out)
  {
    assert IsChain(succ, [root]) && [root][0] == root;
    VisitGrows(succ, succ(root), 1, depth, Trail({root}, []));
    VisitOnChains(succ, root, root, succ(root), 1, depth, Trail({root}, []));
    NeverKnown(succ, succ(root), 1, depth, Trail({root}, []), root);
  }

  ghost predicate FromSuccessors(succ: Successors, out: seq<Emitted>) {
    forall i :: 0 <= i < |out| ==> exists name :: out[i].edge in succ(name)
  }

  lemma {:induction false} VisitFromSuccessors(
      succ: Successors, name: string, edges: seq<Edge>, level: nat, depth: nat, t: Trail)
    requires FromSuccessors(succ, t.out) && forall e :: e in edges ==> e in succ(name)
    ensures FromSuccessors(succ, Visit(succ, edges, level, depth, t).out)
    decreases if level <= depth then depth - level else 0, |edges|
  {
    if edges != [] {
      var e := edges[0];
      var t' := t;
      if e.name !in t.visited {
        assert e in succ(name);
        t' := Trail(t.visited + {e.name}, t.out + [Emitted(e, level)]);
        if level < depth {
          VisitFromSuccessors(succ, e.name, succ(e.name), level + 1, depth, t');
          t' := Visit(succ, succ(e.name), level + 1, depth, t');
        }
      }
      VisitFromSuccessors(succ, name, edges[1..], level, depth, t');
    }
  }

  // What the tree prints are calls recorded in the graphs, each with its file, line and graph.
  lemma ReportedIsRecorded(graphs: seq<seq<StoredCallEdge>>, d: Direction, depth: nat, root: string, i: nat)
    requires i < |Report(SuccessorsIn(graphs, d), depth, root).out|
    ensures var e := Report(SuccessorsIn(graphs, d), depth, root).out[i].edge; exists name :: Known(graphs, d, name, e)
  {
    hide Edges, Known, Visit;
    var succ := SuccessorsIn(graphs, d);
    VisitFromSuccessors(succ, root, succ(root), 1, depth, Trail({root}, []));
    var e := Report(succ, depth, root).out[i].edge;
    var name :| e in succ(name);
    EdgesNames(graphs, d, name, e.name);
  }

  lemma {:induction false} NeverKnown(
      succ: Successors, edges: seq<Edge>, level: nat, depth: nat, t: Trail, name: string)
    requires name in t.visited && name !in Reported(t.out)
    requires Fair(t)
    ensures name !in Reported(Visit(succ, edges, level, depth, t).out)
    decreases if level <= depth then depth - level else 0, |edges|
  {
    if edges != [] {
      var e := edges[0];
      var t' := t;
      if e.name !in t.visited {
        t' := Trail(t.visited + {e.name}, t.out + [Emitted(e, level)]);
        ReportedAdd(t.out, Emitted(e, level));
        FairAdd(t, e, level);
        if level < depth {
          NeverKnown(succ, succ(e.name), level + 1, depth, t', name);
          VisitGrows(succ, succ(e.name), level + 1, depth, t');
          t' := Visit(succ, succ(e.name), level + 1, depth, t');
        }
      }
      NeverKnown(succ, edges[1..], level, depth, t', name);
    }
  }

  ghost predicate Reachable(succ: Successors, root: string, name: string) {
    exists k: nat :: Chain(succ, root, name, k)
  }

  // Nothing was cut off: what stands at the depth bound leads nowhere new.
  ghost predicate NothingCutOff(succ: Successors, depth: nat, r: Trail) {
    forall i :: 0 <= i < |r.out| && r.out[i].level == depth ==> NamesOf(succ(r.out[i].edge.name)) <= r.visited
  }

  // The report holds every reachable name exactly when nothing was cut off at the bound.
  lemma ReportCompleteIff(succ: Successors, depth: nat, root: string)
    requires depth >= 1
    ensures var r := Report(succ, depth, root);
            (forall name :: Reachable(succ, root, name) ==> name == root || name in Reported(r.out))
            <==> NothingCutOff(succ, depth, r)
  {
    hide Chain;
    var r := Report(succ, depth, root);
    ReportSound(succ, depth, root);
    VisitGrows(succ, succ(root), 1, depth, Trail({root}, []));
    VisitExpands(succ, succ(root), 1, depth, Trail({root}, []));
    if NothingCutOff(succ, depth, r) {
      assert ClosedUnder(succ, r.visited);
      forall name | Reachable(succ, root, name)
        ensures name in r.visited
      {
        var k: nat :| Chain(succ, root, name, k);
        ClosedHolds(succ, root, name, k, r.visited);
      }
    } else {
      var i :| 0 <= i < |r.out| && r.out[i].level == depth && !(NamesOf(succ(r.out[i].edge.name)) <= r.visited);
      var name :| name in NamesOf(succ(r.out[i].edge.name)) && name !in r.visited;
      ChainNext(succ, root, r.out[i].edge.name, depth, name);
      assert Reachable(succ, root, name);
    }
  }

  lemma {:induction false} ClosedHolds(succ: Successors, a: string, b: string, k: nat, closed: set<string>)
    requires a in closed && ClosedUnder(succ, closed)
    requires Chain(succ, a, b, k)
    ensures b in closed
  {
    var p :| IsChain(succ, p) && |p| == k + 1 && p[0] == a && p[k] == b;
    for i := 0 to k
      invariant p[i] in closed
    {
    }
  }

  // With a depth of at least the number of names, everything reachable is reported.
  lemma ReportComplete(succ: Successors, depth: nat, root: string, names: set<string>)
    requires depth >= 1 && |names| <= depth
    requires root in names && ClosedUnder(succ, names)
    ensures Reported(Report(succ, depth, root).out)
         == set n | n in names && n != root && Reachable(succ, root, n)
  {
    hide Chain;
    var r := Report(succ, depth, root);
    ReportSound(succ, depth, root);
    VisitLevels(succ, succ(root), 1, depth, Trail({root}, []), names);
    ReportCompleteIff(succ, depth, root);
    assert NothingCutOff(succ, depth, r);
  }

  ghost function FarNames(graphs: seq<seq<StoredCallEdge>>, d: Direction): set<string> {
    set g, i | 0 <= g < |graphs| && 0 <= i < |graphs[g]| :: Far(d, graphs[g][i])
  }

  // The same on the stored graphs, with as many levels as there are names, if keys tell the
  // names of neighbours apart, as they do names without tabs.
  lemma TreeComplete(graphs: seq<seq<StoredCallEdge>>, d: Direction, depth: nat, root: string)
    requires forall name :: KeysTellNames(graphs, d, name)
    requires depth >= 1 && |FarNames(graphs, d) + {root}| <= depth
    ensures var succ := SuccessorsIn(graphs, d);
            && (forall a, b :: b in NamesOf(succ(a)) <==> HasEdge(graphs, d, a, b))
            && forall n :: n in Reported(Report(succ, depth, root).out) <==> n != root && Reachable(succ, root, n)
  {
    hide Edges, Report, Reported, NamesOf, KeysTellNames;
    var succ := SuccessorsIn(graphs, d);
    var names := FarNames(graphs, d) + {root};
    forall a, b
      ensures b in NamesOf(succ(a)) <==> HasEdge(graphs, d, a, b)
    {
      EdgesNames(graphs, d, a, b);
    }
    assert ClosedUnder(succ, names);
    ReportComplete(succ, depth, root, names);
    forall n | Reachable(succ, root, n)
      ensures n in names
    {
      var k: nat :| Chain(succ, root, n, k);
      ClosedHolds(succ, root, n, k, names);
    }
  }

  // Two functions a and b below r, where a also calls b, and b calls c.
  ghost function Diamond(): Successors {
    name =>
      if name == "r" then [Edge("a", "f", 0, 1), Edge("b", "f", 0, 2)]
      else if name == "a" then [Edge("b", "f", 0, 3)]
      else if name == "b" then [Edge("c", "f", 0, 4)]
      else []
  }

  // A small depth can lose a name within reach: c is two calls below r, but b is
  // first met at level 2, through a, and is then never expanded.
  lemma SmallDepthLoses()
    ensures Chain(Diamond(), "r", "c", 2)
    ensures "c" !in Reported(Report(Diamond(), 2, "r").out)
  {
    var succ := Diamond();
    assert Edge("b", "f", 0, 2) in succ("r") && Edge("c", "f", 0, 4) in succ("b");
    var p := ["r", "b", "c"];
    assert IsChain(succ, p) && p[0] == "r" && p[2] == "c";
    var a, b := Emitted(Edge("a", "f", 0, 1), 1), Emitted(Edge("b", "f", 0, 3), 2);
    var t1 := Trail({"r", "a"}, [a]);
    assert Visit(succ, succ("a")[1..], 2, 2, Trail({"r", "a", "b"}, [a, b])) == Trail({"r", "a", "b"}, [a, b]);
    assert {"r", "a"} + {"b"} == {"r", "a", "b"} && [a] + [b] == [a, b];
    assert Visit(succ, succ("a"), 2, 2, t1) == Trail({"r", "a", "b"}, [a, b]);
    assert {"r"} + {"a"} == {"r", "a"} && [] + [a] == [a];
    var rest := succ("r")[1..];
    assert rest == [Edge("b", "f", 0, 2)] && rest[1..] == [];
    assert Visit(succ, rest, 1, 2, Trail({"r", "a", "b"}, [a, b])) == Trail({"r", "a", "b"}, [a, b]);
    assert Report(succ, 2, "r") == Trail({"r", "a", "b"}, [a, b]);
  }

  // ---- whatever the order of the edges ----

  // A chain that meets no name twice.
  ghost predicate Simple(p: seq<string>) {
    forall i, j :: 0 <= i < j < |p| ==> p[i] != p[j]
  }

  ghost predicate SimpleChain(succ: Successors, root: string, p: seq<string>) {
    IsChain(succ, p) && Simple(p) && p != [] && p[0] == root
  }

  // Two simple chains from the root, within the depth, to one name.
  ghost predicate TwoWays(succ: Successors, root: string, depth: nat, p: seq<string>, q: seq<string>) {
    && SimpleChain(succ, root, p) && SimpleChain(succ, root, q) && |p| <= depth + 1 && |q| <= depth + 1
    && p[|p| - 1] == q[|q| - 1]
  }

  // Such chains are always of one length.
  ghost predicate Graded(succ: Successors, root: string, depth: nat) {
    forall p, q :: TwoWays(succ, root, depth, p, q) ==> |p| == |q|
  }

  // The same edges in another order.
  ghost predicate Reorders(succ': Successors, succ: Successors) {
    forall name :: multiset(succ'(name)) == multiset(succ(name))
  }

  ghost predicate ReportedAt(out: seq<Emitted>, name: string, k: nat) {
    exists i :: 0 <= i < |out| && out[i].edge.name == name && out[i].level == k
  }

  ghost predicate Distant(succ: Successors, root: string, name: string, k: nat) {
    Chain(succ, root, name, k) && forall j: nat :: Chain(succ, root, name, j) ==> k <= j
  }

  // The report holds exactly the names within the depth, each at its distance from the root.
  ghost predicate Faithful(out: seq<Emitted>, succ: Successors, depth: nat, root: string) {
    forall name, k: nat :: ReportedAt(out, name, k) <==> 1 <= k <= depth && Distant(succ, root, name, k)
  }

  lemma ReordersNames(succ': Successors, succ: Successors)
    requires Reorders(succ', succ)
    ensures forall name :: NamesOf(succ'(name)) == NamesOf(succ(name))
  {
    forall name
      ensures NamesOf(succ'(name)) == NamesOf(succ(name))
    {
      assert forall e :: e in succ'(name) <==> e in multiset(succ'(name));
      assert forall e :: e in succ(name) <==> e in multiset(succ(name));
    }
  }

  lemma SameChains(succ': Successors, succ: Successors)
    requires forall name :: NamesOf(succ'(name)) == NamesOf(succ(name))
    ensures forall p :: IsChain(succ', p) <==> IsChain(succ, p)
    ensures forall a, b, k: nat :: Chain(succ', a, b, k) <==> Chain(succ, a, b, k)
  {
    hide NamesOf;
  }

  // A shortest chain meets no name twice.
  lemma ShortestIsSimple(succ: Successors, a: string, b: string, k: nat) returns (p: seq<string>)
    requires Distant(succ, a, b, k)
    ensures SimpleChain(succ, a, p) && |p| == k + 1 && p[k] == b
  {
    hide NamesOf;
    p :| IsChain(succ, p) && |p| == k + 1 && p[0] == a && p[k] == b;
    if i, j :| 0 <= i < j < |p| && p[i] == p[j] {
      var q := p[..i] + p[j..];
      ChainCut(succ, p, i, j);
      assert q[0] == a && q[|q| - 1] == b && |q| - 1 < k;
      assert Chain(succ, a, b, |q| - 1);
    }
  }

  lemma ChainCut(succ: Successors, p: seq<string>, i: nat, j: nat)
    requires IsChain(succ, p) && i < j < |p| && p[i] == p[j]
    ensures IsChain(succ, p[..i] + p[j..])
  {
    hide NamesOf;
    var q := p[..i] + p[j..];
    forall m, n | 0 <= m && n == m + 1 && n < |q|
      ensures q[n] in NamesOf(succ(q[m]))
    {
      if n < i {
        assert q[m] == p[m] && q[n] == p[m + 1];
      } else if n == i {
        assert q[m] == p[i - 1] && q[n] == p[i];
      } else {
        assert q[m] == p[m - i + j] && q[n] == p[m + 1 - i + j];
      }
    }
  }

  lemma {:induction false} DistanceExists(succ: Successors, a: string, b: string, k: nat) returns (d: nat)
    requires Chain(succ, a, b, k)
    ensures d <= k && Distant(succ, a, b, d)
  {
    hide Chain;
    if j: nat :| j < k && Chain(succ, a, b, j) {
      d := DistanceExists(succ, a, b, j);
    } else {
      d := k;
    }
  }

  // Everything reported has a simple chain of its level behind it.
  ghost predicate OnSimple(succ: Successors, root: string, out: seq<Emitted>) {
    forall i :: 0 <= i < |out| ==>
      exists p :: SimpleChain(succ, root, p) && |p| == out[i].level + 1 && p[|p| - 1] == out[i].edge.name
  }

  lemma {:induction false} VisitOnSimple(
      succ: Successors, root: string, p: seq<string>, edges: seq<Edge>, depth: nat, t: Trail)
    requires SimpleChain(succ, root, p) && |p| <= depth && Fair(t)
    requires (forall i :: 0 <= i < |p| ==> p[i] in t.visited)
    requires NamesOf(edges) <= NamesOf(succ(p[|p| - 1])) && OnSimple(succ, root, t.out)
    ensures OnSimple(succ, root, Visit(succ, edges, |p|, depth, t).out)
    decreases depth - |p|, |edges|
  {
    hide Fair, NamesOf, OnSimple, SimpleChain;
    if edges != [] {
      var e := edges[0];
      var t' := t;
      NamesOfFirst(edges);
      if e.name !in t.visited {
        var q := p + [e.name];
        SimpleNext(succ, root, p, e.name);
        t' := Trail(t.visited + {e.name}, t.out + [Emitted(e, |p|)]);
        FairAdd(t, e, |p|);
        OnSimpleAdd(succ, root, t.out, Emitted(e, |p|), q);
        if |p| < depth {
          VisitOnSimple(succ, root, q, succ(e.name), depth, t');
          VisitGrows(succ, succ(e.name), |p| + 1, depth, t');
          t' := Visit(succ, succ(e.name), |p| + 1, depth, t');
        }
      }
      VisitOnSimple(succ, root, p, edges[1..], depth, t');
    }
  }

  lemma SimpleNext(succ: Successors, root: string, p: seq<string>, name: string)
    requires SimpleChain(succ, root, p) && name in NamesOf(succ(p[|p| - 1])) && name !in p
    ensures SimpleChain(succ, root, p + [name])
  {
    hide NamesOf;
  }

  lemma OnSimpleAdd(succ: Successors, root: string, out: seq<Emitted>, x: Emitted, p: seq<string>)
    requires OnSimple(succ, root, out) && SimpleChain(succ, root, p)
    requires |p| == x.level + 1 && p[|p| - 1] == x.edge.name
    ensures OnSimple(succ, root, out + [x])
  {
    hide SimpleChain;
  }

  // In a graded graph the level of whatever is reported is its distance.
  lemma LevelIsDistance(succ: Successors, depth: nat, root: string, i: nat)
    requires depth >= 1 && Graded(succ, root, depth) && i < |Report(succ, depth, root).out|
    ensures var x := Report(succ, depth, root).out[i];
            1 <= x.level <= depth && Distant(succ, root, x.edge.name, x.level)
  {
    hide Chain, IsChain, NamesOf;
    var out := Report(succ, depth, root).out;
    ReportSound(succ, depth, root);
    RootIsSimple(succ, root);
    VisitOnSimple(succ, root, [root], succ(root), depth, Trail({root}, []));
    var x := out[i];
    var p :| SimpleChain(succ, root, p) && |p| == x.level + 1 && p[|p| - 1] == x.edge.name;
    var d := DistanceExists(succ, root, x.edge.name, x.level);
    var q := ShortestIsSimple(succ, root, x.edge.name, d);
    assert TwoWays(succ, root, depth, p, q);
  }

  lemma RootIsSimple(succ: Successors, root: string)
    ensures SimpleChain(succ, root, [root]) && OnSimple(succ, root, []) && Fair(Trail({root}, []))
  {
  }

  // And every name within the depth is reported.
  lemma {:induction false} NearIsReported(succ: Successors, depth: nat, root: string, name: string, k: nat)
    requires Graded(succ, root, depth) && 1 <= k <= depth && Distant(succ, root, name, k)
    ensures exists i :: 0 <= i < |Report(succ, depth, root).out| && Report(succ, depth, root).out[i].edge.name == name
    decreases k
  {
    hide Graded, NamesOf, Fair;
    var r := Report(succ, depth, root);
    ReportSound(succ, depth, root);
    RootIsSimple(succ, root);
    VisitGrows(succ, succ(root), 1, depth, Trail({root}, []));
    VisitExpands(succ, succ(root), 1, depth, Trail({root}, []));
    var before := Nearer(succ, root, name, k);
    if k > 1 {
      NearIsReported(succ, depth, root, before, k - 1);
      var i :| 0 <= i < |r.out| && r.out[i].edge.name == before;
      LevelIsDistance(succ, depth, root, i);
      SameDistance(succ, root, before, k - 1, r.out[i].level);
      assert name in r.visited;
    } else {
      assert name in r.visited;
    }
    NotRoot(succ, root, name, k);
  }

  lemma SameDistance(succ: Successors, root: string, name: string, k: nat, l: nat)
    requires Distant(succ, root, name, k) && Distant(succ, root, name, l)
    ensures k == l
  {
    hide Chain;
  }

  lemma NotRoot(succ: Successors, root: string, name: string, k: nat)
    requires Distant(succ, root, name, k) && k >= 1
    ensures name != root
  {
    assert IsChain(succ, [root]) && [root][0] == root;
    assert Chain(succ, root, root, 0);
  }

  // The name before it on a shortest chain is one nearer.
  lemma Nearer(succ: Successors, root: string, name: string, k: nat) returns (before: string)
    requires Distant(succ, root, name, k) && k >= 1
    ensures Distant(succ, root, before, k - 1) && name in NamesOf(succ(before)) && (k == 1 ==> before == root)
  {
    hide NamesOf;
    var p :| IsChain(succ, p) && |p| == k + 1 && p[0] == root && p[k] == name;
    before := p[k - 1];
    assert IsChain(succ, p[..k]) && p[..k][k - 1] == before;
    forall j: nat | Chain(succ, root, before, j)
      ensures k - 1 <= j
    {
      ChainNext(succ, root, before, j, name);
    }
  }

  // ---- following one chain first ----

  ghost function Ahead(edges: seq<Edge>, name: string): seq<Edge>
    requires name in NamesOf(edges)
  {
    var j :| 0 <= j < |edges| && edges[j].name == name;
    [edges[j]] + edges[..j] + edges[j + 1..]
  }

  lemma AheadSame(edges: seq<Edge>, name: string)
    requires name in NamesOf(edges)
    ensures multiset(Ahead(edges, name)) == multiset(edges)
    ensures Ahead(edges, name) != [] && Ahead(edges, name)[0].name == name
  {
    var j :| 0 <= j < |edges| && edges[j].name == name &&
             Ahead(edges, name) == [edges[j]] + edges[..j] + edges[j + 1..];
    assert edges == edges[..j] + [edges[j]] + edges[j + 1..];
  }

  // The order in which each name on the chain has the next one first.
  ghost function Along(succ: Successors, p: seq<string>): Successors
    requires IsChain(succ, p)
  {
    name =>
      if exists i :: 0 <= i < |p| - 1 && p[i] == name then
        var i :| 0 <= i < |p| - 1 && p[i] == name;
        assert p[i + 1] in NamesOf(succ(p[i]));
        Ahead(succ(name), p[i + 1])
      else succ(name)
  }

  lemma AlongAt(succ: Successors, p: seq<string>, i: nat)
    requires IsChain(succ, p) && Simple(p) && i < |p| - 1
    ensures p[i + 1] in NamesOf(succ(p[i])) && Along(succ, p)(p[i]) == Ahead(succ(p[i]), p[i + 1])
  {
    hide Ahead, NamesOf;
    var k :| 0 <= k < |p| - 1 && p[k] == p[i] && Along(succ, p)(p[i]) == Ahead(succ(p[i]), p[k + 1]);
  }

  lemma AlongReorders(succ: Successors, p: seq<string>)
    requires IsChain(succ, p) && Simple(p)
    ensures Reorders(Along(succ, p), succ)
    ensures forall i :: 0 <= i < |p| - 1 ==> Along(succ, p)(p[i]) != [] && Along(succ, p)(p[i])[0].name == p[i + 1]
  {
    hide Ahead, NamesOf, IsChain, Simple;
    forall i | 0 <= i < |p| - 1
      ensures p[i + 1] in NamesOf(succ(p[i])) && Along(succ, p)(p[i]) == Ahead(succ(p[i]), p[i + 1])
      ensures multiset(Along(succ, p)(p[i])) == multiset(succ(p[i]))
      ensures Along(succ, p)(p[i]) != [] && Along(succ, p)(p[i])[0].name == p[i + 1]
    {
      AlongAt(succ, p, i);
      AheadSame(succ(p[i]), p[i + 1]);
    }
    forall name
      ensures multiset(Along(succ, p)(name)) == multiset(succ(name))
    {
      if i :| 0 <= i < |p| - 1 && p[i] == name {
      }
    }
  }

  // The walk then follows it to its end.
  lemma {:induction false} FollowsChain(succ: Successors, p: seq<string>, i: nat, depth: nat, t: Trail)
    requires Simple(p) && i < |p| - 1 <= depth && Fair(t)
    requires forall j :: 0 <= j < |p| - 1 ==> succ(p[j]) != [] && succ(p[j])[0].name == p[j + 1]
    requires forall j :: i < j < |p| ==> p[j] !in t.visited
    ensures ReportedAt(Visit(succ, succ(p[i]), i + 1, depth, t).out, p[|p| - 1], |p| - 1)
    decreases |p| - i
  {
    hide Fair, NamesOf;
    var edges := succ(p[i]);
    var e := edges[0];
    var met := Trail(t.visited + {e.name}, t.out + [Emitted(e, i + 1)]);
    assert e.name == p[i + 1];
    FairAdd(t, e, i + 1);
    var t' := met;
    if i + 1 < depth {
      t' := Visit(succ, succ(e.name), i + 2, depth, met);
      VisitGrows(succ, succ(e.name), i + 2, depth, met);
    }
    if i + 1 == |p| - 1 {
      assert met.out[|t.out|] == Emitted(e, i + 1);
      AtPrefix(met.out, t'.out, p[i + 1], i + 1);
    } else {
      FollowsChain(succ, p, i + 1, depth, met);
    }
    VisitGrows(succ, edges[1..], i + 1, depth, t');
    AtPrefix(t'.out, Visit(succ, edges[1..], i + 1, depth, t').out, p[|p| - 1], |p| - 1);
  }

  lemma AtPrefix(a: seq<Emitted>, b: seq<Emitted>, name: string, k: nat)
    requires a <= b
    ensures ReportedAt(a, name, k) ==> ReportedAt(b, name, k)
  {
    if i :| 0 <= i < |a| && a[i].edge.name == name && a[i].level == k {
      assert b[i] == a[i];
    }
  }

  // The report holds exactly the names within the depth, each at its distance, for every order
  // of the edges, exactly if simple chains within the depth to one name are of one length.
  lemma FaithfulIffGraded(succ: Successors, depth: nat, root: string)
    requires depth >= 1
    ensures (forall succ' :: Reorders(succ', succ) ==> Faithful(Report(succ', depth, root).out, succ, depth, root))
            <==> Graded(succ, root, depth)
  {
    hide Reorders, Faithful, Report;
    if Graded(succ, root, depth) {
      forall succ' | Reorders(succ', succ)
        ensures Faithful(Report(succ', depth, root).out, succ, depth, root)
      {
        GradedIsFaithful(succ', succ, depth, root);
      }
    } else {
      var p, q := Ungraded(succ, root, depth);
      AlongReorders(succ, p);
      LongWayFirst(succ, depth, root, p, q);
    }
  }

  lemma Ungraded(succ: Successors, root: string, depth: nat) returns (p: seq<string>, q: seq<string>)
    requires !Graded(succ, root, depth)
    ensures SimpleChain(succ, root, p) && SimpleChain(succ, root, q)
    ensures |q| < |p| <= depth + 1 && p[|p| - 1] == q[|q| - 1]
  {
    hide SimpleChain;
    var a, b :| TwoWays(succ, root, depth, a, b) && |a| != |b|;
    if |a| < |b| {
      p, q := b, a;
    } else {
      p, q := a, b;
    }
  }

  lemma SameGrade(succ': Successors, succ: Successors, root: string, depth: nat)
    requires Graded(succ, root, depth) && forall p :: IsChain(succ', p) <==> IsChain(succ, p)
    ensures Graded(succ', root, depth)
  {
    hide IsChain;
    forall p, q | TwoWays(succ', root, depth, p, q)
      ensures |p| == |q|
    {
      assert TwoWays(succ, root, depth, p, q);
    }
  }

  lemma GradedIsFaithful(succ': Successors, succ: Successors, depth: nat, root: string)
    requires depth >= 1 && Graded(succ, root, depth) && Reorders(succ', succ)
    ensures Faithful(Report(succ', depth, root).out, succ, depth, root)
  {
    hide Report, IsChain, Chain, NamesOf, Reorders;
    ReordersNames(succ', succ);
    SameChains(succ', succ);
    SameGrade(succ', succ, root, depth);
    var out := Report(succ', depth, root).out;
    forall name, k: nat
      ensures ReportedAt(out, name, k) <==> 1 <= k <= depth && Distant(succ, root, name, k)
    {
      if i :| 0 <= i < |out| && out[i].edge.name == name && out[i].level == k {
        LevelIsDistance(succ', depth, root, i);
      }
      if 1 <= k <= depth && Distant(succ, root, name, k) {
        NearIsReported(succ', depth, root, name, k);
        var i :| 0 <= i < |out| && out[i].edge.name == name;
        LevelIsDistance(succ', depth, root, i);
        SameDistance(succ', root, name, k, out[i].level);
      }
    }
  }

  lemma LongWayFirst(succ: Successors, depth: nat, root: string, p: seq<string>, q: seq<string>)
    requires SimpleChain(succ, root, p) && SimpleChain(succ, root, q)
    requires |q| < |p| <= depth + 1 && p[|p| - 1] == q[|q| - 1] && IsChain(succ, p)
    requires forall i :: 0 <= i < |p| - 1 ==> Along(succ, p)(p[i]) != [] && Along(succ, p)(p[i])[0].name == p[i + 1]
    ensures !Faithful(Report(Along(succ, p), depth, root).out, succ, depth, root)
  {
    hide Along, NamesOf;
    RootIsSimple(succ, root);
    FollowsChain(Along(succ, p), p, 0, depth, Trail({root}, []));
    var name := p[|p| - 1];
    assert Chain(succ, root, name, |q| - 1);
    assert !Distant(succ, root, name, |p| - 1);
  }
}
