// The import graph of an index and the `affected` walk over it:
// which files depend, directly or through others, on a set of changed files.

module ImportGraphs {

  datatype ImportInfo = ImportInfo(modulePath: string, symbols: seq<string>)

  // file -> what it imports
  type ImportGraph = map<string, seq<ImportInfo>>

  // The last position below `bound` that holds `c`, or -1.
  function RFind(s: string, c: char, bound: nat): (r: int)
    requires bound <= |s|
    ensures -1 <= r < bound
    ensures r >= 0 ==> s[r] == c
    ensures forall k :: r < k < bound ==> s[k] != c
  {
    if bound == 0 then -1
    else if s[bound - 1] == c then bound - 1
    else RFind(s, c, bound - 1)
  }

  function StripExt(s: string): string {
    var slash := RFind(s, '/', |s|);
    var dot := RFind(s, '.', |s|);
    if dot >= 0 && (slash < 0 || dot > slash) then s[..dot] else s
  }

  function LastSeg(s: string): string {
    s[RFind(s, '/', |s|) + 1..]
  }

  // The directory just above the last segment.  A slash at position 0 makes the
  // bound of the second search and the length of the substring wrap around, so
  // that the "parent" of "/x" is "x" itself.
  function ParentSeg(s: string): string {
    var slash := RFind(s, '/', |s|);
    if slash < 0 then ""
    else if slash == 0 then s[1..]
    else s[RFind(s, '/', slash) + 1..slash]
  }

  // Does an import of `modulePath` refer to the file `path`?
  predicate Matches(path: string, modulePath: string) {
    var q := StripExt(path);
    var m := StripExt(modulePath);
    && LastSeg(m) == LastSeg(q)
    && (ParentSeg(q) == "" || ParentSeg(m) == ParentSeg(q))
  }

  ghost function ImportersOf(g: ImportGraph, path: string): set<string> {
    set f | f in g && Imports(g[f], path)
  }

  predicate Slashless(s: string) {
    forall k :: 0 <= k < |s| ==> s[k] != '/'
  }

  predicate Dotless(s: string) {
    forall k :: 0 <= k < |s| ==> s[k] != '.'
  }

  // Nothing, or a path up to and with a slash.
  predicate Prefix(s: string) {
    s == "" || s[|s| - 1] == '/'
  }

  // A last segment: a base name, and an extension from its last dot on, if it has a dot.
  predicate Named(base: string, ext: string) {
    && Slashless(base) && Slashless(ext)
    && if ext == "" then Dotless(base) else ext[0] == '.' && Dotless(ext[1..])
  }

  lemma LastAt(a: string, c: char, b: string)
    requires forall k :: 0 <= k < |b| ==> b[k] != c
    ensures RFind(a + b, c, |a + b|) == RFind(a, c, |a|)
  {
    var r := RFind(a, c, |a|);
    assert r >= 0 ==> (a + b)[r] == c;
    assert forall k :: r < k < |a + b| ==> (a + b)[k] == if k < |a| then a[k] else b[k - |a|];
  }

  lemma LastSlash(pre: string, name: string)
    requires Prefix(pre) && Slashless(name)
    ensures RFind(pre + name, '/', |pre + name|) == |pre| - 1
  {
    LastAt(pre, '/', name);
  }

  lemma StripExtOf(pre: string, base: string, ext: string)
    requires Prefix(pre) && Named(base, ext)
    ensures StripExt(pre + base + ext) == pre + base
  {
    var s := pre + base + ext;
    assert s == pre + (base + ext);
    LastSlash(pre, base + ext);
    if ext == "" {
      LastAt(pre, '.', base);
      assert s == pre + base;
    } else {
      assert s == (pre + base + ".") + ext[1..];
      LastAt(pre + base + ".", '.', ext[1..]);
      assert s[..|pre + base|] == pre + base;
    }
  }

  lemma LastSegOf(pre: string, base: string)
    requires Prefix(pre) && Slashless(base)
    ensures LastSeg(pre + base) == base
  {
    LastSlash(pre, base);
    assert (pre + base)[|pre|..] == base;
  }

  lemma ParentOfBare(base: string)
    requires Slashless(base)
    ensures ParentSeg(base) == ""
  {
  }

  // The parent of a path in a directory is the name of that directory, unless the path's only
  // slash is its first character: then it is the rest of the path.
  lemma ParentOf(pre: string, dir: string, base: string)
    requires Prefix(pre) && Slashless(dir) && Slashless(base)
    ensures ParentSeg(pre + dir + "/" + base) == if pre + dir == "" then base else dir
  {
    var s := pre + dir + "/" + base;
    var slash := |pre + dir|;
    LastSlash(pre + dir + "/", base);
    if slash == 0 {
      assert s[1..] == base;
    } else {
      BelowBound(pre + dir, '/', s);
      LastSlash(pre, dir);
      assert s[|pre|..slash] == dir;
    }
  }

  lemma {:induction false} BelowBound(a: string, c: char, s: string)
    requires a <= s
    ensures RFind(s, c, |a|) == RFind(a, c, |a|)
    decreases |a|
  {
    var r := RFind(a, c, |a|);
    assert forall k :: r < k < |a| ==> s[k] == a[k];
  }

  // What an import, written "…dir2/base2" with or without an extension, matches.  A file in a
  // directory is matched exactly by the imports that agree with it in base name and in the
  // directory just above, whatever stands further left: "a/foo.ts" never by "../b/foo".
  lemma MatchesOnLastTwoSegments(
      pre: string, dir: string, base: string, ext: string, pre2: string, dir2: string, base2: string, ext2: string)
    requires Prefix(pre) && Slashless(dir) && Named(base, ext) && dir != ""
    requires Prefix(pre2) && Slashless(dir2) && Named(base2, ext2)
    ensures Matches(pre + dir + "/" + base + ext, pre2 + dir2 + "/" + base2 + ext2)
            <==> base == base2 && dir == if pre2 + dir2 == "" then base2 else dir2
  {
    hide StripExt, LastSeg, ParentSeg;
    StripExtOf(pre + dir + "/", base, ext);
    StripExtOf(pre2 + dir2 + "/", base2, ext2);
    LastSegOf(pre + dir + "/", base);
    LastSegOf(pre2 + dir2 + "/", base2);
    ParentOf(pre, dir, base);
    ParentOf(pre2, dir2, base2);
  }

  // A file in a directory is matched by no import without one.
  lemma DirectoryNeeded(pre: string, dir: string, base: string, ext: string, base2: string, ext2: string)
    requires Prefix(pre) && Slashless(dir) && Named(base, ext) && dir != "" && Named(base2, ext2)
    ensures !Matches(pre + dir + "/" + base + ext, base2 + ext2)
  {
    hide StripExt, LastSeg, ParentSeg;
    StripExtOf(pre + dir + "/", base, ext);
    StripExtOf("", base2, ext2);
    assert "" + base2 + ext2 == base2 + ext2 && "" + base2 == base2;
    ParentOf(pre, dir, base);
    ParentOfBare(base2);
  }

  // A bare file name is matched by every import of its base name, from whatever directory.
  lemma BareMatches(base: string, ext: string, pre2: string, base2: string, ext2: string)
    requires Named(base, ext) && Prefix(pre2) && Named(base2, ext2)
    ensures Matches(base + ext, pre2 + base2 + ext2) <==> base == base2
  {
    hide StripExt, LastSeg, ParentSeg;
    StripExtOf("", base, ext);
    assert "" + base + ext == base + ext && "" + base == base;
    StripExtOf(pre2, base2, ext2);
    LastSegOf("", base);
    LastSegOf(pre2, base2);
    ParentOfBare(base);
  }

  // A path whose only slash is its first character is matched from a directory of its own base
  // name, or from the root, and not by its bare name.
  lemma RootedMatches(base: string, ext: string, pre2: string, dir2: string, base2: string, ext2: string)
    requires Named(base, ext) && base != "" && Prefix(pre2) && Slashless(dir2) && Named(base2, ext2)
    ensures !Matches("/" + base + ext, base2 + ext2)
    ensures Matches("/" + base + ext, pre2 + dir2 + "/" + base2 + ext2)
            <==> base == base2 && (pre2 + dir2 == "" || dir2 == base)
  {
    hide StripExt, LastSeg, ParentSeg;
    StripExtOf("/", base, ext);
    LastSegOf("/", base);
    ParentOf("", "", base);
    assert "" + "" + "/" + base == "/" + base;
    StripExtOf("", base2, ext2);
    assert "" + base2 + ext2 == base2 + ext2 && "" + base2 == base2;
    ParentOfBare(base2);
    StripExtOf(pre2 + dir2 + "/", base2, ext2);
    LastSegOf(pre2 + dir2 + "/", base2);
    ParentOf(pre2, dir2, base2);
  }

  // Where two slashes stand together the directory has no name, and the base name decides.
  lemma UnnamedDirectory(pre: string, base: string, ext: string, pre2: string, base2: string, ext2: string)
    requires Prefix(pre) && pre != "" && Named(base, ext) && Prefix(pre2) && Named(base2, ext2)
    ensures Matches(pre + "/" + base + ext, pre2 + base2 + ext2) <==> base == base2
  {
    hide StripExt, LastSeg, ParentSeg;
    StripExtOf(pre + "/", base, ext);
    LastSegOf(pre + "/", base);
    ParentOf(pre, "", base);
    assert pre + "" + "/" + base == pre + "/" + base;
    StripExtOf(pre2, base2, ext2);
    LastSegOf(pre2, base2);
  }

  ghost predicate Imports(imports: seq<ImportInfo>, path: string) {
    exists i :: 0 <= i < |imports| && Matches(path, imports[i].modulePath)
  }

  // ImportGraph::imported_by.  The order in which the map is walked is left open.
  method ImportedBy(g: ImportGraph, path: string) returns (result: seq<string>)
    ensures forall f :: f in result <==> f in ImportersOf(g, path)
    ensures forall f :: f in result <==> f in g && exists i :: 0 <= i < |g[f]| && Matches(path, g[f][i].modulePath)
    ensures |result| == |ImportersOf(g, path)|
  {
    result := [];
    var todo := g.Keys;
    ghost var found := {};
    while todo != {}
      invariant todo <= g.Keys
      invariant forall f :: f in result <==> f in found
      invariant |found| == |result|
      invariant forall f :: f in found <==> f in g && f !in todo && Imports(g[f], path)
      decreases |todo|
    {
      var file :| file in todo;
      todo := todo - {file};
      var hit := AnyMatch(g[file], path);
      if hit {
        result := result + [file];
        found := found + {file};
      }
    }
    assert found == ImportersOf(g, path);
  }

  method AnyMatch(imports: seq<ImportInfo>, path: string) returns (hit: bool)
    ensures hit <==> Imports(imports, path)
  {
    hide Matches;
    hit := false;
    var i := 0;
    while i < |imports| && !hit
      invariant 0 <= i <= |imports|
      invariant hit <==> exists k :: 0 <= k < i && Matches(path, imports[k].modulePath)
    {
      hit := Matches(path, imports[i].modulePath);
      i := i + 1;
    }
  }
}

module Affected {
  import opened ImportGraphs

  datatype Node = Node(index: string, file: string)

  type Graphs = map<string, ImportGraph>

  // A file imported by more files than this is a hub: reported, not expanded.
  const BARREL_FANIN := 40

  // The text under which a node is remembered as visited and reported.
  function Key(n: Node): string {
    n.index + ":" + n.file
  }

  // No index name followed by ':' begins another index name.
  ghost predicate Unambiguous(names: set<string>) {
    forall a, b :: a in names && b in names && a != b ==> !(a + ":" <= b)
  }

  // Keys tell all nodes of these indexes apart exactly when the names are unambiguous.
  lemma KeysInjectiveIff(names: set<string>)
    ensures Unambiguous(names) <==>
            (forall m: Node, n: Node :: m.index in names && n.index in names && Key(m) == Key(n) ==> m == n)
  {
    if Unambiguous(names) {
      forall m: Node, n: Node | m.index in names && n.index in names && Key(m) == Key(n)
        ensures m == n
      {
        KeyInjective(names, m, n);
      }
    } else {
      var a, b :| a in names && b in names && a != b && a + ":" <= b;
      var m, n := Node(a, b[|a| + 1..] + ":"), Node(b, "");
      assert b == a + ":" + b[|a| + 1..];
      assert Key(m) == Key(n);
    }
  }

  lemma KeyInjective(names: set<string>, m: Node, n: Node)
    requires Unambiguous(names) && m.index in names && n.index in names && Key(m) == Key(n)
    ensures m == n
  {
    var k := Key(m);
    assert forall i :: 0 <= i < |m.index| ==> k[i] == m.index[i];
    assert forall i :: 0 <= i < |n.index| ==> k[i] == n.index[i];
    assert k[|m.index|] == ':' && k[|n.index|] == ':';
    assert |m.index| < |n.index| ==> m.index + ":" <= n.index;
    assert |n.index| < |m.index| ==> n.index + ":" <= m.index;
    assert m.index == n.index;
    assert m.file == k[|m.index| + 1..] == n.file;
  }

  ghost function Keys(nodes: set<Node>): set<string> {
    set n | n in nodes :: Key(n)
  }

  lemma KeysAdd(nodes: set<Node>, b: Node)
    ensures Keys(nodes + {b}) == Keys(nodes) + {Key(b)}
  {
    hide Key;
  }

  lemma KeyHeld(nodes: set<Node>, b: Node)
    ensures Key(b) in Keys(nodes) <==> exists m :: m in nodes && Key(m) == Key(b)
  {
    hide Key;
  }

  ghost function Importers(gs: Graphs, n: Node): set<string> {
    if n.index in gs then ImportersOf(gs[n.index], n.file) else {}
  }

  // The importer relation of a whole set of graphs, as one value.
  type Relation = Node -> set<string>

  ghost function RelationOf(gs: Graphs): Relation {
    n => Importers(gs, n)
  }

  // One link of a dependency path: `b` imports `a`, and `a` may be passed through.
  ghost predicate Step(imp: Relation, seeds: set<Node>, a: Node, b: Node) {
    && (a in seeds || |imp(a)| <= BARREL_FANIN)
    && b.index == a.index
    && b.file in imp(a)
  }

  ghost predicate IsPath(imp: Relation, seeds: set<Node>, p: seq<Node>) {
    && |p| > 0
    && p[0] in seeds
    && forall i, j :: 0 <= i && j == i + 1 && j < |p| ==> Step(imp, seeds, p[i], p[j])
  }

  // Some path of exactly k links leads from a seed to n.
  ghost predicate ReachIn(imp: Relation, seeds: set<Node>, n: Node, k: nat) {
    exists p :: IsPath(imp, seeds, p) && |p| == k + 1 && p[k] == n
  }

  // k is the length of a shortest path from a seed to n.
  ghost predicate Distance(imp: Relation, seeds: set<Node>, n: Node, k: nat) {
    && ReachIn(imp, seeds, n, k)
    && forall j: nat :: ReachIn(imp, seeds, n, j) ==> k <= j
  }

  // `depth` is the distance from the seeds, on exactly the nodes no further than maxDepth.
  ghost predicate HoldsDistances(depth: map<Node, nat>, imp: Relation, seeds: set<Node>, maxDepth: nat) {
    forall n, k: nat :: (n in depth && depth[n] == k) <==> (k <= maxDepth && Distance(imp, seeds, n, k))
  }

  // What is reported: the keys of the nodes that are not themselves seeds.
  ghost function Dependents(depth: map<Node, nat>): set<string> {
    set n | n in depth && depth[n] >= 1 :: Key(n)
  }

  // n is a proper dependent: at a distance from 1 to maxDepth.
  ghost predicate Dependent(imp: Relation, seeds: set<Node>, maxDepth: nat, n: Node) {
    exists k: nat :: 1 <= k <= maxDepth && Distance(imp, seeds, n, k)
  }

  ghost predicate Within(imp: Relation, seeds: set<Node>, maxDepth: nat, n: Node) {
    exists k: nat :: k <= maxDepth && ReachIn(imp, seeds, n, k)
  }

  // No two nodes in reach have one key.
  ghost predicate Distinguished(imp: Relation, seeds: set<Node>, maxDepth: nat) {
    forall m: Node, n: Node ::
      Within(imp, seeds, maxDepth, m) && Within(imp, seeds, maxDepth, n) && Key(m) == Key(n) ==> m == n
  }

  lemma {:induction false} ReachedIndex(imp: Relation, seeds: set<Node>, n: Node, k: nat)
    requires ReachIn(imp, seeds, n, k)
    ensures exists s :: s in seeds && s.index == n.index
    decreases k
  {
    if k > 0 {
      var a := ReachPrevious(imp, seeds, n, k);
      ReachedIndex(imp, seeds, a, k - 1);
    }
  }

  // Unambiguous names of the seeds' indexes suffice.
  lemma UnambiguousDistinguish(imp: Relation, seeds: set<Node>, maxDepth: nat, names: set<string>)
    requires Unambiguous(names) && forall s :: s in seeds ==> s.index in names
    ensures Distinguished(imp, seeds, maxDepth)
  {
    hide Key, Unambiguous, ReachIn;
    forall m: Node, n: Node |
      Within(imp, seeds, maxDepth, m) && Within(imp, seeds, maxDepth, n) && Key(m) == Key(n)
      ensures m == n
    {
      var i: nat :| ReachIn(imp, seeds, m, i);
      var j: nat :| ReachIn(imp, seeds, n, j);
      ReachedIndex(imp, seeds, m, i);
      ReachedIndex(imp, seeds, n, j);
      KeyInjective(names, m, n);
    }
  }

  lemma ReachNext(imp: Relation, seeds: set<Node>, a: Node, k: nat, b: Node)
    requires ReachIn(imp, seeds, a, k) && Step(imp, seeds, a, b)
    ensures ReachIn(imp, seeds, b, k + 1)
  {
    var p :| IsPath(imp, seeds, p) && |p| == k + 1 && p[k] == a;
    var q := p + [b];
    assert IsPath(imp, seeds, q) && q[k + 1] == b;
  }

  lemma ReachPrevious(imp: Relation, seeds: set<Node>, b: Node, k: nat) returns (a: Node)
    requires k > 0 && ReachIn(imp, seeds, b, k)
    ensures ReachIn(imp, seeds, a, k - 1) && Step(imp, seeds, a, b)
  {
    var p :| IsPath(imp, seeds, p) && |p| == k + 1 && p[k] == b;
    a := p[k - 1];
    assert IsPath(imp, seeds, p[..k]) && p[..k][k - 1] == a;
  }

  // b imports a in the same index; a is a seed, or no more than forty files import it.
  ghost predicate Leads(gs: Graphs, seeds: set<Node>, a: Node, b: Node) {
    && a.index == b.index && a.index in gs && b.file in gs[a.index]
    && (exists i :: 0 <= i < |gs[a.index][b.file]| && Matches(a.file, gs[a.index][b.file][i].modulePath))
    && (a in seeds || |ImportersOf(gs[a.index], a.file)| <= 40)
  }

  // From a seed to n, each imported by the next.
  ghost predicate ImportChain(gs: Graphs, seeds: set<Node>, p: seq<Node>, n: Node) {
    p != [] && p[0] in seeds && p[|p| - 1] == n && forall i :: 0 < i < |p| ==> Leads(gs, seeds, p[i - 1], p[i])
  }

  lemma StepLeads(gs: Graphs, seeds: set<Node>, a: Node, b: Node)
    ensures Step(RelationOf(gs), seeds, a, b) <==> Leads(gs, seeds, a, b)
  {
    hide Matches;
    assert RelationOf(gs)(a) == Importers(gs, a);
  }

  lemma ChainIsPath(gs: Graphs, seeds: set<Node>, p: seq<Node>, n: Node)
    ensures ImportChain(gs, seeds, p, n) <==> IsPath(RelationOf(gs), seeds, p) && p[|p| - 1] == n
  {
    hide Step, Leads, RelationOf;
    forall a, b ensures Step(RelationOf(gs), seeds, a, b) <==> Leads(gs, seeds, a, b) {
      StepLeads(gs, seeds, a, b);
    }
    if ImportChain(gs, seeds, p, n) {
      forall i, j | 0 <= i && j == i + 1 && j < |p| ensures Step(RelationOf(gs), seeds, p[i], p[j]) {
        assert Leads(gs, seeds, p[j - 1], p[j]);
      }
    }
    if p != [] && IsPath(RelationOf(gs), seeds, p) {
      forall i | 0 < i < |p| ensures Leads(gs, seeds, p[i - 1], p[i]) {
        assert Step(RelationOf(gs), seeds, p[i - 1], p[i]);
      }
    }
  }

  // What is in reach is what some such chain of at most maxDepth links leads to.
  lemma WithinIff(gs: Graphs, seeds: set<Node>, maxDepth: nat, n: Node)
    ensures Within(RelationOf(gs), seeds, maxDepth, n) <==>
            exists p :: ImportChain(gs, seeds, p, n) && |p| <= maxDepth + 1
  {
    hide RelationOf, IsPath, ImportChain;
    if k: nat :| k <= maxDepth && ReachIn(RelationOf(gs), seeds, n, k) {
      var p :| IsPath(RelationOf(gs), seeds, p) && |p| == k + 1 && p[k] == n;
      ChainIsPath(gs, seeds, p, n);
    }
    if p :| ImportChain(gs, seeds, p, n) && |p| <= maxDepth + 1 {
      ChainIsPath(gs, seeds, p, n);
      PathNotEmpty(RelationOf(gs), seeds, p);
      assert ReachIn(RelationOf(gs), seeds, n, |p| - 1);
    }
  }

  lemma PathNotEmpty(imp: Relation, seeds: set<Node>, p: seq<Node>)
    requires IsPath(imp, seeds, p)
    ensures p != []
  {
  }

  // The dependents to report are the nodes in reach that are no seeds.
  lemma DependentIff(gs: Graphs, seeds: set<Node>, maxDepth: nat, n: Node)
    ensures Dependent(RelationOf(gs), seeds, maxDepth, n) <==>
            n !in seeds && exists p :: ImportChain(gs, seeds, p, n) && |p| <= maxDepth + 1
  {
    hide RelationOf, ReachIn, ImportChain;
    var imp := RelationOf(gs);
    WithinIff(gs, seeds, maxDepth, n);
    SeedIff(imp, seeds, n);
    if k: nat :| k <= maxDepth && ReachIn(imp, seeds, n, k) {
      var d := Nearest(imp, seeds, n, k);
    }
  }

  lemma SeedIff(imp: Relation, seeds: set<Node>, n: Node)
    ensures ReachIn(imp, seeds, n, 0) <==> n in seeds
  {
    hide Step;
    if n in seeds {
      assert IsPath(imp, seeds, [n]) && [n][0] == n;
    }
  }

  lemma {:induction false} Nearest(imp: Relation, seeds: set<Node>, n: Node, k: nat) returns (d: nat)
    requires ReachIn(imp, seeds, n, k)
    ensures d <= k && Distance(imp, seeds, n, d)
  {
    hide ReachIn;
    if j: nat :| j < k && ReachIn(imp, seeds, n, j) {
      d := Nearest(imp, seeds, n, j);
    } else {
      d := k;
    }
  }

  datatype Item = Item(index: string, file: string, depth: nat)

  function NodeOf(it: Item): Node {
    Node(it.index, it.file)
  }

  // A node with this key has been met, at depth d or less.
  ghost predicate Met(depth: map<Node, nat>, b: Node, d: nat) {
    exists m :: m in depth && Key(m) == Key(b) && depth[m] <= d
  }

  // `depth` records every node met so far.
  ghost predicate Recorded(
      imp: Relation, seeds: set<Node>, all: set<Node>, maxDepth: nat, depth: map<Node, nat>,
      visited: set<string>, affected: set<string>)
  {
    && depth.Keys <= all
    && (forall s :: s in seeds ==> Met(depth, s, 0))
    && (forall n :: n in depth ==> depth[n] <= maxDepth && ReachIn(imp, seeds, n, depth[n]))
    && (forall n :: n in depth ==> (depth[n] == 0 <==> n in seeds))
    && visited == Keys(depth.Keys)
    && affected == Keys(depth.Keys - seeds)
  }

  // The queue holds recorded nodes in order of depth, spanning at most the two
  // depths c and c + 1, and nothing deeper has been met.
  ghost predicate Frontier(depth: map<Node, nat>, queue: seq<Item>, c: nat) {
    && (forall i :: 0 <= i < |queue| ==>
          NodeOf(queue[i]) in depth && depth[NodeOf(queue[i])] == queue[i].depth && c <= queue[i].depth)
    && (forall i, j :: 0 <= i < j < |queue| ==> queue[i].depth <= queue[j].depth)
    && (forall n :: n in depth ==> depth[n] <= c + 1)
  }

  // Every link out of a finished node has been followed, to a node of the same key.
  ghost predicate Closed(imp: Relation, seeds: set<Node>, maxDepth: nat, depth: map<Node, nat>, done: set<Node>) {
    forall a, b :: a in done && a in depth && depth[a] < maxDepth && Step(imp, seeds, a, b) ==>
      Met(depth, b, depth[a] + 1)
  }

  ghost predicate Pending(depth: map<Node, nat>, queue: seq<Item>, done: set<Node>) {
    forall n :: n in depth && n !in done ==> Queued(queue, n)
  }

  ghost predicate Queued(queue: seq<Item>, n: Node) {
    exists i :: 0 <= i < |queue| && NodeOf(queue[i]) == n
  }

  lemma QueuedPush(queue: seq<Item>, it: Item)
    ensures forall n :: Queued(queue + [it], n) <==> Queued(queue, n) || n == NodeOf(it)
  {
    var q := queue + [it];
    assert q[|queue|] == it;
    forall n | Queued(queue, n) ensures Queued(q, n) {
      var i :| 0 <= i < |queue| && NodeOf(queue[i]) == n;
      assert q[i] == queue[i];
    }
  }

  lemma QueuedPop(queue: seq<Item>)
    requires queue != []
    ensures forall n :: Queued(queue, n) && n != NodeOf(queue[0]) ==> Queued(queue[1..], n)
  {
    forall n | Queued(queue, n) && n != NodeOf(queue[0]) ensures Queued(queue[1..], n) {
      var i :| 0 <= i < |queue| && NodeOf(queue[i]) == n;
      assert queue[1..][i - 1] == queue[i];
    }
  }

  lemma FrontierPush(depth: map<Node, nat>, queue: seq<Item>, c: nat, done: set<Node>, b: Node, d: nat)
    requires Frontier(depth, queue, c) && Pending(depth, queue, done)
    requires b !in depth && c <= d <= c + 1
    requires forall i :: 0 <= i < |queue| ==> queue[i].depth <= d
    ensures Frontier(depth[b := d], queue + [Item(b.index, b.file, d)], c)
    ensures Pending(depth[b := d], queue + [Item(b.index, b.file, d)], done)
  {
    hide Queued;
    QueuedPush(queue, Item(b.index, b.file, d));
  }

  lemma FrontierPop(depth: map<Node, nat>, queue: seq<Item>, done: set<Node>)
    requires queue != [] && Frontier(depth, queue, queue[0].depth) && Pending(depth, queue, done)
    ensures NodeOf(queue[0]) in depth && depth[NodeOf(queue[0])] == queue[0].depth
    ensures Frontier(depth, queue[1..], queue[0].depth)
    ensures Pending(depth, queue[1..], done + {NodeOf(queue[0])})
  {
    hide Queued;
    QueuedPop(queue);
  }

  lemma FrontierQueue(depth: map<Node, nat>, queue: seq<Item>, c: nat)
    requires Frontier(depth, queue, c)
    ensures forall i :: 0 <= i < |queue| ==> c <= queue[i].depth <= c + 1
    ensures forall n :: n in depth ==> depth[n] <= c + 1
  {
  }

  lemma FrontierAdvance(depth: map<Node, nat>, queue: seq<Item>, c: nat)
    requires queue != [] && Frontier(depth, queue, c)
    ensures Frontier(depth, queue, queue[0].depth)
  {
  }

  lemma RecordedKeys(
      imp: Relation, seeds: set<Node>, all: set<Node>, maxDepth: nat, depth: map<Node, nat>,
      visited: set<string>, affected: set<string>)
    requires Recorded(imp, seeds, all, maxDepth, depth, visited, affected)
    ensures visited == Keys(depth.Keys) && depth.Keys <= all
  {
  }

  lemma MetLater(depth0: map<Node, nat>, depth: map<Node, nat>, b: Node, d: nat)
    requires Met(depth0, b, d) && depth0.Keys <= depth.Keys && forall n :: n in depth0 ==> depth[n] == depth0[n]
    ensures Met(depth, b, d)
  {
  }

  // Closing a node: all its importers have been met one level deeper.
  lemma CloseOne(imp: Relation, seeds: set<Node>, maxDepth: nat, depth0: map<Node, nat>, depth: map<Node, nat>,
                 done: set<Node>, a: Node)
    requires a in depth0 && done <= depth0.Keys <= depth.Keys
    requires forall n :: n in depth0 ==> depth[n] == depth0[n]
    requires Closed(imp, seeds, maxDepth, depth0, done)
    requires depth[a] < maxDepth ==> forall b :: Step(imp, seeds, a, b) ==> Met(depth, b, depth[a] + 1)
    ensures Closed(imp, seeds, maxDepth, depth, done + {a})
  {
    hide Step, Met;
    forall c, b | c in done && depth[c] < maxDepth && Step(imp, seeds, c, b)
      ensures Met(depth, b, depth[c] + 1)
    {
      MetLater(depth0, depth, b, depth[c] + 1);
    }
  }

  lemma RecordedSeeds(
      imp: Relation, seeds: set<Node>, all: set<Node>, maxDepth: nat, depth: map<Node, nat>,
      visited: set<string>, affected: set<string>)
    requires Recorded(imp, seeds, all, maxDepth, depth, visited, affected)
    ensures forall n :: n in depth ==> (depth[n] == 0 <==> n in seeds)
    ensures affected == Keys(depth.Keys - seeds)
  {
  }

  lemma CloseWithoutStep(
      imp: Relation, seeds: set<Node>, maxDepth: nat, depth: map<Node, nat>, done: set<Node>, a: Node)
    requires a in depth && done <= depth.Keys && Closed(imp, seeds, maxDepth, depth, done)
    requires depth[a] >= maxDepth || imp(a) == {} || (a !in seeds && |imp(a)| > BARREL_FANIN)
    ensures Closed(imp, seeds, maxDepth, depth, done + {a}) && done + {a} <= depth.Keys
  {
  }

  lemma StepsFrom(imp: Relation, seeds: set<Node>, all: set<Node>, a: Node)
    requires a in seeds || |imp(a)| <= BARREL_FANIN
    requires forall n: Node, f :: f in imp(n) ==> Node(n.index, f) in all
    ensures forall f :: f in imp(a) ==> Step(imp, seeds, a, Node(a.index, f)) && Node(a.index, f) in all
  {
  }

  lemma PendingNone(depth: map<Node, nat>, done: set<Node>)
    requires Pending(depth, [], done) && done <= depth.Keys
    ensures done == depth.Keys
  {
  }

  lemma RecordSeeds(
      imp: Relation, seeds: set<Node>, all: set<Node>, maxDepth: nat, depth: map<Node, nat>, visited: set<string>)
    requires depth.Keys <= seeds <= all && forall s :: s in seeds ==> Met(depth, s, 0)
    requires forall n :: n in depth ==> depth[n] == 0
    requires visited == Keys(depth.Keys)
    ensures Recorded(imp, seeds, all, maxDepth, depth, visited, {})
    ensures Closed(imp, seeds, maxDepth, depth, {})
  {
    hide Key, ReachIn, Met, Step;
    forall n | n in depth ensures ReachIn(imp, seeds, n, 0) {
      SeedReached(imp, seeds, n);
    }
    assert Keys({}) == {};
    assert depth.Keys - seeds == {};
  }

  lemma SeedReached(imp: Relation, seeds: set<Node>, n: Node)
    requires n in seeds
    ensures ReachIn(imp, seeds, n, 0)
  {
    hide Step;
    assert IsPath(imp, seeds, [n]) && [n][0] == n;
  }

  // Meeting an importer for the first time keeps the record sound.
  lemma RecordNew(
      imp: Relation, seeds: set<Node>, all: set<Node>, maxDepth: nat, depth: map<Node, nat>,
      visited: set<string>, affected: set<string>, a: Node, b: Node)
    requires Recorded(imp, seeds, all, maxDepth, depth, visited, affected)
    requires a in depth && depth[a] < maxDepth && Step(imp, seeds, a, b) && b in all
    requires Key(b) !in visited
    ensures b !in depth
    ensures Recorded(imp, seeds, all, maxDepth, depth[b := depth[a] + 1], visited + {Key(b)}, affected + {Key(b)})
  {
    hide Key, Keys, ReachIn, Step, Met;
    NotMet(seeds, depth, b);
    forall s | s in seeds
      ensures Met(depth[b := depth[a] + 1], s, 0)
    {
      MetLater(depth, depth[b := depth[a] + 1], s, 0);
    }
    ReachNext(imp, seeds, a, depth[a], b);
    KeysAdd(depth.Keys, b);
    KeysAdd(depth.Keys - seeds, b);
    assert depth[b := depth[a] + 1].Keys == depth.Keys + {b};
    assert (depth.Keys + {b}) - seeds == (depth.Keys - seeds) + {b};
  }

  lemma NotMet(seeds: set<Node>, depth: map<Node, nat>, b: Node)
    requires Key(b) !in Keys(depth.Keys) && forall s :: s in seeds ==> Met(depth, s, 0)
    ensures b !in depth && b !in seeds
  {
    hide Met;
    MetHeld(depth, b);
  }

  lemma MetHeld(depth: map<Node, nat>, b: Node)
    ensures Met(depth, b, 0) || b in depth ==> Key(b) in Keys(depth.Keys)
  {
    hide Key;
    KeyHeld(depth.Keys, b);
  }

  lemma StepFile(imp: Relation, seeds: set<Node>, a: Node, b: Node)
    requires Step(imp, seeds, a, b)
    ensures b.index == a.index && b.file in imp(a)
  {
  }

  // The importer loop over a dequeued item.
  method FollowImporters(
      ghost imp: Relation, ghost seeds: set<Node>, ghost all: set<Node>,
      maxDepth: nat, cur: Item, importers: seq<string>,
      visited0: set<string>, affected0: set<string>, queue0: seq<Item>,
      ghost depth0: map<Node, nat>, ghost done: set<Node>)
    returns (visited: set<string>, affected: set<string>, queue: seq<Item>, ghost depth: map<Node, nat>)
    requires cur.depth < maxDepth && NodeOf(cur) in depth0 && depth0[NodeOf(cur)] == cur.depth
    requires forall f :: f in importers ==> Step(imp, seeds, NodeOf(cur), Node(cur.index, f))
    requires forall f :: f in importers ==> Node(cur.index, f) in all
    requires forall f :: f in imp(NodeOf(cur)) ==> f in importers
    requires Recorded(imp, seeds, all, maxDepth, depth0, visited0, affected0)
    requires Frontier(depth0, queue0, cur.depth)
    requires done <= depth0.Keys && Pending(depth0, queue0, done + {NodeOf(cur)})
    requires Closed(imp, seeds, maxDepth, depth0, done)
    ensures Recorded(imp, seeds, all, maxDepth, depth, visited, affected)
    ensures Frontier(depth, queue, cur.depth)
    ensures depth0.Keys <= depth.Keys && done + {NodeOf(cur)} <= depth.Keys
    ensures Pending(depth, queue, done + {NodeOf(cur)})
    ensures Closed(imp, seeds, maxDepth, depth, done + {NodeOf(cur)})
    ensures depth.Keys == depth0.Keys ==> queue == queue0
  {
    hide Key, Keys, Step, ReachIn, HoldsDistances, Recorded, Frontier, Pending, Closed, Met;
    FrontierQueue(depth0, queue0, cur.depth);
    visited, affected, queue, depth := visited0, affected0, queue0, depth0;
    for j := 0 to |importers|
      invariant Recorded(imp, seeds, all, maxDepth, depth, visited, affected)
      invariant Frontier(depth, queue, cur.depth)
      invariant Pending(depth, queue, done + {NodeOf(cur)})
      invariant depth0.Keys <= depth.Keys
      invariant forall n :: n in depth0 ==> depth[n] == depth0[n]
      invariant forall t :: 0 <= t < j ==> Met(depth, Node(cur.index, importers[t]), cur.depth + 1)
      invariant depth.Keys == depth0.Keys ==> queue == queue0
    {
      var b := Node(cur.index, importers[j]);
      assert importers[j] in importers;
      var key := Key(b);
      RecordedKeys(imp, seeds, all, maxDepth, depth, visited, affected);
      FrontierQueue(depth, queue, cur.depth);
      MetIff(depth, b, cur.depth + 1);
      ghost var before := depth;
      if key !in visited {
        RecordNew(imp, seeds, all, maxDepth, depth, visited, affected, NodeOf(cur), b);
        FrontierPush(depth, queue, cur.depth, done + {NodeOf(cur)}, b, cur.depth + 1);
        visited := visited + {key};
        affected := affected + {key};
        queue := queue + [Item(b.index, b.file, cur.depth + 1)];
        depth := depth[b := cur.depth + 1];
        MetNow(depth, b);
      }
      forall t | 0 <= t < j
        ensures Met(depth, Node(cur.index, importers[t]), cur.depth + 1)
      {
        MetLater(before, depth, Node(cur.index, importers[t]), cur.depth + 1);
      }
    }
    FrontierQueue(depth, queue, cur.depth);
    forall b | Step(imp, seeds, NodeOf(cur), b)
      ensures Met(depth, b, cur.depth + 1)
    {
      StepFile(imp, seeds, NodeOf(cur), b);
      var t :| 0 <= t < |importers| && importers[t] == b.file;
      assert b == Node(cur.index, importers[t]);
    }
    CloseOne(imp, seeds, maxDepth, depth0, depth, done, NodeOf(cur));
  }

  lemma MetIff(depth: map<Node, nat>, b: Node, d: nat)
    requires forall n :: n in depth ==> depth[n] <= d
    ensures Met(depth, b, d) <==> Key(b) in Keys(depth.Keys)
  {
    hide Key;
    KeyHeld(depth.Keys, b);
  }

  lemma MetNow(depth: map<Node, nat>, b: Node)
    requires b in depth
    ensures Met(depth, b, depth[b])
  {
  }

  // Once nothing is pending, every node within reach has been met at its distance.
  lemma {:induction false} MetWithin(
      imp: Relation, seeds: set<Node>, maxDepth: nat, depth: map<Node, nat>, n: Node, k: nat)
    requires Distinguished(imp, seeds, maxDepth) && forall s :: s in seeds ==> Met(depth, s, 0)
    requires forall m :: m in depth ==> Within(imp, seeds, maxDepth, m)
    requires Closed(imp, seeds, maxDepth, depth, depth.Keys)
    requires k <= maxDepth && ReachIn(imp, seeds, n, k)
    ensures n in depth && depth[n] <= k
    decreases k
  {
    hide Key, Step, ReachIn, Distinguished;
    assert Within(imp, seeds, maxDepth, n);
    if k == 0 {
      ReachedAtOnce(imp, seeds, n);
    } else {
      var a := ReachPrevious(imp, seeds, n, k);
      MetWithin(imp, seeds, maxDepth, depth, a, k - 1);
    }
    MetItself(imp, seeds, maxDepth, depth, n, k);
  }

  lemma ReachedAtOnce(imp: Relation, seeds: set<Node>, n: Node)
    requires ReachIn(imp, seeds, n, 0)
    ensures n in seeds
  {
  }

  // What has been met under the key of a node in reach is that node.
  lemma MetItself(imp: Relation, seeds: set<Node>, maxDepth: nat, depth: map<Node, nat>, n: Node, d: nat)
    requires Distinguished(imp, seeds, maxDepth) && Within(imp, seeds, maxDepth, n)
    requires forall m :: m in depth ==> Within(imp, seeds, maxDepth, m)
    ensures (exists k: nat :: k <= d && Met(depth, n, k)) ==> n in depth && depth[n] <= d
  {
    hide Key, Within;
    if k: nat :| k <= d && Met(depth, n, k) {
      var m :| m in depth && Key(m) == Key(n) && depth[m] <= k;
    }
  }

  // What the finished walk has recorded are exactly the distances up to maxDepth.
  lemma RecordedAreDistances(
      imp: Relation, seeds: set<Node>, all: set<Node>, maxDepth: nat, depth: map<Node, nat>,
      visited: set<string>, affected: set<string>)
    requires Recorded(imp, seeds, all, maxDepth, depth, visited, affected)
    requires Closed(imp, seeds, maxDepth, depth, depth.Keys) && Distinguished(imp, seeds, maxDepth)
    ensures HoldsDistances(depth, imp, seeds, maxDepth)
  {
    hide Keys, Step, ReachIn, Met, Distinguished;
    forall n, k: nat | k <= maxDepth && ReachIn(imp, seeds, n, k)
      ensures n in depth && depth[n] <= k
    {
      MetWithin(imp, seeds, maxDepth, depth, n, k);
    }
  }

  ghost function SeedSet(seedFiles: seq<Node>): set<Node> {
    set n | n in seedFiles
  }

  lemma SeedNone()
    ensures SeedSet([]) == {} && Keys({}) == {}
    ensures Pending(map[], [], {}) && Frontier(map[], [], 0)
  {
    assert Keys({}) == {};
  }

  lemma SeedOne(seedFiles: seq<Node>, i: nat)
    requires i < |seedFiles|
    ensures SeedSet(seedFiles[..i + 1]) == SeedSet(seedFiles[..i]) + {seedFiles[i]}
  {
    assert seedFiles[..i + 1] == seedFiles[..i] + [seedFiles[i]];
  }

  // The seed loop: every seed is queued at depth 0, unless one with its key was.
  method Seed(seedFiles: seq<Node>) returns (visited: set<string>, queue: seq<Item>, ghost depth: map<Node, nat>)
    ensures depth.Keys <= SeedSet(seedFiles) && forall s :: s in SeedSet(seedFiles) ==> Met(depth, s, 0)
    ensures forall n :: n in depth ==> depth[n] == 0
    ensures visited == Keys(depth.Keys)
    ensures Pending(depth, queue, {}) && Frontier(depth, queue, 0)
  {
    hide Key, Keys, SeedSet, Pending, Frontier, Met;
    SeedNone();
    visited, queue, depth := {}, [], map[];
    assert depth.Keys == {};
    for i := 0 to |seedFiles|
      invariant depth.Keys <= SeedSet(seedFiles[..i])
      invariant forall s :: s in SeedSet(seedFiles[..i]) ==> Met(depth, s, 0)
      invariant forall n :: n in depth ==> depth[n] == 0
      invariant visited == Keys(depth.Keys)
      invariant Pending(depth, queue, {}) && Frontier(depth, queue, 0)
      invariant forall j :: 0 <= j < |queue| ==> queue[j].depth == 0
    {
      var s := seedFiles[i];
      SeedOne(seedFiles, i);
      var key := Key(s);
      MetIff(depth, s, 0);
      ghost var before := depth;
      if key !in visited {
        NotMet({}, depth, s);
        KeysAdd(depth.Keys, s);
        FrontierPush(depth, queue, 0, {}, s, 0);
        visited := visited + {key};
        queue := queue + [Item(s.index, s.file, 0)];
        depth := depth[s := 0];
        assert depth.Keys == before.Keys + {s};
        MetNow(depth, s);
      }
      forall t | t in SeedSet(seedFiles[..i])
        ensures Met(depth, t, 0)
      {
        MetLater(before, depth, t, 0);
      }
    }
    assert seedFiles[..|seedFiles|] == seedFiles;
  }

  // A queue step of the walk asks one graph; an unknown index has no importers.
  method Ask(gs: Graphs, n: Node) returns (importers: seq<string>)
    requires n.index in gs
    ensures forall f :: f in importers <==> f in RelationOf(gs)(n)
    ensures |importers| == |RelationOf(gs)(n)|
  {
    importers := ImportedBy(gs[n.index], n.file);
  }

  function AllNodes(gs: Graphs, seeds: set<Node>): set<Node> {
    seeds + set ix, f | ix in gs && f in gs[ix] :: Node(ix, f)
  }

  lemma ImportersAreNodes(gs: Graphs, seeds: set<Node>)
    ensures forall n: Node, f :: f in RelationOf(gs)(n) ==> Node(n.index, f) in AllNodes(gs, seeds)
    ensures forall n: Node :: n.index !in gs ==> RelationOf(gs)(n) == {}
    ensures seeds <= AllNodes(gs, seeds)
  {
  }

  // The walk of `affected`: breadth first from the seeds along importers, not through hubs,
  // no deeper than maxDepth.  Whatever the names, each key reported is that of a node reached;
  // if keys tell the nodes in reach apart, the report is exact.
  method Walk(gs: Graphs, seedFiles: seq<Node>, maxDepth: nat)
    returns (affected: set<string>, ghost depth: map<Node, nat>)
    ensures forall key :: key in affected ==>
              exists n: Node :: Key(n) == key && n !in SeedSet(seedFiles) &&
                                Within(RelationOf(gs), SeedSet(seedFiles), maxDepth, n)
    ensures Distinguished(RelationOf(gs), SeedSet(seedFiles), maxDepth) ==>
              && affected == Dependents(depth)
              && HoldsDistances(depth, RelationOf(gs), SeedSet(seedFiles), maxDepth)
              && Reports(affected, RelationOf(gs), SeedSet(seedFiles), maxDepth)
  {
    hide Reports;
    hide Key, SeedSet, AllNodes, RelationOf, Dependents, Distinguished, Within, Met;
    hide Keys, Step, ReachIn, HoldsDistances, Recorded, Frontier, Pending, Closed;
    ghost var seeds := SeedSet(seedFiles);
    ghost var imp := RelationOf(gs);
    ghost var all := AllNodes(gs, seeds);
    ImportersAreNodes(gs, seeds);
    var visited, queue;
    visited, queue, depth := Seed(seedFiles);
    affected := {};
    RecordSeeds(imp, seeds, all, maxDepth, depth, visited);
    if queue != [] {
      FrontierAdvance(depth, queue, 0);
    }
    ghost var done: set<Node> := {};
    while queue != []
      invariant Recorded(imp, seeds, all, maxDepth, depth, visited, affected)
      invariant queue != [] ==> Frontier(depth, queue, queue[0].depth)
      invariant done <= depth.Keys
      invariant Pending(depth, queue, done)
      invariant Closed(imp, seeds, maxDepth, depth, done)
      decreases |all - depth.Keys|, |queue|
    {
      var cur := queue[0];
      FrontierPop(depth, queue, done);
      queue := queue[1..];
      ghost var depth0 := depth;
      if cur.depth < maxDepth && cur.index in gs {
        var importers := Ask(gs, NodeOf(cur));
        if cur.depth > 0 && |importers| > BARREL_FANIN {
          RecordedSeeds(imp, seeds, all, maxDepth, depth, visited, affected);
          CloseWithoutStep(imp, seeds, maxDepth, depth, done, NodeOf(cur));
        } else {
          RecordedSeeds(imp, seeds, all, maxDepth, depth, visited, affected);
          StepsFrom(imp, seeds, all, NodeOf(cur));
          visited, affected, queue, depth := FollowImporters(
            imp, seeds, all, maxDepth, cur, importers, visited, affected, queue, depth, done);
        }
      } else {
        CloseWithoutStep(imp, seeds, maxDepth, depth, done, NodeOf(cur));
      }
      RecordedKeys(imp, seeds, all, maxDepth, depth, visited, affected);
      if queue != [] {
        FrontierAdvance(depth, queue, cur.depth);
      }
      done := done + {NodeOf(cur)};
      Shrinks(all, depth0.Keys, depth.Keys);
    }
    RecordedSeeds(imp, seeds, all, maxDepth, depth, visited, affected);
    PendingNone(depth, done);
    RecordedKeys(imp, seeds, all, maxDepth, depth, visited, affected);
    ReportedReached(imp, seeds, all, maxDepth, depth, visited, affected);
    AffectedKeys(seeds, depth);
    if Distinguished(imp, seeds, maxDepth) {
      RecordedAreDistances(imp, seeds, all, maxDepth, depth, visited, affected);
      ReportIs(imp, seeds, depth, maxDepth);
    }
  }

  // The keys reported are exactly those of the proper dependents.
  ghost predicate Reports(affected: set<string>, imp: Relation, seeds: set<Node>, maxDepth: nat) {
    forall key :: key in affected <==> exists n: Node :: Key(n) == key && Dependent(imp, seeds, maxDepth, n)
  }

  lemma ReportedReached(
      imp: Relation, seeds: set<Node>, all: set<Node>, maxDepth: nat, depth: map<Node, nat>,
      visited: set<string>, affected: set<string>)
    requires Recorded(imp, seeds, all, maxDepth, depth, visited, affected)
    ensures forall key :: key in affected ==>
              exists n: Node :: Key(n) == key && n !in seeds && Within(imp, seeds, maxDepth, n)
  {
    hide Key, ReachIn, Met;
    forall n | n in depth
      ensures Within(imp, seeds, maxDepth, n)
    {
      assert ReachIn(imp, seeds, n, depth[n]);
    }
  }

  lemma ReportIs(imp: Relation, seeds: set<Node>, depth: map<Node, nat>, maxDepth: nat)
    requires HoldsDistances(depth, imp, seeds, maxDepth)
    ensures Reports(Dependents(depth), imp, seeds, maxDepth)
  {
    hide Key, Distance;
    forall n: Node
      ensures n in depth && depth[n] >= 1 <==> Dependent(imp, seeds, maxDepth, n)
    {
      if n in depth && depth[n] >= 1 {
        assert depth[n] <= maxDepth && Distance(imp, seeds, n, depth[n]);
      }
      if k: nat :| 1 <= k <= maxDepth && Distance(imp, seeds, n, k) {
        assert n in depth && depth[n] == k;
      }
    }
  }

  lemma AffectedKeys(seeds: set<Node>, depth: map<Node, nat>)
    requires forall n :: n in depth ==> (depth[n] == 0 <==> n in seeds)
    ensures Keys(depth.Keys - seeds) == Dependents(depth)
  {
    hide Key;
  }

  lemma Shrinks<T>(all: set<T>, a: set<T>, b: set<T>)
    requires a <= b <= all
    ensures a != b ==> |all - b| < |all - a|
  {
    if a != b {
      assert all - a == (all - b) + (b - a);
    }
  }
}
