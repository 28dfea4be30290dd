// What one run leaves, said of the entries and facts themselves: of which piece, note or
// extracted fact each is, and when it is made anew.

module RunLaws {
  import opened Half
  import opened Data
  import opened Grouping
  import opened Filters
  import opened Indexing
  import opened Incremental
  import opened ImportGraphs
  import opened CallGraphs
  import Rebuild

  // Are the entries of a path, if any, of another hash than this one?
  ghost predicate Outdated(es: seq<Entry>, proto: Proto, path: string, hash: nat) {
    var own := Filter(EntriesOf(proto, path), es);
    own == [] || own[|own| - 1].meta.hash != hash
  }

  // The chunks of a file as its chunker gives them; an empty file has none.
  ghost function ChunksOf(x: Extract, p: string, v: FileV): seq<Piece> {
    if v.content == "" then [] else x.chunks(p, v.content)
  }

  // The entry of each of the first n pieces, in order, without those whose embedding is empty.
  ghost function PieceEntries(x: Extract, p: string, hash: nat, ps: seq<Piece>, glossary: map<string, string>, n: nat)
    : seq<Entry>
    requires n <= |ps|
  {
    if n == 0 then []
    else
      var c, vec := ps[n - 1], x.embed(x.text(p, ps, n - 1, glossary));
      PieceEntries(x, p, hash, ps, glossary, n - 1) +
      if vec == [] then [] else [Entry(Meta(Doc, p, c.heading, c.line, c.endLine, hash), vec)]
  }

  lemma {:induction false} PiecesEmbedded(
      x: Extract, p: string, v: FileV, glossary: map<string, string>, n: nat)
    requires n <= |ChunksOf(x, p, v)|
    ensures Embedded(x, AsPending(Doc, FileChunks(x, p, v, glossary)[..n])) ==
            PieceEntries(x, p, v.hash, ChunksOf(x, p, v), glossary, n)
  {
    var pending := AsPending(Doc, FileChunks(x, p, v, glossary)[..n]);
    if n > 0 {
      PiecesEmbedded(x, p, v, glossary, n - 1);
      assert pending[..n - 1] == AsPending(Doc, FileChunks(x, p, v, glossary)[..n - 1]);
    }
  }

  // After a run, forced or not, the entries of a file are those of its pieces, each with its
  // own heading, lines and embedding, if the file is new or of another hash, or the run is
  // forced, and it has a piece; otherwise those it had, or none if it is gone.
  lemma FileEntriesAre(x: Extract, tree: Tree, r: Orders, force: bool, es: seq<Entry>,
                       mem: map<string, MemEntry>, glossary: map<string, string>, p: string)
    requires Enumerates(r.files, tree.Keys)
    ensures Filter(EntriesOf(Doc, p), NewEntries(x, tree, r, force, es, mem, glossary)) ==
            if p !in tree then []
            else
              var v, ps := tree[p], ChunksOf(x, p, tree[p]);
              if (force || Outdated(es, Doc, p, v.hash)) && ps != []
              then PieceEntries(x, p, v.hash, ps, glossary, |ps|)
              else Filter(EntriesOf(Doc, p), es)
  {
    hide NewEntries, Filter, Embedded, FileChunks, AsPending, LastHashes, PieceEntries;
    FileAfterRun(x, tree, r, force, es, mem, glossary, p);
    LastHashIs(es, Doc, p);
    if p in tree {
      var ps := ChunksOf(x, p, tree[p]);
      PiecesEmbedded(x, p, tree[p], glossary, |ps|);
      var chunks := FileChunks(x, p, tree[p], glossary);
      assert chunks[..|ps|] == chunks;
    }
  }

  // After a run the entries of a note are the one made of what is stored under its topic, if
  // it is new or its time of writing another, or the run is forced: none if the embedding is
  // empty.  Otherwise they are those it had, or none if the note is gone.
  lemma NoteEntriesAre(x: Extract, tree: Tree, r: Orders, force: bool, es: seq<Entry>,
                       mem: map<string, MemEntry>, glossary: map<string, string>, topic: string)
    requires Enumerates(r.topics, mem.Keys)
    ensures Filter(EntriesOf(Note, topic), NewEntries(x, tree, r, force, es, mem, glossary)) ==
            if topic !in mem then []
            else
              var hash := mem[topic].timestamp % 0x1_0000_0000_0000_0000;
              var vec := x.embed(topic + ". " + mem[topic].content);
              if !(force || Outdated(es, Note, topic, hash)) then Filter(EntriesOf(Note, topic), es)
              else if vec == [] then []
              else [Entry(Meta(Note, topic, topic, 0, 0, hash), vec)]
  {
    hide NewEntries, Filter, LastHashes;
    NoteAfterRun(x, tree, r, force, es, mem, glossary, topic);
    LastHashIs(es, Note, topic);
  }

  // The files whose facts a run extracts again.
  ghost predicate ReadAgain(x: Extract, tree: Tree, force: bool, es: seq<Entry>, p: string) {
    p in tree && (force || Outdated(es, Doc, p, tree[p].hash)) && ChunksOf(x, p, tree[p]) != []
  }

  lemma ChangedAre(x: Extract, tree: Tree, force: bool, es: seq<Entry>, p: string)
    ensures p in ChangedBy(x, tree, force, es) <==> ReadAgain(x, tree, force, es, p)
  {
    hide Filter, LastHashes;
    LastHashIs(es, Doc, p);
  }

  // What is extracted from a file read again is in the data stored, each call, import, metric,
  // export and type as extracted, under this file.
  lemma CodeFactsAre(x: Extract, tree: Tree, r: Orders, force: bool, es: seq<Entry>, l: IndexData, data: IndexData,
      p: string)
    requires Assembles(x, tree, r, force, es, l, data) && ReadAgain(x, tree, force, es, p)
    ensures var calls, found := Filter(CallsIn(p), data.calls), x.calls(p, tree[p].content);
            if !x.grammar(p) then calls == []
            else
              && |calls| == |found|
              && forall i :: 0 <= i < |calls| ==>
                   calls[i].caller == found[i].0 && calls[i].callee == found[i].1 &&
                   calls[i].file == p && calls[i].line == found[i].2
    ensures var metrics, found := Filter(MetricsIn(p), data.metrics), x.metrics(p, tree[p].content);
            if !x.grammar(p) then metrics == []
            else |metrics| == |found| && forall i :: 0 <= i < |metrics| ==> metrics[i] == found[i].(file := p)
    ensures At(data.imports, p) == if x.grammar(p) then x.imports(p, tree[p].content) else []
    ensures At(data.exports, p) == if x.grammar(p) then x.exports(p, tree[p].content) else []
  {
    hide Assembles, Filter, ChangedBy, Outdated;
    ChangedAre(x, tree, force, es, p);
    FactsAfterRun(x, tree, r, force, es, l, data, p);
    assert tree[p].content != "";
  }

  // The links of a file read again that lead somewhere, in order.
  lemma LinksAre(x: Extract, tree: Tree, r: Orders, force: bool, es: seq<Entry>, l: IndexData, data: IndexData,
      p: string)
    requires Assembles(x, tree, r, force, es, l, data) && ReadAgain(x, tree, force, es, p)
    ensures At(data.docrefs, p) ==
            if x.markdown(p) then Leading(x, p, x.links(tree[p].content), tree.Keys) else []
  {
    hide Assembles, Filter, ChangedBy, Outdated, Leading, ResolvedLinks;
    ChangedAre(x, tree, force, es, p);
    FactsAfterRun(x, tree, r, force, es, l, data, p);
    assert tree[p].content != "";
    LeadingResolved(x, p, x.links(tree[p].content), tree.Keys);
  }

  // From the first link on.
  ghost function Leading(x: Extract, p: string, links: seq<Link>, scanned: set<string>): seq<DocRef> {
    if links == [] then []
    else
      match x.resolve(p, links[0], scanned)
      case Dropped => Leading(x, p, links[1..], scanned)
      case To(ref) => [ref] + Leading(x, p, links[1..], scanned)
  }

  lemma {:induction false} LeadingAppend(x: Extract, p: string, a: seq<Link>, b: seq<Link>, scanned: set<string>)
    ensures Leading(x, p, a + b, scanned) == Leading(x, p, a, scanned) + Leading(x, p, b, scanned)
  {
    if a == [] {
      assert a + b == b;
    } else {
      LeadingAppend(x, p, a[1..], b, scanned);
      assert (a + b)[1..] == a[1..] + b;
    }
  }

  lemma {:induction false} LeadingResolved(x: Extract, p: string, links: seq<Link>, scanned: set<string>)
    ensures ResolvedLinks(x, p, links, scanned) == Leading(x, p, links, scanned)
  {
    if links != [] {
      var n := |links| - 1;
      LeadingResolved(x, p, links[..n], scanned);
      LeadingAppend(x, p, links[..n], [links[n]], scanned);
      assert links[..n] + [links[n]] == links;
      assert [links[n]][1..] == [];
    }
  }

  ghost predicate TypesAre(types: seq<TypeEdge>, found: seq<(string, string, string, nat)>, p: string) {
    && |types| == |found|
    && forall i :: 0 <= i < |types| ==>
         types[i].name == found[i].0 && types[i].parent == found[i].1 && types[i].kind == found[i].2 &&
         types[i].file == p && types[i].line == found[i].3
  }

  lemma TypeFactsAre(x: Extract, tree: Tree, p: string)
    requires p in tree && tree[p].content != ""
    ensures TypesAre(TypeFacts(x, tree)(p), if x.grammar(p) then x.types(p, tree[p].content) else [], p)
  {
    if x.grammar(p) {
      var found := x.types(p, tree[p].content);
      assert TypeFacts(x, tree)(p) == Mapped(TypeAt(p), found);
      forall i | 0 <= i < |found| ensures Mapped(TypeAt(p), found)[i] == TypeAt(p)(found[i]) {
      }
    } else {
      assert !Parsed(x, tree, p);
    }
  }

  // And the type edges in the database of a file read again are those extracted.
  lemma StoredTypesAre(x: Extract, run: Run, force: bool, s: State, s': State, p: string)
    requires Does(x, run, force, s, s') && ReadAgain(x, run.tree, force, s.entries, p)
    ensures TypesAre(Filter(Rebuild.TypesIn(p), Canonical(s'.t).types),
        if x.grammar(p) then x.types(p, run.tree[p].content) else [], p)
  {
    hide Does, Filter, ChangedBy, Outdated, Canonical, TypesAre;
    ChangedAre(x, run.tree, force, s.entries, p);
    assert run.tree[p].content != "";
    Rebuild.OnlyChangedFilesTyped(x, run, force, s, s', p);
    TypeFactsAre(x, run.tree, p);
  }
}
