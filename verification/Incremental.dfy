// Incremental indexing against a rebuild, over whole histories of a file tree.

module Incremental {
  import opened Half
  import opened Data
  import opened Grouping
  import opened Filters
  import opened Indexing
  import opened ImportGraphs
  import opened CallGraphs
  import Tables
  import Backend
  import RoundTrip

  // An instance of the foreign code: one chunk, one call and one export a file, the same
  // embedding for every text, and nothing else extracted.
  function Plain(vec: seq<word32>): Extract {
    Extract(
      (p: string, content: string) => [Piece("", 1, 1, content)],
      (p: string, pieces: seq<Piece>, i: nat, g: map<string, string>) => "",
      (text: string) => vec,
      (p: string) => true,
      (p: string, content: string) => [("f", "g", 1)],
      (p: string, content: string) => [],
      (p: string, content: string) => [],
      (p: string, content: string) => ["f"],
      (p: string, content: string) => [],
      (p: string) => false,
      (content: string) => [],
      (p: string, l: Link, valid: set<string>) => Dropped)
  }

  // A version of a file as one run read it, with the glossary and the scanned paths of that run.
  datatype Version = Version(v: FileV, glossary: map<string, string>, valid: set<string>)

  // What the entries of a file were made from: a version read, or an embedding of the whole
  // file added by a client.
  datatype Rec = Read(version: Version) | Added(vec: seq<word32>)

  predicate Chunky(x: Extract, p: string, v: FileV) {
    Pieces(x, p, v) != []
  }

  // ---- the entries of a file ----

  ghost function EntriesOf(proto: Proto, p: string): Entry -> bool {
    (e: Entry) => e.meta.proto == proto && e.meta.path == p
  }

  ghost function FileEntries(x: Extract, p: string, r: Rec): seq<Entry> {
    match r
    case Read(ver) => Embedded(x, AsPending(Doc, FileChunks(x, p, ver.v, ver.glossary)))
    case Added(vec) => [Entry(Meta(Doc, p, p, 1, 0, 0), vec)]
  }

  ghost predicate HoldsEntries(x: Extract, led: map<string, Rec>, es: seq<Entry>) {
    forall p: string :: Filter(EntriesOf(Doc, p), es) == if p in led then FileEntries(x, p, led[p]) else []
  }

  ghost function RecHash(r: Rec): nat {
    match r
    case Read(ver) => ver.v.hash
    case Added(_) => 0
  }

  // The hashes a run knows: those of the files that have an entry.
  ghost function KnownHashes(x: Extract, led: map<string, Rec>): map<string, nat> {
    map p | p in led && FileEntries(x, p, led[p]) != [] :: RecHash(led[p])
  }

  ghost function UpdatedRecs(led: map<string, Rec>, changed: set<string>, tree: Tree, glossary: map<string, string>)
    : map<string, Rec>
  {
    map p | p in tree && (p in changed || p in led) ::
      if p in changed then Read(Version(tree[p], glossary, tree.Keys)) else led[p]
  }

  // The embedding model never fails.
  ghost predicate Total(x: Extract) {
    forall s: string :: x.embed(s) != []
  }

  lemma {:induction false} EmbeddedAll(x: Extract, ps: seq<Pending>)
    requires Total(x)
    ensures |Embedded(x, ps)| == |ps|
    ensures forall i :: 0 <= i < |ps| ==> Embedded(x, ps)[i] == EntryFor(x, ps[i])
  {
    if ps != [] {
      EmbeddedAll(x, ps[..|ps| - 1]);
    }
  }

  lemma {:induction false} EmbeddedAppend(x: Extract, a: seq<Pending>, b: seq<Pending>)
    ensures Embedded(x, a + b) == Embedded(x, a) + Embedded(x, b)
  {
    hide EntryFor;
    if b == [] {
      assert a + b == a;
    } else {
      var n := |b| - 1;
      assert (a + b)[..|a + b| - 1] == a + b[..n];
      EmbeddedAppend(x, a, b[..n]);
    }
  }

  lemma {:induction false} EmbeddedIn(x: Extract, ps: seq<Pending>, e: Entry)
    requires e in Embedded(x, ps)
    ensures exists i :: 0 <= i < |ps| && e == EntryFor(x, ps[i])
  {
    hide EntryFor;
    var n := |ps| - 1;
    if e in Embedded(x, ps[..n]) {
      EmbeddedIn(x, ps[..n], e);
      var i :| 0 <= i < n && e == EntryFor(x, ps[..n][i]);
      assert e == EntryFor(x, ps[i]);
    } else {
      assert e == EntryFor(x, ps[n]);
    }
  }

  ghost function EmbeddedFrom(x: Extract, proto: Proto, f: string -> seq<Scanned>): string -> seq<Entry> {
    (k: string) => Embedded(x, AsPending(proto, f(k)))
  }

  lemma {:induction false} EmbeddedConcat(x: Extract, proto: Proto, f: string -> seq<Scanned>, keys: seq<string>)
    ensures Embedded(x, AsPending(proto, Concat(f, keys))) == Concat(EmbeddedFrom(x, proto, f), keys)
  {
    hide Embedded;
    if keys == [] {
      EmbeddedNone(x);
      assert AsPending(proto, Concat(f, keys)) == [];
    } else {
      var n := |keys| - 1;
      EmbeddedConcat(x, proto, f, keys[..n]);
      var a, b := Concat(f, keys[..n]), f(keys[n]);
      assert AsPending(proto, a + b) == AsPending(proto, a) + AsPending(proto, b);
      EmbeddedAppend(x, AsPending(proto, a), AsPending(proto, b));
    }
  }

  lemma EmbeddedNone(x: Extract)
    ensures Embedded(x, []) == []
  {
  }

  // The hash a path is known by is that of its last entry.
  lemma {:induction false} LastHashIs(es: seq<Entry>, proto: Proto, p: string)
    ensures var own := Filter(EntriesOf(proto, p), es);
            && (p in LastHashes(es, proto) <==> own != [])
            && (own != [] ==> LastHashes(es, proto)[p] == own[|own| - 1].meta.hash)
  {
    if es != [] {
      LastHashIs(es[..|es| - 1], proto, p);
    }
  }

  // A file's own embedded chunks are its share of all that were embedded.
  lemma ShareOf(x: Extract, proto: Proto, f: string -> seq<Scanned>, keys: seq<string>, p: string)
    requires forall i, j :: 0 <= i < j < |keys| ==> keys[i] != keys[j]
    requires forall k, c :: k in keys && c in f(k) ==> c.key == k
    ensures Filter(EntriesOf(proto, p), Embedded(x, AsPending(proto, Concat(f, keys)))) ==
            if p in keys then Embedded(x, AsPending(proto, f(p))) else []
  {
    hide Embedded, Filter, Concat;
    EmbeddedConcat(x, proto, f, keys);
    var g := EmbeddedFrom(x, proto, f);
    forall k, e | k in keys && e in g(k) ensures EntriesOf(proto, p)(e) <==> k == p {
      EmbeddedIn(x, AsPending(proto, f(k)), e);
    }
    FilterConcat(g, EntriesOf(proto, p), p, keys);
  }

  lemma NoShare(x: Extract, proto: Proto, other: Proto, chunks: seq<Scanned>, p: string)
    requires proto != other
    ensures Filter(EntriesOf(proto, p), Embedded(x, AsPending(other, chunks))) == []
  {
    hide Embedded, Filter;
    forall e | e in Embedded(x, AsPending(other, chunks)) ensures !EntriesOf(proto, p)(e) {
      EmbeddedIn(x, AsPending(other, chunks), e);
    }
    FilterNone(EntriesOf(proto, p), Embedded(x, AsPending(other, chunks)));
  }

  // What a run leaves of one file's entries.
  lemma FileAfterRun(x: Extract, tree: Tree, r: Orders, force: bool, es: seq<Entry>,
                     mem: map<string, MemEntry>, glossary: map<string, string>, p: string)
    requires Enumerates(r.files, tree.Keys)
    ensures var changed := ChangedBy(x, tree, force, es);
            Filter(EntriesOf(Doc, p), NewEntries(x, tree, r, force, es, mem, glossary)) ==
            if p in changed then Embedded(x, AsPending(Doc, FileChunks(x, p, tree[p], glossary)))
            else if p in tree then Filter(EntriesOf(Doc, p), es) else []
  {
    hide Embedded, Filter, Concat, FileChunks, Rescans, AsPending, NoteRescans;
    var hashes, noteHashes := LastHashes(es, Doc), LastHashes(es, Note);
    var changed, again := ChangedFiles(x, tree, force, hashes), ChangedNotes(mem, force, noteHashes);
    var mine := EntriesOf(Doc, p);
    var f := ScanOf(x, tree, force, hashes, glossary);
    var notes := Concat(NoteScanOf(mem, force, noteHashes), r.topics);
    var docs := Filter(KeepsDoc(changed, tree.Keys), es);
    var kept := Filter(KeepsNote(again, mem.Keys), es);
    var newDocs, newNotes := Embedded(x, AsPending(Doc, Concat(f, r.files))), Embedded(x, AsPending(Note, notes));
    EmbeddedAppend(x, AsPending(Doc, Concat(f, r.files)), AsPending(Note, notes));
    assert NewEntries(x, tree, r, force, es, mem, glossary) == docs + kept + (newDocs + newNotes);
    FilterAppend(mine, docs + kept, newDocs + newNotes);
    FilterAppend(mine, docs, kept);
    FilterAppend(mine, newDocs, newNotes);
    FilterApart(mine, KeepsNote(again, mem.Keys), es);
    NoShare(x, Doc, Note, notes, p);
    ShareOf(x, Doc, f, r.files, p);
    KeptShare(x, tree, force, hashes, changed, es, p);
    FreshShare(x, tree, force, hashes, glossary, p);
  }

  lemma KeptShare(x: Extract, tree: Tree, force: bool, hashes: map<string, nat>, changed: set<string>,
      es: seq<Entry>, p: string)
    ensures Filter(EntriesOf(Doc, p), Filter(KeepsDoc(changed, tree.Keys), es)) ==
            if p !in changed && p in tree then Filter(EntriesOf(Doc, p), es) else []
  {
    hide Filter;
    if p !in changed && p in tree {
      FilterInner(EntriesOf(Doc, p), KeepsDoc(changed, tree.Keys), es);
    } else {
      FilterApart(EntriesOf(Doc, p), KeepsDoc(changed, tree.Keys), es);
    }
  }

  lemma FreshShare(x: Extract, tree: Tree, force: bool, hashes: map<string, nat>,
      glossary: map<string, string>, p: string)
    ensures var f := ScanOf(x, tree, force, hashes, glossary);
            Embedded(x, AsPending(Doc, f(p))) ==
            if p in ChangedFiles(x, tree, force, hashes)
                then Embedded(x, AsPending(Doc, FileChunks(x, p, tree[p], glossary))) else []
  {
    hide Rescans, Pieces;
    EmbeddedNone(x);
    var f := ScanOf(x, tree, force, hashes, glossary);
    if p !in ChangedFiles(x, tree, force, hashes) {
      assert f(p) == [];
      assert AsPending(Doc, f(p)) == [];
    }
  }

  // The embedding of this note comes back empty.
  ghost predicate NoteFails(x: Extract, t: string, e: MemEntry) {
    x.embed(NoteChunk(t, e).text) == []
  }

  // What a run leaves of one note's entries: none if the note is gone; if it was embedded
  // again, a single new one, or none where the embedding failed; otherwise those it had.
  lemma NoteAfterRun(x: Extract, tree: Tree, r: Orders, force: bool, es: seq<Entry>,
                     mem: map<string, MemEntry>, glossary: map<string, string>, t: string)
    requires Enumerates(r.topics, mem.Keys)
    ensures var own := Filter(EntriesOf(Note, t), es);
            var left := Filter(EntriesOf(Note, t), NewEntries(x, tree, r, force, es, mem, glossary));
            if t !in mem then left == []
            else if NoteRescans(t, mem[t], force, LastHashes(es, Note))
            then left == if NoteFails(x, t, mem[t]) then [] else [EntryFor(x, Pending(Note, NoteChunk(t, mem[t])))]
            else left == own && own != []
  {
    hide Embedded, Filter, Concat, FileChunks, Rescans, AsPending, NoteRescans, EntryFor, LastHashes, NoteFails;
    var hashes, noteHashes := LastHashes(es, Doc), LastHashes(es, Note);
    var changed, again := ChangedFiles(x, tree, force, hashes), ChangedNotes(mem, force, noteHashes);
    var mine := EntriesOf(Note, t);
    var f := NoteScanOf(mem, force, noteHashes);
    var files := Concat(ScanOf(x, tree, force, hashes, glossary), r.files);
    var docs := Filter(KeepsDoc(changed, tree.Keys), es);
    var kept := Filter(KeepsNote(again, mem.Keys), es);
    var newDocs, newNotes := Embedded(x, AsPending(Doc, files)), Embedded(x, AsPending(Note, Concat(f, r.topics)));
    EmbeddedAppend(x, AsPending(Doc, files), AsPending(Note, Concat(f, r.topics)));
    assert NewEntries(x, tree, r, force, es, mem, glossary) == docs + kept + (newDocs + newNotes);
    FilterAppend(mine, docs + kept, newDocs + newNotes);
    FilterAppend(mine, docs, kept);
    FilterAppend(mine, newDocs, newNotes);
    FilterApart(mine, KeepsDoc(changed, tree.Keys), es);
    NoShare(x, Note, Doc, files, t);
    ShareOf(x, Note, f, r.topics, t);
    KeptNoteShare(again, mem.Keys, es, t);
    LastHashIs(es, Note, t);
    NewNoteShare(x, mem, force, noteHashes, t);
    HashKnown(mem, force, noteHashes, t);
  }

  lemma HashKnown(mem: map<string, MemEntry>, force: bool, hashes: map<string, nat>, t: string)
    ensures t in mem && !NoteRescans(t, mem[t], force, hashes) ==> t in hashes
  {
  }

  lemma KeptNoteShare(again: set<string>, mem: set<string>, es: seq<Entry>, t: string)
    ensures Filter(EntriesOf(Note, t), Filter(KeepsNote(again, mem), es)) ==
            if t !in again && t in mem then Filter(EntriesOf(Note, t), es) else []
  {
    hide Filter;
    if t !in again && t in mem {
      FilterInner(EntriesOf(Note, t), KeepsNote(again, mem), es);
    } else {
      FilterApart(EntriesOf(Note, t), KeepsNote(again, mem), es);
    }
  }

  lemma NewNoteShare(x: Extract, mem: map<string, MemEntry>, force: bool, hashes: map<string, nat>, t: string)
    ensures Embedded(x, AsPending(Note, NoteScanOf(mem, force, hashes)(t))) ==
            if t in ChangedNotes(mem, force, hashes) && !NoteFails(x, t, mem[t])
            then [EntryFor(x, Pending(Note, NoteChunk(t, mem[t])))] else []
  {
    hide NoteRescans, EntryFor, NoteChunk;
    var ps := AsPending(Note, NoteScanOf(mem, force, hashes)(t));
    if t in ChangedNotes(mem, force, hashes) {
      assert ps == [Pending(Note, NoteChunk(t, mem[t]))] && ps[..0] == [];
    }
  }

  // The files a run reads again are those whose hash differs from what is held of them, and
  // those of which it holds no entry.
  lemma ChangedIs(x: Extract, led: map<string, Rec>, tree: Tree, force: bool, es: seq<Entry>)
    requires HoldsEntries(x, led, es)
    ensures ChangedBy(x, tree, force, es) == ChangedFiles(x, tree, force, KnownHashes(x, led))
  {
    hide Pieces, Filter, LastHashes, HoldsEntries, KnownHashes;
    forall p ensures p in ChangedBy(x, tree, force, es) <==> p in ChangedFiles(x, tree, force, KnownHashes(x, led)) {
      HashHeld(x, led, es, p);
    }
  }

  lemma HashHeld(x: Extract, led: map<string, Rec>, es: seq<Entry>, p: string)
    requires HoldsEntries(x, led, es)
    ensures p in LastHashes(es, Doc) <==> p in KnownHashes(x, led)
    ensures p in LastHashes(es, Doc) && p in KnownHashes(x, led) ==>
              LastHashes(es, Doc)[p] == KnownHashes(x, led)[p]
  {
    hide FileEntries, Filter, LastHashes;
    LastHashIs(es, Doc, p);
    if p in led && FileEntries(x, p, led[p]) != [] {
      var own := FileEntries(x, p, led[p]);
      EntryHash(x, p, led[p], own[|own| - 1]);
    }
  }

  lemma EntryHash(x: Extract, p: string, r: Rec, e: Entry)
    requires e in FileEntries(x, p, r)
    ensures e.meta.hash == RecHash(r)
  {
    hide Pieces, Embedded;
    if r.Read? {
      var chunks := FileChunks(x, p, r.version.v, r.version.glossary);
      EmbeddedIn(x, AsPending(Doc, chunks), e);
      var i :| 0 <= i < |chunks| && e == EntryFor(x, AsPending(Doc, chunks)[i]);
      assert chunks[i] in chunks;
    }
  }

  lemma EntriesTracked(x: Extract, led: map<string, Rec>, tree: Tree, r: Orders, force: bool, es: seq<Entry>,
                       mem: map<string, MemEntry>, glossary: map<string, string>)
    requires HoldsEntries(x, led, es) && Enumerates(r.files, tree.Keys)
    ensures HoldsEntries(x, UpdatedRecs(led, ChangedFiles(x, tree, force, KnownHashes(x, led)), tree, glossary),
        NewEntries(x, tree, r, force, es, mem, glossary))
  {
    hide Pieces, Embedded, Filter, NewEntries, ChangedBy, Rescans, AsPending, FileChunks, KnownHashes;
    ChangedIs(x, led, tree, force, es);
    forall p: string
      ensures var led' := UpdatedRecs(led, ChangedFiles(x, tree, force, KnownHashes(x, led)), tree, glossary);
              Filter(EntriesOf(Doc, p), NewEntries(x, tree, r, force, es, mem, glossary)) ==
              if p in led' then FileEntries(x, p, led'[p]) else []
    {
      FileAfterRun(x, tree, r, force, es, mem, glossary, p);
    }
  }

  // ---- the facts extracted from a file ----

  ghost function CallsIn(p: string): StoredCallEdge -> bool {
    (e: StoredCallEdge) => e.file == p
  }

  ghost function MetricsIn(p: string): Metric -> bool {
    (m: Metric) => m.file == p
  }

  ghost function UpdatedVersions(
      led: map<string, Version>, changed: set<string>, tree: Tree, glossary: map<string, string>)
    : map<string, Version>
  {
    map p | p in tree && (p in changed || p in led) ::
      if p in changed then Version(tree[p], glossary, tree.Keys) else led[p]
  }

  // One file's facts depend on that file alone (a link also on the paths scanned).
  ghost function CallsOf(x: Extract, p: string, r: Version): seq<StoredCallEdge> {
    CallFacts(x, map[p := r.v])(p)
  }

  ghost function MetricsOf(x: Extract, p: string, r: Version): seq<Metric> {
    MetricFacts(x, map[p := r.v])(p)
  }

  ghost function ImportsOf(x: Extract, p: string, r: Version): seq<ImportInfo> {
    ImportFacts(x, map[p := r.v])(p)
  }

  ghost function DocrefsOf(x: Extract, p: string, r: Version): seq<DocRef> {
    DocrefFacts(x, map[p := r.v], r.valid)(p)
  }

  ghost predicate HoldsCalls(x: Extract, led: map<string, Version>, calls: seq<StoredCallEdge>) {
    forall p: string :: multiset(Filter(CallsIn(p), calls)) == multiset(if p in led then CallsOf(x, p, led[p]) else [])
  }

  ghost predicate HoldsMetrics(x: Extract, led: map<string, Version>, metrics: seq<Metric>) {
    forall p: string :: multiset(Filter(MetricsIn(p), metrics)) ==
        multiset(if p in led then MetricsOf(x, p, led[p]) else [])
  }

  ghost predicate HoldsImports(x: Extract, led: map<string, Version>, imports: map<string, seq<ImportInfo>>) {
    forall p: string :: multiset(At(imports, p)) ==
                        multiset(if p in led then Mapped(RoundTrip.TripImport, ImportsOf(x, p, led[p])) else [])
  }

  ghost predicate HoldsDocrefs(x: Extract, led: map<string, Version>, refs: map<string, seq<DocRef>>) {
    forall p: string :: multiset(At(refs, p)) ==
                        multiset(if p in led then Mapped(RoundTrip.TripDocref, DocrefsOf(x, p, led[p])) else [])
  }

  lemma ListAfterRun<T>(mine: T -> bool, keeps: T -> bool, f: string -> seq<T>, held: seq<T>, order: seq<string>,
      p: string, kept: bool)
    requires forall i, j :: 0 <= i < j < |order| ==> order[i] != order[j]
    requires forall v :: v in held && mine(v) ==> (keeps(v) <==> kept)
    requires forall k, v :: k in order && v in f(k) ==> (mine(v) <==> k == p)
    ensures Filter(mine, Filter(keeps, held) + Concat(f, order)) ==
            (if kept then Filter(mine, held) else []) + (if p in order then f(p) else [])
  {
    hide Filter, Concat;
    FilterAppend(mine, Filter(keeps, held), Concat(f, order));
    FilterConcat(f, mine, p, order);
    if kept {
      FilterInner(mine, keeps, held);
    } else {
      FilterApart(mine, keeps, held);
    }
  }

  lemma {:induction false} AtPushed<V>(m: map<string, seq<V>>, f: string -> seq<V>, order: seq<string>, p: string)
    requires forall i, j :: 0 <= i < j < |order| ==> order[i] != order[j]
    ensures At(PushedAll(m, f, order), p) == At(m, p) + if p in order then f(p) else []
  {
    if order != [] {
      var n := |order| - 1;
      AtPushed(m, f, order[..n], p);
      KeyInPrefix(order, p);
    }
  }

  lemma AtErased<V>(m: map<string, seq<V>>, changed: set<string>, valid: set<string>, p: string)
    ensures At(Erased(m, changed, valid), p) == if p !in changed && p in valid then At(m, p) else []
  {
  }

  // What a run leaves of one file's facts: a changed file's are extracted again, an
  // unchanged file's kept, a vanished file's dropped.
  ghost predicate FileFacts(x: Extract, tree: Tree, changed: set<string>, held: IndexData, data: IndexData, p: string) {
    && Filter(CallsIn(p), data.calls) ==
         (if p in changed then CallFacts(x, tree)(p) else if p in tree then Filter(CallsIn(p), held.calls) else [])
    && Filter(MetricsIn(p), data.metrics) ==
         (if p in changed then MetricFacts(x, tree)(p) else if p in tree then Filter(MetricsIn(p), held.metrics)
             else [])
    && At(data.imports, p) ==
         (if p in changed then ImportFacts(x, tree)(p) else if p in tree then At(held.imports, p) else [])
    && At(data.docrefs, p) ==
         (if p in changed then DocrefFacts(x, tree, tree.Keys)(p) else if p in tree then At(held.docrefs, p) else [])
    && At(data.exports, p) == (if p in changed then ExportFacts(x, tree)(p) else [])
  }

  // A forced run starts from empty collections.
  ghost function Held(force: bool, l: IndexData): IndexData {
    if force then l.(calls := [], metrics := [], imports := map[], docrefs := map[]) else l
  }

  lemma EnumeratesDistinct(order: seq<string>, s: set<string>)
    requires Enumerates(order, s)
    ensures forall i, j :: 0 <= i < j < |order| ==> order[i] != order[j]
    ensures forall k :: k in order <==> k in s
  {
  }

  lemma CallsAfterRun(x: Extract, tree: Tree, changed: set<string>, held: seq<StoredCallEdge>, order: seq<string>,
      p: string)
    requires Enumerates(order, changed)
    ensures Filter(CallsIn(p), Filter(KeepsCall(changed, tree.Keys), held) + Concat(CallFacts(x, tree), order)) ==
            if p in changed then CallFacts(x, tree)(p) else if p in tree then Filter(CallsIn(p), held) else []
  {
    hide Filter, Concat, Parsed;
    forall k, v | k in order && v in CallFacts(x, tree)(k) ensures CallsIn(p)(v) <==> k == p {
      CallNamesFile(x, tree, k, v);
    }
    ListAfterRun(CallsIn(p), KeepsCall(changed, tree.Keys), CallFacts(x, tree), held, order, p,
        p !in changed && p in tree);
  }

  lemma MetricsAfterRun(x: Extract, tree: Tree, changed: set<string>, held: seq<Metric>, order: seq<string>, p: string)
    requires Enumerates(order, changed)
    ensures Filter(MetricsIn(p), Filter(KeepsMetric(changed, tree.Keys), held) + Concat(MetricFacts(x, tree), order)) ==
            if p in changed then MetricFacts(x, tree)(p) else if p in tree then Filter(MetricsIn(p), held) else []
  {
    hide Filter, Concat, Parsed;
    forall k, v | k in order && v in MetricFacts(x, tree)(k) ensures MetricsIn(p)(v) <==> k == p {
      MetricNamesFile(x, tree, k, v);
    }
    ListAfterRun(MetricsIn(p), KeepsMetric(changed, tree.Keys), MetricFacts(x, tree), held, order, p,
        p !in changed && p in tree);
  }

  lemma CallNamesFile(x: Extract, tree: Tree, k: string, v: StoredCallEdge)
    requires v in CallFacts(x, tree)(k)
    ensures v.file == k
  {
    var i :| 0 <= i < |CallFacts(x, tree)(k)| && CallFacts(x, tree)(k)[i] == v;
    if Parsed(x, tree, k) {
      assert CallFacts(x, tree)(k) == Mapped(CallAt(k), x.calls(k, tree[k].content));
      assert v == CallAt(k)(x.calls(k, tree[k].content)[i]);
    }
  }

  lemma MetricNamesFile(x: Extract, tree: Tree, k: string, v: Metric)
    requires v in MetricFacts(x, tree)(k)
    ensures v.file == k
  {
    var i :| 0 <= i < |MetricFacts(x, tree)(k)| && MetricFacts(x, tree)(k)[i] == v;
    if Parsed(x, tree, k) {
      assert MetricFacts(x, tree)(k) == Mapped(MetricAt(k), x.metrics(k, tree[k].content));
      assert v == MetricAt(k)(x.metrics(k, tree[k].content)[i]);
    }
  }

  lemma FactsAfterRun(x: Extract, tree: Tree, r: Orders, force: bool, es: seq<Entry>, l: IndexData, data: IndexData,
      p: string)
    requires Assembles(x, tree, r, force, es, l, data)
    ensures FileFacts(x, tree, ChangedBy(x, tree, force, es), Held(force, l), data, p)
  {
    hide Filter, Concat, PushedAll, Parsed, ResolvedLinks, NewEntries, At, Erased, ChangedBy, Enumerates;
    var changed, valid := ChangedBy(x, tree, force, es), tree.Keys;
    var held := Held(force, l);
    EnumeratesDistinct(r.code, changed);
    EnumeratesDistinct(r.refs, changed);
    CallsAfterRun(x, tree, changed, held.calls, r.code, p);
    MetricsAfterRun(x, tree, changed, held.metrics, r.code, p);
    AtErased(held.imports, changed, valid, p);
    AtPushed(Erased(held.imports, changed, valid), ImportFacts(x, tree), r.code, p);
    AtErased(held.docrefs, changed, valid, p);
    AtPushed(Erased(held.docrefs, changed, valid), DocrefFacts(x, tree, valid), r.refs, p);
    AtPushed(map[], ExportFacts(x, tree), r.code, p);
    AtEmpty<string>(p);
  }

  lemma AtEmpty<V>(p: string)
    ensures At<V>(map[], p) == []
  {
  }

  // ---- one run on the stored index ----

  // A run, with what it loaded and stored and the orders in which it went.
  datatype Run = Run(tree: Tree, r: Orders, l: IndexData, data: IndexData, o: Backend.Order)

  datatype State = State(entries: seq<Entry>, t: Tables.Tables)

  ghost predicate Does(x: Extract, run: Run, force: bool, s: State, s': State) {
    && Backend.LoadedFrom(run.l, s.t) && Assembles(x, run.tree, run.r, force, s.entries, run.l, run.data)
    && s'.entries == run.data.index.entries
    && Backend.Walks(run.o, run.data) && s'.t == Backend.Written(s.t, run.data, run.o)
  }

  ghost predicate HoldsFacts(x: Extract, led: map<string, Version>, c: IndexData) {
    HoldsCalls(x, led, c.calls) && HoldsMetrics(x, led, c.metrics) && HoldsImports(x, led, c.imports) &&
        HoldsDocrefs(x, led, c.docrefs)
  }

  // What is loaded holds the ledger's facts, in whatever order the rows came.
  lemma LoadedHolds(x: Extract, led: map<string, Version>, t: Tables.Tables, l: IndexData)
    requires Backend.LoadedFrom(l, t) && HoldsFacts(x, led, Canonical(t))
    ensures HoldsFacts(x, led, l)
  {
    hide Filter, Group, Mapped, CallsOf, MetricsOf, ImportsOf, DocrefsOf, Tables.OfKind, Tables.IndexOf, Tables.MemOf;
    var c := Canonical(t);
    forall p: string ensures multiset(Filter(CallsIn(p), l.calls)) == multiset(Filter(CallsIn(p), c.calls)) {
      FilterPermuted(CallsIn(p), l.calls, c.calls);
    }
    forall p: string ensures multiset(Filter(MetricsIn(p), l.metrics)) == multiset(Filter(MetricsIn(p), c.metrics)) {
      FilterPermuted(MetricsIn(p), l.metrics, c.metrics);
    }
    SameAt(l.imports, c.imports);
    SameAt(l.docrefs, c.docrefs);
  }

  lemma SameAt<V>(a: map<string, seq<V>>, b: map<string, seq<V>>)
    requires SameGroups(a, b)
    ensures forall p: string :: multiset(At(a, p)) == multiset(At(b, p))
  {
  }

  lemma AtDropped<V>(m: map<string, seq<V>>, p: string)
    ensures At(DropEmpty(m), p) == At(m, p)
  {
  }

  lemma AtMapped<V, W>(f: V -> W, m: map<string, seq<V>>, p: string)
    ensures At(MapLists(f, m), p) == Mapped(f, At(m, p))
  {
  }

  lemma ImportsTwice(s: seq<ImportInfo>)
    ensures Mapped(RoundTrip.TripImport, Mapped(RoundTrip.TripImport, s)) == Mapped(RoundTrip.TripImport, s)
  {
    hide RoundTrip.TripImport;
    var m := Mapped(RoundTrip.TripImport, s);
    forall i | 0 <= i < |s| ensures Mapped(RoundTrip.TripImport, m)[i] == m[i] {
      RoundTrip.TripsTwice(s[i], DocRef(false, "", ""));
    }
  }

  lemma DocrefsTwice(s: seq<DocRef>)
    ensures Mapped(RoundTrip.TripDocref, Mapped(RoundTrip.TripDocref, s)) == Mapped(RoundTrip.TripDocref, s)
  {
    hide RoundTrip.TripDocref;
    var m := Mapped(RoundTrip.TripDocref, s);
    forall i | 0 <= i < |s| ensures Mapped(RoundTrip.TripDocref, m)[i] == m[i] {
      RoundTrip.TripsTwice(ImportInfo("", []), s[i]);
    }
  }

  lemma HoldsNothing(x: Extract, l: IndexData)
    ensures HoldsFacts(x, map[], Held(true, l))
  {
  }

  lemma SameFacts(x: Extract, tree: Tree, p: string, glossary: map<string, string>)
    requires p in tree
    ensures var r := Version(tree[p], glossary, tree.Keys);
            && CallFacts(x, tree)(p) == CallsOf(x, p, r) && MetricFacts(x, tree)(p) == MetricsOf(x, p, r)
            && ImportFacts(x, tree)(p) == ImportsOf(x, p, r) && DocrefFacts(x, tree, tree.Keys)(p) == DocrefsOf(x, p, r)
  {
    hide ResolvedLinks;
    assert Parsed(x, tree, p) == Parsed(x, map[p := tree[p]], p);
  }

  lemma ImportsTracked(x: Extract, base: map<string, Version>, tree: Tree, changed: set<string>, held: IndexData,
      data: IndexData, glossary: map<string, string>)
    requires changed <= tree.Keys && HoldsImports(x, base, held.imports)
    requires forall p: string :: FileFacts(x, tree, changed, held, data, p)
    ensures HoldsImports(x, UpdatedVersions(base, changed, tree, glossary),
        DropEmpty(MapLists(RoundTrip.TripImport, data.imports)))
  {
    hide Filter, ImportsOf, MapLists, DropEmpty, At, Mapped, RoundTrip.TripImport, ResolvedLinks, Parsed;
    var led := UpdatedVersions(base, changed, tree, glossary);
    var out := DropEmpty(MapLists(RoundTrip.TripImport, data.imports));
    forall p: string
      ensures multiset(At(out, p)) ==
              multiset(if p in led then Mapped(RoundTrip.TripImport, ImportsOf(x, p, led[p])) else [])
    {
      assert FileFacts(x, tree, changed, held, data, p);
      AtDropped(MapLists(RoundTrip.TripImport, data.imports), p);
      AtMapped(RoundTrip.TripImport, data.imports, p);
      MappedNone(RoundTrip.TripImport);
      if p in changed {
        SameFacts(x, tree, p, glossary);
      } else if p in tree {
        var was := if p in base then Mapped(RoundTrip.TripImport, ImportsOf(x, p, base[p])) else [];
        MappedPermuted(RoundTrip.TripImport, At(held.imports, p), was);
        if p in base {
          ImportsTwice(ImportsOf(x, p, base[p]));
        }
      }
    }
  }

  lemma MappedNone<A, B>(f: A -> B)
    ensures Mapped(f, []) == []
  {
  }

  lemma DocrefsTracked(x: Extract, base: map<string, Version>, tree: Tree, changed: set<string>, held: IndexData,
      data: IndexData, glossary: map<string, string>)
    requires changed <= tree.Keys && HoldsDocrefs(x, base, held.docrefs)
    requires forall p: string :: FileFacts(x, tree, changed, held, data, p)
    ensures HoldsDocrefs(x, UpdatedVersions(base, changed, tree, glossary),
        DropEmpty(MapLists(RoundTrip.TripDocref, data.docrefs)))
  {
    hide Filter, DocrefsOf, MapLists, DropEmpty, At, Mapped, RoundTrip.TripDocref, ResolvedLinks, Parsed;
    var led := UpdatedVersions(base, changed, tree, glossary);
    var out := DropEmpty(MapLists(RoundTrip.TripDocref, data.docrefs));
    forall p: string
      ensures multiset(At(out, p)) ==
              multiset(if p in led then Mapped(RoundTrip.TripDocref, DocrefsOf(x, p, led[p])) else [])
    {
      assert FileFacts(x, tree, changed, held, data, p);
      AtDropped(MapLists(RoundTrip.TripDocref, data.docrefs), p);
      AtMapped(RoundTrip.TripDocref, data.docrefs, p);
      MappedNone(RoundTrip.TripDocref);
      if p in changed {
        SameFacts(x, tree, p, glossary);
      } else if p in tree {
        var was := if p in base then Mapped(RoundTrip.TripDocref, DocrefsOf(x, p, base[p])) else [];
        MappedPermuted(RoundTrip.TripDocref, At(held.docrefs, p), was);
        if p in base {
          DocrefsTwice(DocrefsOf(x, p, base[p]));
        }
      }
    }
  }

  lemma ListsTrackedAt(x: Extract, base: map<string, Version>, tree: Tree, changed: set<string>, held: IndexData,
      data: IndexData, glossary: map<string, string>, p: string)
    requires changed <= tree.Keys && HoldsCalls(x, base, held.calls) && HoldsMetrics(x, base, held.metrics)
    requires FileFacts(x, tree, changed, held, data, p)
    ensures var led := UpdatedVersions(base, changed, tree, glossary);
            && multiset(Filter(CallsIn(p), data.calls)) == multiset(if p in led then CallsOf(x, p, led[p]) else [])
            && multiset(Filter(MetricsIn(p), data.metrics)) ==
                multiset(if p in led then MetricsOf(x, p, led[p]) else [])
  {
    hide Filter, CallsOf, MetricsOf, CallFacts, MetricFacts;
    if p in changed {
      SameFacts(x, tree, p, glossary);
    }
  }

  lemma ListsTracked(x: Extract, base: map<string, Version>, tree: Tree, changed: set<string>, held: IndexData,
      data: IndexData, glossary: map<string, string>)
    requires changed <= tree.Keys && HoldsCalls(x, base, held.calls) && HoldsMetrics(x, base, held.metrics)
    requires forall p: string :: FileFacts(x, tree, changed, held, data, p)
    ensures var led := UpdatedVersions(base, changed, tree, glossary);
            HoldsCalls(x, led, data.calls) && HoldsMetrics(x, led, data.metrics)
  {
    hide Filter, CallsOf, MetricsOf, FileFacts, UpdatedVersions;
    var led := UpdatedVersions(base, changed, tree, glossary);
    forall p: string
      ensures multiset(Filter(CallsIn(p), data.calls)) == multiset(if p in led then CallsOf(x, p, led[p]) else [])
      ensures multiset(Filter(MetricsIn(p), data.metrics)) == multiset(if p in led then MetricsOf(x, p, led[p]) else [])
    {
      ListsTrackedAt(x, base, tree, changed, held, data, glossary, p);
    }
  }

  lemma HeldHolds(x: Extract, base: map<string, Version>, force: bool, t: Tables.Tables, l: IndexData)
    requires Backend.LoadedFrom(l, t) && HoldsFacts(x, base, Held(force, Canonical(t)))
    ensures HoldsFacts(x, base, Held(force, l))
  {
    hide Backend.LoadedFrom, HoldsCalls, HoldsMetrics, HoldsImports, HoldsDocrefs, Canonical;
    if !force {
      LoadedHolds(x, base, t, l);
    }
  }

  // One run keeps each file's facts those of the ledger, whatever strings they hold and in
  // whatever order the database returns its rows.
  lemma FactsTracked(x: Extract, base: map<string, Version>, run: Run, force: bool, s: State, s': State)
    requires Does(x, run, force, s, s')
    requires HoldsFacts(x, base, Held(force, Canonical(s.t)))
    ensures HoldsFacts(x, UpdatedVersions(base, ChangedBy(x, run.tree, force, s.entries), run.tree, run.l.glossary),
        Canonical(s'.t))
  {
    hide FileFacts, HoldsCalls, HoldsMetrics, HoldsImports, HoldsDocrefs, Held, Backend.Written, Backend.Walks,
      Backend.LoadedFrom, UpdatedVersions, Mapped, Group, DropEmpty, MapLists, NewEntries, Filter, Concat, PushedAll,
      Erased, Tables.OfKind, Tables.IndexOf, Tables.MemOf, Pieces, LastHashes, Rescans, Enumerates;
    var changed := ChangedBy(x, run.tree, force, s.entries);
    var held := Held(force, run.l);
    HeldHolds(x, base, force, s.t, run.l);
    forall p: string ensures FileFacts(x, run.tree, changed, held, run.data, p) {
      FactsAfterRun(x, run.tree, run.r, force, s.entries, run.l, run.data, p);
    }
    RoundTrip.CanonicalOfWritten(s.t, run.data, run.o);
    ImportsTracked(x, base, run.tree, changed, held, run.data, run.l.glossary);
    DocrefsTracked(x, base, run.tree, changed, held, run.data, run.l.glossary);
    ListsTracked(x, base, run.tree, changed, held, run.data, run.l.glossary);
  }
}
