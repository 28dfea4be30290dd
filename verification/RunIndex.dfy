// One run of the indexer: what it keeps, what it extracts again, what it stores.

module Filters {
  import opened Grouping

  ghost function Filter<T>(f: T -> bool, s: seq<T>): seq<T> {
    if s == [] then []
    else
      var n := |s| - 1;
      Filter(f, s[..n]) + if f(s[n]) then [s[n]] else []
  }

  lemma {:induction false} FilterAppend<T>(f: T -> bool, a: seq<T>, b: seq<T>)
    ensures Filter(f, a + b) == Filter(f, a) + Filter(f, b)
  {
    if b == [] {
      assert a + b == a;
    } else {
      var n := |b| - 1;
      assert (a + b)[..|a + b| - 1] == a + b[..n];
      FilterAppend(f, a, b[..n]);
    }
  }

  lemma FilterOne<T>(f: T -> bool, v: T)
    ensures Filter(f, [v]) == if f(v) then [v] else []
  {
    assert [v][..0] == [];
  }

  lemma FilterEmpty<T>(f: T -> bool)
    ensures Filter(f, []) == []
  {
  }

  lemma {:induction false} FilterIn<T>(f: T -> bool, s: seq<T>, v: T)
    ensures v in Filter(f, s) <==> v in s && f(v)
  {
    if s != [] {
      var n := |s| - 1;
      FilterIn(f, s[..n], v);
      assert s == s[..n] + [s[n]];
    }
  }

  lemma {:induction false} FilterAll<T>(f: T -> bool, s: seq<T>)
    requires forall v :: v in s ==> f(v)
    ensures Filter(f, s) == s
  {
    if s != [] {
      var n := |s| - 1;
      FilterAll(f, s[..n]);
      assert s[n] in s && s == s[..n] + [s[n]];
    }
  }

  lemma {:induction false} FilterNone<T>(f: T -> bool, s: seq<T>)
    requires forall v :: v in s ==> !f(v)
    ensures Filter(f, s) == []
  {
    if s != [] {
      var n := |s| - 1;
      FilterNone(f, s[..n]);
      assert s[n] in s;
    }
  }

  // Filtering twice, when the inner filter keeps all the outer one wants.
  lemma {:induction false} FilterInner<T>(f: T -> bool, g: T -> bool, s: seq<T>)
    requires forall v :: v in s && f(v) ==> g(v)
    ensures Filter(f, Filter(g, s)) == Filter(f, s)
  {
    if s != [] {
      var n := |s| - 1;
      FilterInner(f, g, s[..n]);
      if g(s[n]) {
        FilterAppend(f, Filter(g, s[..n]), [s[n]]);
        FilterOne(f, s[n]);
      } else {
        assert s[n] in s && Filter(g, s) == Filter(g, s[..n]);
      }
    }
  }

  // ... or drops all of it.
  lemma FilterApart<T>(f: T -> bool, g: T -> bool, s: seq<T>)
    requires forall v :: v in s && f(v) ==> !g(v)
    ensures Filter(f, Filter(g, s)) == []
  {
    hide Filter;
    forall v | v in Filter(g, s) ensures !f(v) {
      FilterIn(g, s, v);
    }
    FilterNone(f, Filter(g, s));
  }

  lemma {:induction false} FilterPermuted<T>(f: T -> bool, a: seq<T>, b: seq<T>)
    requires multiset(a) == multiset(b)
    ensures multiset(Filter(f, a)) == multiset(Filter(f, b))
    decreases |a|
  {
    if a == [] {
      assert |b| == |multiset(b)| == |multiset(a)| == 0;
    } else {
      var n := |a| - 1;
      assert a[n] in multiset(b);
      var i :| 0 <= i < |b| && b[i] == a[n];
      RemoveOne(a, n);
      RemoveOne(b, i);
      assert a[..n] + a[n + 1..] == a[..n];
      FilterPermuted(f, a[..n], b[..i] + b[i + 1..]);
      FilterRemoveOne(f, a, n);
      FilterRemoveOne(f, b, i);
    }
  }

  lemma FilterRemoveOne<T>(f: T -> bool, s: seq<T>, i: nat)
    requires i < |s|
    ensures multiset(Filter(f, s)) == multiset(Filter(f, s[..i] + s[i + 1..])) + if f(s[i]) then multiset{s[i]}
        else multiset{}
  {
    hide Filter;
    assert s == s[..i] + ([s[i]] + s[i + 1..]);
    FilterOne(f, s[i]);
    FilterAppend(f, s[..i], [s[i]] + s[i + 1..]);
    FilterAppend(f, [s[i]], s[i + 1..]);
    FilterAppend(f, s[..i], s[i + 1..]);
  }

  // Lists laid end to end, one for each key.
  ghost function Concat<T>(f: string -> seq<T>, keys: seq<string>): seq<T> {
    if keys == [] then []
    else
      var n := |keys| - 1;
      Concat(f, keys[..n]) + f(keys[n])
  }

  lemma ConcatNone<T>(f: string -> seq<T>)
    ensures Concat(f, []) == []
  {
  }

  lemma ConcatOneMore<T>(f: string -> seq<T>, keys: seq<string>, k: string)
    ensures Concat(f, keys + [k]) == Concat(f, keys) + f(k)
  {
    assert (keys + [k])[..|keys|] == keys;
  }

  // Each key's share of the whole is its own list.
  lemma {:induction false} FilterConcat<T>(f: string -> seq<T>, mine: T -> bool, k: string, keys: seq<string>)
    requires forall i, j :: 0 <= i < j < |keys| ==> keys[i] != keys[j]
    requires forall j, v :: j in keys && v in f(j) ==> (mine(v) <==> j == k)
    ensures Filter(mine, Concat(f, keys)) == if k in keys then f(k) else []
  {
    hide Filter;
    FilterEmpty(mine);
    if keys != [] {
      var n := |keys| - 1;
      FilterConcat(f, mine, k, keys[..n]);
      FilterAppend(mine, Concat(f, keys[..n]), f(keys[n]));
      KeyInPrefix(keys, k);
      if keys[n] == k {
        FilterAll(mine, f(k));
      } else {
        FilterNone(mine, f(keys[n]));
      }
    }
  }

  lemma {:induction false} InConcat<T>(f: string -> seq<T>, keys: seq<string>, v: T)
    ensures v in Concat(f, keys) <==> exists k :: k in keys && v in f(k)
  {
    if keys != [] {
      var n := |keys| - 1;
      InConcat(f, keys[..n], v);
      if k :| k in keys && v in f(k) {
        KeyInPrefix(keys, k);
      }
    }
  }
}

module Indexing {
  import opened Half
  import opened Data
  import opened Grouping
  import opened Filters
  import opened ImportGraphs
  import opened CallGraphs
  import Tables
  import Backend

  datatype FileV = FileV(hash: nat, content: string)

  type Tree = map<string, FileV>

  datatype Piece = Piece(heading: string, line: nat, endLine: nat, content: string)

  datatype Link = Link(target: string, text: string)

  datatype Resolved = Dropped | To(ref: DocRef)

  // The parts of the indexer that are other people's code: chunkers, extractors, the
  // embedding model. Each is some function of what it is given.
  datatype Extract = Extract(
    chunks: (string, string) -> seq<Piece>,
    text: (string, seq<Piece>, nat, map<string, string>) -> string,
    embed: string -> seq<word32>,
    grammar: string -> bool,
    calls: (string, string) -> seq<(string, string, nat)>,
    imports: (string, string) -> seq<ImportInfo>,
    metrics: (string, string) -> seq<Metric>,
    exports: (string, string) -> seq<string>,
    types: (string, string) -> seq<(string, string, string, nat)>,
    markdown: string -> bool,
    links: string -> seq<Link>,
    resolve: (string, Link, set<string>) -> Resolved)

  // One chunk as an adapter reports it.
  datatype Scanned = Scanned(key: string, heading: string, line: nat, endLine: nat, hash: nat, text: string)

  datatype Pending = Pending(proto: Proto, chunk: Scanned)

  function Pieces(x: Extract, p: string, v: FileV): seq<Piece> {
    if v.content == "" then [] else x.chunks(p, v.content)
  }

  function FileChunks(x: Extract, p: string, v: FileV, glossary: map<string, string>): (r: seq<Scanned>)
    ensures |r| == |Pieces(x, p, v)|
    ensures forall c :: c in r ==> c.key == p && c.hash == v.hash
  {
    var ps := Pieces(x, p, v);
    seq(|ps|, i requires 0 <= i < |ps| =>
      Scanned(p, ps[i].heading, ps[i].line, ps[i].endLine, v.hash, x.text(p, ps, i, glossary)))
  }

  // Is a file read again, given the hashes of the entries held?
  predicate Rescans(v: FileV, p: string, force: bool, hashes: map<string, nat>) {
    force || p !in hashes || hashes[p] != v.hash
  }

  ghost function ScanOf(x: Extract, tree: Tree, force: bool, hashes: map<string, nat>,
      glossary: map<string, string>): string -> seq<Scanned> {
    (p: string) => if p in tree && Rescans(tree[p], p, force, hashes) then FileChunks(x, p, tree[p], glossary) else []
  }

  // The files that are read again and yield a chunk.
  ghost function ChangedFiles(x: Extract, tree: Tree, force: bool, hashes: map<string, nat>): set<string> {
    set p | p in tree && Rescans(tree[p], p, force, hashes) && Pieces(x, p, tree[p]) != []
  }

  lemma EnumeratedSet(keys: seq<string>, s: set<string>)
    requires Enumerates(keys, s)
    ensures (set k | k in keys) == s && forall i :: 0 <= i < |keys| ==> keys[i] in s
  {
  }

  method ScanFiles(x: Extract, tree: Tree, files: seq<string>, force: bool, hashes: map<string, nat>,
      glossary: map<string, string>)
    returns (chunks: seq<Scanned>, paths: set<string>)
    requires Enumerates(files, tree.Keys)
    ensures chunks == Concat(ScanOf(x, tree, force, hashes, glossary), files)
    ensures paths == tree.Keys
  {
    hide FileChunks, Rescans, Enumerates, Concat;
    chunks, paths := [], {};
    ghost var f := ScanOf(x, tree, force, hashes, glossary);
    EnumeratedSet(files, tree.Keys);
    ConcatNone(f);
    for i := 0 to |files|
      invariant chunks == Concat(f, files[..i])
      invariant paths == set p | p in files[..i]
    {
      assert files[..i + 1] == files[..i] + [files[i]];
      ConcatOneMore(f, files[..i], files[i]);
      var p := files[i];
      paths := paths + {p};
      if Rescans(tree[p], p, force, hashes) {
        chunks := chunks + FileChunks(x, p, tree[p], glossary);
      }
    }
    assert files[..|files|] == files;
  }

  method KeysOf(chunks: seq<Scanned>) returns (keys: set<string>)
    ensures keys == set c | c in chunks :: c.key
  {
    keys := {};
    for i := 0 to |chunks|
      invariant keys == set c | c in chunks[..i] :: c.key
    {
      assert chunks[..i + 1] == chunks[..i] + [chunks[i]];
      keys := keys + {chunks[i].key};
    }
    assert chunks[..|chunks|] == chunks;
  }

  // What is read again is exactly the changed files.
  lemma ScannedKeys(x: Extract, tree: Tree, files: seq<string>, force: bool, hashes: map<string, nat>,
      glossary: map<string, string>)
    requires Enumerates(files, tree.Keys)
    ensures (set c | c in Concat(ScanOf(x, tree, force, hashes, glossary), files) :: c.key) ==
        ChangedFiles(x, tree, force, hashes)
  {
    hide FileChunks, Rescans, Concat, Pieces;
    var f := ScanOf(x, tree, force, hashes, glossary);
    var all := Concat(f, files);
    forall p ensures (exists c :: c in all && c.key == p) <==> p in ChangedFiles(x, tree, force, hashes) {
      if c :| c in all && c.key == p {
        InConcat(f, files, c);
        assert p in ChangedFiles(x, tree, force, hashes);
      }
      if p in ChangedFiles(x, tree, force, hashes) {
        var c := f(p)[0];
        InConcat(f, files, c);
      }
    }
  }

  // ---- notes ----

  const WORD: int := 0x1_0000_0000_0000_0000

  // A timestamp cast to the unsigned hash.
  function HashOf(timestamp: int): nat {
    timestamp % WORD
  }

  function NoteChunk(topic: string, e: MemEntry): Scanned {
    Scanned(topic, topic, 0, 0, HashOf(e.timestamp), topic + ". " + e.content)
  }

  predicate NoteRescans(topic: string, e: MemEntry, force: bool, hashes: map<string, nat>) {
    force || topic !in hashes || hashes[topic] != HashOf(e.timestamp)
  }

  ghost function NoteScanOf(mem: map<string, MemEntry>, force: bool, hashes: map<string, nat>): string -> seq<Scanned> {
    (t: string) => if t in mem && NoteRescans(t, mem[t], force, hashes) then [NoteChunk(t, mem[t])] else []
  }

  ghost function ChangedNotes(mem: map<string, MemEntry>, force: bool, hashes: map<string, nat>): set<string> {
    set t | t in mem && NoteRescans(t, mem[t], force, hashes)
  }

  method ScanNotes(mem: map<string, MemEntry>, force: bool, hashes: map<string, nat>)
    returns (chunks: seq<Scanned>, ghost topics: seq<string>)
    ensures Enumerates(topics, mem.Keys)
    ensures chunks == Concat(NoteScanOf(mem, force, hashes), topics)
  {
    hide NoteRescans, NoteChunk;
    chunks, topics := [], [];
    var rest := mem.Keys;
    while rest != {}
      invariant rest <= mem.Keys && Enumerates(topics, mem.Keys - rest)
      invariant chunks == Concat(NoteScanOf(mem, force, hashes), topics)
      decreases rest
    {
      var t :| t in rest;
      Backend.EnumeratesOneMore(topics, mem.Keys, rest, t);
      assert (topics + [t])[..|topics|] == topics;
      if NoteRescans(t, mem[t], force, hashes) {
        chunks := chunks + [NoteChunk(t, mem[t])];
      }
      topics := topics + [t];
      rest := rest - {t};
    }
    assert mem.Keys - rest == mem.Keys;
  }

  lemma NoteKeys(mem: map<string, MemEntry>, topics: seq<string>, force: bool, hashes: map<string, nat>)
    requires Enumerates(topics, mem.Keys)
    ensures (set c | c in Concat(NoteScanOf(mem, force, hashes), topics) :: c.key) == ChangedNotes(mem, force, hashes)
  {
    hide NoteRescans, Concat;
    var f := NoteScanOf(mem, force, hashes);
    var all := Concat(f, topics);
    forall t ensures (exists c :: c in all && c.key == t) <==> t in ChangedNotes(mem, force, hashes) {
      if c :| c in all && c.key == t {
        InConcat(f, topics, c);
      }
      if t in ChangedNotes(mem, force, hashes) {
        InConcat(f, topics, NoteChunk(t, mem[t]));
      }
    }
  }

  // ---- entries ----

  // The hash of the last entry of a kind with a path.
  ghost function LastHashes(entries: seq<Entry>, proto: Proto): map<string, nat> {
    if entries == [] then map[]
    else
      var n := |entries| - 1;
      var m := LastHashes(entries[..n], proto);
      if entries[n].meta.proto == proto then m[entries[n].meta.path := entries[n].meta.hash] else m
  }

  method HashMaps(entries: seq<Entry>) returns (files: map<string, nat>, notes: map<string, nat>)
    ensures files == LastHashes(entries, Doc) && notes == LastHashes(entries, Note)
  {
    files, notes := map[], map[];
    for i := 0 to |entries|
      invariant files == LastHashes(entries[..i], Doc) && notes == LastHashes(entries[..i], Note)
    {
      assert entries[..i + 1][..i] == entries[..i];
      var m := entries[i].meta;
      if m.proto == Doc {
        files := files[m.path := m.hash];
      } else {
        notes := notes[m.path := m.hash];
      }
    }
    assert entries[..|entries|] == entries;
  }

  ghost function KeepsDoc(changed: set<string>, valid: set<string>): Entry -> bool {
    (e: Entry) => e.meta.proto == Doc && e.meta.path !in changed && e.meta.path in valid
  }

  ghost function KeepsNote(rescanned: set<string>, mem: set<string>): Entry -> bool {
    (e: Entry) => e.meta.proto == Note && e.meta.path !in rescanned && e.meta.path in mem
  }

  method KeptDocs(entries: seq<Entry>, changed: set<string>, valid: set<string>) returns (kept: seq<Entry>)
    ensures kept == Filter(KeepsDoc(changed, valid), entries)
  {
    kept := [];
    for i := 0 to |entries|
      invariant kept == Filter(KeepsDoc(changed, valid), entries[..i])
    {
      assert entries[..i + 1][..i] == entries[..i];
      var m := entries[i].meta;
      if m.proto == Doc && m.path !in changed && m.path in valid {
        kept := kept + [entries[i]];
      }
    }
    assert entries[..|entries|] == entries;
  }

  method KeptNotes(entries: seq<Entry>, chunks: seq<Scanned>, mem: map<string, MemEntry>) returns (kept: seq<Entry>)
    ensures kept == Filter(KeepsNote(set c | c in chunks :: c.key, mem.Keys), entries)
  {
    kept := [];
    ghost var rescanned := set c | c in chunks :: c.key;
    for i := 0 to |entries|
      invariant kept == Filter(KeepsNote(rescanned, mem.Keys), entries[..i])
    {
      assert entries[..i + 1][..i] == entries[..i];
      var m := entries[i].meta;
      if m.proto == Note {
        var again := false;
        for j := 0 to |chunks|
          invariant again <==> exists k :: 0 <= k < j && chunks[k].key == m.path
        {
          if chunks[j].key == m.path {
            again := true;
            break;
          }
        }
        assert again <==> m.path in rescanned;
        if !again && m.path in mem {
          kept := kept + [entries[i]];
        }
      }
    }
    assert entries[..|entries|] == entries;
  }

  function EntryFor(x: Extract, p: Pending): Entry {
    var c := p.chunk;
    Entry(Meta(p.proto, c.key, c.heading, c.line, if p.proto == Doc then c.endLine else 0, c.hash), x.embed(c.text))
  }

  // One entry for every chunk whose embedding did not fail.
  ghost function Embedded(x: Extract, pending: seq<Pending>): seq<Entry> {
    if pending == [] then []
    else
      var n := |pending| - 1;
      Embedded(x, pending[..n]) + if x.embed(pending[n].chunk.text) != [] then [EntryFor(x, pending[n])] else []
  }

  ghost function AsPending(proto: Proto, chunks: seq<Scanned>): seq<Pending> {
    seq(|chunks|, i requires 0 <= i < |chunks| => Pending(proto, chunks[i]))
  }

  method Combine(files: seq<Scanned>, notes: seq<Scanned>) returns (pending: seq<Pending>)
    ensures pending == AsPending(Doc, files) + AsPending(Note, notes)
  {
    pending := [];
    for i := 0 to |files|
      invariant pending == AsPending(Doc, files[..i])
    {
      pending := pending + [Pending(Doc, files[i])];
    }
    assert pending == AsPending(Doc, files);
    for i := 0 to |notes|
      invariant pending == AsPending(Doc, files) + AsPending(Note, notes[..i])
    {
      pending := pending + [Pending(Note, notes[i])];
    }
    assert notes[..|notes|] == notes;
  }

  // Batch by batch: the batch size does not show in the result.
  method EmbedPending(x: Extract, kept: seq<Entry>, pending: seq<Pending>, batchSize: int) returns (entries: seq<Entry>)
    ensures entries == kept + Embedded(x, pending)
  {
    hide EntryFor;
    entries := kept;
    var batch := if batchSize > 0 then batchSize else 32;
    var i := 0;
    assert pending[..0] == [];
    while i < |pending|
      invariant 0 <= i <= |pending|
      invariant entries == kept + Embedded(x, pending[..i])
    {
      var end := if i + batch < |pending| then i + batch else |pending|;
      var vectors := seq(end - i, j requires 0 <= j < end - i => x.embed(pending[i + j].chunk.text));
      for j := 0 to |vectors|
        invariant entries == kept + Embedded(x, pending[..i + j])
      {
        assert pending[..i + j + 1][..i + j] == pending[..i + j];
        if vectors[j] != [] {
          entries := entries + [EntryFor(x, pending[i + j])];
        }
      }
      i := end;
    }
    assert pending[..|pending|] == pending;
  }

  // ---- graphs ----

  ghost function KeepsCall(changed: set<string>, valid: set<string>): StoredCallEdge -> bool {
    (e: StoredCallEdge) => !(e.file in changed || e.file !in valid)
  }

  ghost function KeepsMetric(changed: set<string>, valid: set<string>): Metric -> bool {
    (m: Metric) => !(m.file in changed || m.file !in valid)
  }

  ghost function Erased<V>(m: map<string, seq<V>>, changed: set<string>, valid: set<string>): map<string, seq<V>> {
    map p | p in m && p !in changed && p in valid :: m[p]
  }

  // Is a changed file given to the extractors at all?
  predicate Parsed(x: Extract, tree: Tree, p: string) {
    p in tree && x.grammar(p) && tree[p].content != ""
  }

  function CallAt(p: string): ((string, string, nat)) -> StoredCallEdge {
    (c: (string, string, nat)) => StoredCallEdge(c.0, c.1, p, c.2)
  }

  function TypeAt(p: string): ((string, string, string, nat)) -> TypeEdge {
    (t: (string, string, string, nat)) => TypeEdge(t.0, t.1, t.2, p, t.3)
  }

  function MetricAt(p: string): Metric -> Metric {
    (m: Metric) => m.(file := p)
  }

  ghost function CallFacts(x: Extract, tree: Tree): string -> seq<StoredCallEdge> {
    (p: string) => if Parsed(x, tree, p) then Mapped(CallAt(p), x.calls(p, tree[p].content)) else []
  }

  ghost function ImportFacts(x: Extract, tree: Tree): string -> seq<ImportInfo> {
    (p: string) => if Parsed(x, tree, p) then x.imports(p, tree[p].content) else []
  }

  ghost function MetricFacts(x: Extract, tree: Tree): string -> seq<Metric> {
    (p: string) => if Parsed(x, tree, p) then Mapped(MetricAt(p), x.metrics(p, tree[p].content)) else []
  }

  ghost function ExportFacts(x: Extract, tree: Tree): string -> seq<string> {
    (p: string) => if Parsed(x, tree, p) then x.exports(p, tree[p].content) else []
  }

  ghost function TypeFacts(x: Extract, tree: Tree): string -> seq<TypeEdge> {
    (p: string) => if Parsed(x, tree, p) then Mapped(TypeAt(p), x.types(p, tree[p].content)) else []
  }

  ghost function ResolvedLinks(x: Extract, p: string, links: seq<Link>, valid: set<string>): seq<DocRef> {
    if links == [] then []
    else
      var n := |links| - 1;
      var r := x.resolve(p, links[n], valid);
      ResolvedLinks(x, p, links[..n], valid) + if r.To? then [r.ref] else []
  }

  ghost function DocrefFacts(x: Extract, tree: Tree, valid: set<string>): string -> seq<DocRef> {
    (p: string) =>
      if p in tree && x.markdown(p) && tree[p].content != ""
      then ResolvedLinks(x, p, x.links(tree[p].content), valid) else []
  }

  ghost function At<V>(m: map<string, seq<V>>, p: string): seq<V> {
    if p in m then m[p] else []
  }

  // Pushing a list onto a key; pushing nothing makes no key.
  ghost function Pushed<V>(m: map<string, seq<V>>, p: string, vs: seq<V>): map<string, seq<V>> {
    if vs == [] then m else m[p := At(m, p) + vs]
  }

  ghost function PushedAll<V>(m: map<string, seq<V>>, f: string -> seq<V>, keys: seq<string>): map<string, seq<V>> {
    if keys == [] then m
    else
      var n := |keys| - 1;
      Pushed(PushedAll(m, f, keys[..n]), keys[n], f(keys[n]))
  }

  method Push<V>(m: map<string, seq<V>>, p: string, vs: seq<V>) returns (out: map<string, seq<V>>)
    ensures out == Pushed(m, p, vs)
  {
    out := m;
    for i := 0 to |vs|
      invariant out == Pushed(m, p, vs[..i])
    {
      assert vs[..i + 1] == vs[..i] + [vs[i]];
      assert At(out, p) == At(m, p) + vs[..i];
      assert At(m, p) + vs[..i] + [vs[i]] == At(m, p) + vs[..i + 1];
      out := out[p := (if p in out then out[p] else []) + [vs[i]]];
      assert out == m[p := At(m, p) + vs[..i + 1]];
    }
    assert vs[..|vs|] == vs;
  }

  method EraseKeys<V>(m: map<string, seq<V>>, changed: set<string>, valid: set<string>)
      returns (out: map<string, seq<V>>)
    ensures out == Erased(m, changed, valid)
  {
    out := m - changed;
    var rest := out.Keys;
    while rest != {}
      invariant rest <= out.Keys
      invariant out == map p | p in m && p !in changed && (p in rest || p in valid) :: m[p]
      decreases rest
    {
      var p :| p in rest;
      if p !in valid {
        out := out - {p};
      }
      rest := rest - {p};
    }
  }

  method RemoveCalls(calls: seq<StoredCallEdge>, changed: set<string>, valid: set<string>)
      returns (kept: seq<StoredCallEdge>)
    ensures kept == Filter(KeepsCall(changed, valid), calls)
  {
    kept := [];
    for i := 0 to |calls|
      invariant kept == Filter(KeepsCall(changed, valid), calls[..i])
    {
      assert calls[..i + 1][..i] == calls[..i];
      if !(calls[i].file in changed || calls[i].file !in valid) {
        kept := kept + [calls[i]];
      }
    }
    assert calls[..|calls|] == calls;
  }

  method RemoveMetrics(metrics: seq<Metric>, changed: set<string>, valid: set<string>) returns (kept: seq<Metric>)
    ensures kept == Filter(KeepsMetric(changed, valid), metrics)
  {
    kept := [];
    for i := 0 to |metrics|
      invariant kept == Filter(KeepsMetric(changed, valid), metrics[..i])
    {
      assert metrics[..i + 1][..i] == metrics[..i];
      if !(metrics[i].file in changed || metrics[i].file !in valid) {
        kept := kept + [metrics[i]];
      }
    }
    assert metrics[..|metrics|] == metrics;
  }

  method Resolve(x: Extract, p: string, content: string, valid: set<string>) returns (refs: seq<DocRef>)
    ensures refs == ResolvedLinks(x, p, x.links(content), valid)
  {
    refs := [];
    var links := x.links(content);
    for i := 0 to |links|
      invariant refs == ResolvedLinks(x, p, links[..i], valid)
    {
      assert links[..i + 1][..i] == links[..i];
      var r := x.resolve(p, links[i], valid);
      if r.To? {
        refs := refs + [r.ref];
      }
    }
    assert links[..|links|] == links;
  }

  // The orders in which a run walks its sets.
  datatype Orders = Orders(files: seq<string>, topics: seq<string>, code: seq<string>, refs: seq<string>)

  method ExtractFile(x: Extract, tree: Tree, p: string,
                     calls0: seq<StoredCallEdge>, imports0: map<string, seq<ImportInfo>>, metrics0: seq<Metric>,
                     exports0: map<string, seq<string>>, types0: seq<TypeEdge>)
    returns (calls: seq<StoredCallEdge>, imports: map<string, seq<ImportInfo>>, metrics: seq<Metric>,
             exports: map<string, seq<string>>, types: seq<TypeEdge>)
    ensures calls == calls0 + CallFacts(x, tree)(p)
    ensures imports == Pushed(imports0, p, ImportFacts(x, tree)(p))
    ensures metrics == metrics0 + MetricFacts(x, tree)(p)
    ensures exports == Pushed(exports0, p, ExportFacts(x, tree)(p))
    ensures types == types0 + TypeFacts(x, tree)(p)
  {
    calls, imports, metrics, exports, types := calls0, imports0, metrics0, exports0, types0;
    if Parsed(x, tree, p) {
      var content := tree[p].content;
      var found := x.calls(p, content);
      calls := calls + seq(|found|, i requires 0 <= i < |found| =>
        StoredCallEdge(found[i].0, found[i].1, p, found[i].2));
      imports := Push(imports, p, x.imports(p, content));
      var measured := x.metrics(p, content);
      metrics := metrics + seq(|measured|, i requires 0 <= i < |measured| => measured[i].(file := p));
      exports := Push(exports, p, x.exports(p, content));
      var typed := x.types(p, content);
      types := types + seq(|typed|, i requires 0 <= i < |typed| =>
        TypeEdge(typed[i].0, typed[i].1, typed[i].2, p, typed[i].3));
    }
  }

  method ExtractCode(x: Extract, tree: Tree, changed: set<string>,
                     calls0: seq<StoredCallEdge>, imports0: map<string, seq<ImportInfo>>, metrics0: seq<Metric>)
    returns (calls: seq<StoredCallEdge>, imports: map<string, seq<ImportInfo>>, metrics: seq<Metric>,
             exports: map<string, seq<string>>, types: seq<TypeEdge>, ghost order: seq<string>)
    ensures Enumerates(order, changed)
    ensures calls == calls0 + Concat(CallFacts(x, tree), order)
    ensures imports == PushedAll(imports0, ImportFacts(x, tree), order)
    ensures metrics == metrics0 + Concat(MetricFacts(x, tree), order)
    ensures exports == PushedAll(map[], ExportFacts(x, tree), order)
    ensures types == Concat(TypeFacts(x, tree), order)
  {
    hide *;
    calls, imports, metrics, exports, types, order := calls0, imports0, metrics0, map[], [], [];
    var rest := changed;
    Backend.EnumeratesNone(changed);
    ExtractNone(x, tree, imports0);
    while rest != {}
      invariant rest <= changed && Enumerates(order, changed - rest)
      invariant calls == calls0 + Concat(CallFacts(x, tree), order)
      invariant imports == PushedAll(imports0, ImportFacts(x, tree), order)
      invariant metrics == metrics0 + Concat(MetricFacts(x, tree), order)
      invariant exports == PushedAll(map[], ExportFacts(x, tree), order)
      invariant types == Concat(TypeFacts(x, tree), order)
      decreases rest
    {
      var p :| p in rest;
      Backend.EnumeratesOneMore(order, changed, rest, p);
      ExtractOneMore(x, tree, imports0, order, p);
      calls, imports, metrics, exports, types := ExtractFile(x, tree, p, calls, imports, metrics, exports, types);
      order := order + [p];
      rest := rest - {p};
    }
    assert changed - rest == changed;
  }

  lemma ExtractNone(x: Extract, tree: Tree, imports: map<string, seq<ImportInfo>>)
    ensures Concat(CallFacts(x, tree), []) == [] && Concat(MetricFacts(x, tree), []) == [] &&
        Concat(TypeFacts(x, tree), []) == []
    ensures PushedAll(imports, ImportFacts(x, tree), []) == imports &&
        PushedAll(map[], ExportFacts(x, tree), []) == map[]
  {
  }

  lemma PushedOneMore<V>(m: map<string, seq<V>>, f: string -> seq<V>, keys: seq<string>, p: string)
    ensures PushedAll(m, f, keys + [p]) == Pushed(PushedAll(m, f, keys), p, f(p))
  {
    assert (keys + [p])[..|keys|] == keys;
  }

  lemma ExtractOneMore(x: Extract, tree: Tree, imports: map<string, seq<ImportInfo>>, order: seq<string>, p: string)
    ensures Concat(CallFacts(x, tree), order + [p]) == Concat(CallFacts(x, tree), order) + CallFacts(x, tree)(p)
    ensures Concat(MetricFacts(x, tree), order + [p]) == Concat(MetricFacts(x, tree), order) + MetricFacts(x, tree)(p)
    ensures Concat(TypeFacts(x, tree), order + [p]) == Concat(TypeFacts(x, tree), order) + TypeFacts(x, tree)(p)
    ensures PushedAll(imports, ImportFacts(x, tree), order + [p]) ==
            Pushed(PushedAll(imports, ImportFacts(x, tree), order), p, ImportFacts(x, tree)(p))
    ensures PushedAll(map[], ExportFacts(x, tree), order + [p]) ==
            Pushed(PushedAll(map[], ExportFacts(x, tree), order), p, ExportFacts(x, tree)(p))
  {
    hide *;
    ConcatOneMore(CallFacts(x, tree), order, p);
    ConcatOneMore(MetricFacts(x, tree), order, p);
    ConcatOneMore(TypeFacts(x, tree), order, p);
    PushedOneMore(imports, ImportFacts(x, tree), order, p);
    PushedOneMore(map[], ExportFacts(x, tree), order, p);
  }

  method ExtractRefs(x: Extract, tree: Tree, changed: set<string>, valid: set<string>, refs0: map<string, seq<DocRef>>)
    returns (refs: map<string, seq<DocRef>>, ghost order: seq<string>)
    requires changed <= tree.Keys
    ensures Enumerates(order, changed)
    ensures refs == PushedAll(refs0, DocrefFacts(x, tree, valid), order)
  {
    hide Enumerates, ResolvedLinks;
    refs, order := refs0, [];
    var rest := changed;
    Backend.EnumeratesNone(changed);
    while rest != {}
      invariant rest <= changed && Enumerates(order, changed - rest)
      invariant refs == PushedAll(refs0, DocrefFacts(x, tree, valid), order)
      decreases rest
    {
      var p :| p in rest;
      Backend.EnumeratesOneMore(order, changed, rest, p);
      PushedOneMore(refs0, DocrefFacts(x, tree, valid), order, p);
      order := order + [p];
      rest := rest - {p};
      if x.markdown(p) && tree[p].content != "" {
        var found := Resolve(x, p, tree[p].content, valid);
        refs := Push(refs, p, found);
      }
    }
    assert changed - rest == changed;
  }

  // ---- the whole run ----

  ghost function NewEntries(x: Extract, tree: Tree, r: Orders, force: bool, entries: seq<Entry>,
                            mem: map<string, MemEntry>, glossary: map<string, string>): seq<Entry> {
    var files, notes := LastHashes(entries, Doc), LastHashes(entries, Note);
    Filter(KeepsDoc(ChangedFiles(x, tree, force, files), tree.Keys), entries) +
    Filter(KeepsNote(ChangedNotes(mem, force, notes), mem.Keys), entries) +
    Embedded(x, AsPending(Doc, Concat(ScanOf(x, tree, force, files, glossary), r.files)) +
                AsPending(Note, Concat(NoteScanOf(mem, force, notes), r.topics)))
  }

  ghost function ChangedBy(x: Extract, tree: Tree, force: bool, entries: seq<Entry>): set<string> {
    ChangedFiles(x, tree, force, LastHashes(entries, Doc))
  }

  // The data one run stores, from the entries held and the collections loaded.
  ghost predicate Assembles(x: Extract, tree: Tree, r: Orders, force: bool, entries: seq<Entry>, l: IndexData,
      data: IndexData) {
    var changed, valid := ChangedBy(x, tree, force, entries), tree.Keys;
    && Enumerates(r.files, valid) && Enumerates(r.topics, l.mem.Keys) && Enumerates(r.code, changed) &&
        Enumerates(r.refs, changed)
    && data.index.entries == NewEntries(x, tree, r, force, entries, l.mem, l.glossary)
    && data.mem == l.mem && data.glossary == l.glossary
    && data.calls ==
         Filter(KeepsCall(changed, valid), if force then [] else l.calls) + Concat(CallFacts(x, tree), r.code)
    && data.metrics ==
         Filter(KeepsMetric(changed, valid), if force then [] else l.metrics) + Concat(MetricFacts(x, tree), r.code)
    && data.imports ==
         PushedAll(Erased(if force then map[] else l.imports, changed, valid), ImportFacts(x, tree), r.code)
    && data.docrefs ==
         PushedAll(Erased(if force then map[] else l.docrefs, changed, valid), DocrefFacts(x, tree, valid), r.refs)
    && data.exports == PushedAll(map[], ExportFacts(x, tree), r.code)
    && data.types == Concat(TypeFacts(x, tree), r.code)
  }

  method ScanAll(x: Extract, tree: Tree, files: seq<string>, force: bool, entries: seq<Entry>,
                 mem: map<string, MemEntry>, glossary: map<string, string>, batchSize: int)
    returns (out: seq<Entry>, changed: set<string>, valid: set<string>, ghost topics: seq<string>)
    requires Enumerates(files, tree.Keys)
    ensures valid == tree.Keys && changed == ChangedBy(x, tree, force, entries) && changed <= valid
    ensures Enumerates(topics, mem.Keys)
    ensures out == NewEntries(x, tree, Orders(files, topics, [], []), force, entries, mem, glossary)
  {
    hide Filter, Concat, Embedded, LastHashes, Enumerates, AsPending, Rescans, Pieces;
    var fileHashes, noteHashes := HashMaps(entries);
    var fileChunks;
    fileChunks, valid := ScanFiles(x, tree, files, force, fileHashes, glossary);
    var noteChunks;
    noteChunks, topics := ScanNotes(mem, force, noteHashes);
    changed := KeysOf(fileChunks);
    ScannedKeys(x, tree, files, force, fileHashes, glossary);
    NoteKeys(mem, topics, force, noteHashes);
    var docs := KeptDocs(entries, changed, valid);
    var notes := KeptNotes(entries, noteChunks, mem);
    var pending := Combine(fileChunks, noteChunks);
    out := EmbedPending(x, docs + notes, pending, batchSize);
  }

  // run_index.  The database handle is the index's own; nothing is stored unless the
  // final save commits.
  method RunIndex(x: Extract, db: Backend.Db, tree: Tree, files: seq<string>, rooted: bool, force: bool,
                  index: Index, batchSize: int, dim: nat, precision: Precision)
    returns (ok: bool, out: Index, ghost r: Orders, ghost l: IndexData, ghost data: IndexData, ghost o: Backend.Order)
    requires db.Idle() && Enumerates(files, tree.Keys)
    modifies db
    ensures db.Idle()
    ensures !ok || !rooted ==> db.durable == old(db.durable) && out == index
    ensures ok && rooted ==>
      && Backend.LoadedFrom(l, old(db.durable)) && Assembles(x, tree, r, force, index.entries, l, data)
      && out == data.index && out.dim == dim && out.precision == precision && r.files == files
      && Backend.Walks(o, data) && db.durable == Backend.Written(old(db.durable), data, o)
  {
    hide Backend.Written, Backend.Walks, Backend.LoadedFrom, NewEntries, ChangedBy, Concat, PushedAll, Filter,
      Enumerates, Erased;
    ok, out, r := false, index, Orders([], [], [], []);
    o := Backend.Order([], [], []);
    l := Canonical(db.work);
    CanonicalLoads(db.work);
    data := l;
    if !rooted {
      ok := true;
      return;
    }
    ok := db.Step();
    if !ok { return; }
    var mem := db.LoadMem();
    var glossary := db.work.glossary;
    var entries, changed, valid;
    ghost var topics, code, refs;
    entries, changed, valid, topics := ScanAll(x, tree, files, force, index.entries, mem, glossary, batchSize);
    var index' := Index(dim, precision, entries);
    var calls0, imports0, metrics0, docrefs0 := [], map[], [], map[];
    if !force {
      calls0 := db.LoadCallGraph();
      imports0 := db.LoadImportGraph();
      metrics0 := db.LoadMetrics();
      docrefs0 := db.LoadDocrefGraph();
      l := LoadedParts(db.work, calls0, imports0, metrics0, docrefs0);
    }
    calls0 := RemoveCalls(calls0, changed, valid);
    imports0 := EraseKeys(imports0, changed, valid);
    metrics0 := RemoveMetrics(metrics0, changed, valid);
    var calls, imports, metrics, exports, types;
    calls, imports, metrics, exports, types, code := ExtractCode(x, tree, changed, calls0, imports0, metrics0);
    docrefs0 := EraseKeys(docrefs0, changed, valid);
    var docrefs;
    docrefs, refs := ExtractRefs(x, tree, changed, valid, docrefs0);
    var stored := IndexData(index', mem, glossary, calls, imports, docrefs, exports, types, metrics);
    ok, o := db.SaveAll(stored);
    if ok {
      out := index';
      r := Orders(files, topics, code, refs);
      data := stored;
      SameScan(x, tree, files, topics, code, refs, force, index.entries, mem, glossary);
    }
  }

  lemma SameScan(x: Extract, tree: Tree, files: seq<string>, topics: seq<string>, code: seq<string>, refs: seq<string>,
                 force: bool, entries: seq<Entry>, mem: map<string, MemEntry>, glossary: map<string, string>)
    ensures NewEntries(x, tree, Orders(files, topics, [], []), force, entries, mem, glossary) ==
            NewEntries(x, tree, Orders(files, topics, code, refs), force, entries, mem, glossary)
  {
  }

  // A load that returns every row in table order.
  ghost function Canonical(t: Tables.Tables): IndexData {
    IndexData(Tables.IndexOf(t), Tables.MemOf(t), t.glossary,
              Mapped(Tables.CallOf, Tables.OfKind(t.edges, Tables.Call)),
              Group(Mapped(Tables.ImportOf, Tables.OfKind(t.edges, Tables.Import))),
              Group(Mapped(Tables.DocrefOf, Tables.OfKind(t.edges, Tables.Docref))),
              Group(t.exports),
              Mapped(Tables.TypeOf, Tables.OfKind(t.edges, Tables.Type)),
              t.metrics)
  }

  lemma CanonicalLoads(t: Tables.Tables)
    ensures Backend.LoadedFrom(Canonical(t), t)
  {
    hide Group, Mapped, Tables.OfKind;
  }

  ghost function LoadedParts(t: Tables.Tables, calls: seq<StoredCallEdge>, imports: map<string, seq<ImportInfo>>,
                             metrics: seq<Metric>, docrefs: map<string, seq<DocRef>>): (l: IndexData)
    ensures l.mem == Tables.MemOf(t) && l.glossary == t.glossary
    ensures l.calls == calls && l.imports == imports && l.metrics == metrics && l.docrefs == docrefs
    ensures
      && multiset(calls) == multiset(Mapped(Tables.CallOf, Tables.OfKind(t.edges, Tables.Call)))
      && SameGroups(imports, Group(Mapped(Tables.ImportOf, Tables.OfKind(t.edges, Tables.Import))))
      && SameGroups(docrefs, Group(Mapped(Tables.DocrefOf, Tables.OfKind(t.edges, Tables.Docref))))
      && multiset(metrics) == multiset(t.metrics)
      ==> Backend.LoadedFrom(l, t)
  {
    hide Group, Mapped, Tables.OfKind, Tables.MemOf, Tables.IndexOf;
    CanonicalLoads(t);
    Canonical(t).(calls := calls, imports := imports, metrics := metrics, docrefs := docrefs)
  }
}
