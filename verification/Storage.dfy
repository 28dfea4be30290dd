// The stored form of an index: one database per index, rewritten collection by
// collection, each whole save in one transaction.

module Data {
  import opened Half
  import opened ImportGraphs
  import opened CallGraphs

  datatype Proto = Doc | Note

  datatype Meta = Meta(proto: Proto, path: string, chunk: string, line: nat, endLine: nat, hash: nat)

  datatype Entry = Entry(meta: Meta, embedding: seq<word32>)

  datatype Index = Index(dim: nat, precision: Precision, entries: seq<Entry>)

  datatype MemEntry = MemEntry(content: string, sources: seq<string>, timestamp: int)

  datatype DocRef = DocRef(external: bool, target: string, text: string)

  datatype TypeEdge = TypeEdge(name: string, parent: string, kind: string, file: string, line: nat)

  datatype Metric = Metric(file: string, name: string, complexity: nat, lines: nat, params: nat,
                           returned: nat, maxDepth: nat, line: nat)

  datatype IndexData = IndexData(
    index: Index,
    mem: map<string, MemEntry>,
    glossary: map<string, string>,
    calls: seq<StoredCallEdge>,
    imports: map<string, seq<ImportInfo>>,
    docrefs: map<string, seq<DocRef>>,
    exports: map<string, seq<string>>,
    types: seq<TypeEdge>,
    metrics: seq<Metric>)

  function Metas(entries: seq<Entry>): (m: seq<Meta>)
    ensures |m| == |entries|
  {
    seq(|entries|, i requires 0 <= i < |entries| => entries[i].meta)
  }
}

module Tables {
  import opened Half
  import opened Data
  import opened Separators
  import opened ImportGraphs
  import opened CallGraphs

  const SEP: char := '\U{001F}'

  datatype Row = Row(meta: Meta, blob: Blob)

  datatype NoteRow = NoteRow(content: string, timestamp: int, sources: string)

  datatype Kind = Call | Import | Docref | Type

  datatype EdgeRow = EdgeRow(kind: Kind, src: string, dst: string, file: string, line: nat, attrs: string)

  datatype Tables = Tables(
    dim: nat,
    precision: Precision,
    entries: map<nat, Row>,             // by rowid
    fts: map<nat, (string, string)>,    // the keyword index: (path, chunk) by rowid
    notes: map<string, NoteRow>,
    glossary: map<string, string>,
    edges: seq<EdgeRow>,                // four graphs in one table
    exports: seq<(string, string)>,
    metrics: seq<Metric>)

  // ---- entries ----

  lemma {:induction false} LargestExists(s: set<nat>)
    requires s != {}
    ensures exists k :: k in s && forall j :: j in s ==> j <= k
    decreases s
  {
    var x :| x in s;
    if forall j :: j in s ==> j <= x {
    } else {
      var y :| y in s && y > x;
      assert y in s - {x};
      LargestExists(s - {x});
      var k :| k in s - {x} && forall j :: j in s - {x} ==> j <= k;
      assert forall j :: j in s ==> j == x || j in s - {x};
    }
  }

  lemma {:induction false} SmallestExists(s: set<nat>, x: nat)
    requires x in s
    ensures exists k :: k in s && forall j :: j in s ==> k <= j
  {
    if y :| y in s && y < x {
      SmallestExists(s, y);
    } else {
      assert forall j :: j in s ==> x <= j;
    }
  }

  // The rowid an insert takes: one past the largest.
  function NextRowid(m: map<nat, Row>): (r: nat)
    ensures r !in m
    ensures m == map[] ==> r == 1
    ensures m != map[] ==> r - 1 in m && forall j :: j in m ==> j < r
  {
    if m == map[] then 1
    else
      LargestExists(m.Keys);
      var k :| k in m.Keys && forall j :: j in m.Keys ==> j <= k;
      k + 1
  }

  // Rows numbered from `b` in order.
  ghost function NumberedFrom<V>(rows: seq<V>, b: nat): (m: map<nat, V>)
    ensures forall k: nat :: k in m <==> b <= k < b + |rows|
    ensures forall k: nat :: k in m ==> m[k] == rows[k - b]
  {
    if rows == [] then map[]
    else
      var n := |rows| - 1;
      NumberedFrom(rows[..n], b)[b + n := rows[n]]
  }

  ghost function Numbered<V>(rows: seq<V>): map<nat, V> {
    NumberedFrom(rows, 1)
  }

  lemma InsertNumbers(rows: seq<Row>, r: Row)
    ensures NextRowid(Numbered(rows)) == |rows| + 1
    ensures Numbered(rows)[NextRowid(Numbered(rows)) := r] == Numbered(rows + [r])
  {
    var m := Numbered(rows);
    if rows == [] {
      assert m == map[];
    } else {
      assert |rows| in m;
    }
  }

  ghost function Least(s: set<nat>): (k: nat)
    requires s != {}
    ensures k in s && forall j :: j in s ==> k <= j
  {
    var x :| x in s;
    SmallestExists(s, x);
    var k :| k in s && forall j :: j in s ==> k <= j;
    k
  }

  // SELECT ... ORDER BY rowid.
  ghost function Scan<V>(m: map<nat, V>): seq<V>
    decreases m.Keys
  {
    if m == map[] then []
    else
      var k := Least(m.Keys);
      [m[k]] + Scan(m - {k})
  }

  lemma {:induction false} ScanNumbered<V>(rows: seq<V>, b: nat)
    ensures Scan(NumberedFrom(rows, b)) == rows
    decreases |rows|
  {
    hide NumberedFrom, Least;
    var m := NumberedFrom(rows, b);
    if rows == [] {
      assert m == map[];
    } else {
      assert b in m.Keys;
      assert Least(m.Keys) == b;
      assert m - {b} == NumberedFrom(rows[1..], b + 1);
      ScanNumbered(rows[1..], b + 1);
    }
  }

  function FtsOf(entries: map<nat, Row>): map<nat, (string, string)> {
    map k | k in entries :: (entries[k].meta.path, entries[k].meta.chunk)
  }

  ghost function RowOf(e: Entry, dim: nat, p: Precision): Row {
    Row(e.meta, Stored(e.embedding, dim, p))
  }

  ghost function RowsOf(index: Index): (rows: seq<Row>)
    ensures |rows| == |index.entries|
  {
    seq(|index.entries|, i requires 0 <= i < |index.entries| => RowOf(index.entries[i], index.dim, index.precision))
  }

  ghost function WithEntries(t: Tables, dim: nat, p: Precision, rows: seq<Row>): Tables {
    t.(dim := dim, precision := p, entries := Numbered(rows), fts := FtsOf(Numbered(rows)))
  }

  ghost function WithIndex(t: Tables, index: Index): Tables {
    WithEntries(t, index.dim, index.precision, RowsOf(index))
  }

  ghost function EntryOf(r: Row, dim: nat, p: Precision): Entry {
    Entry(r.meta, Loaded(r.blob, dim, p))
  }

  ghost function IndexOf(t: Tables): Index {
    var rows := Scan(t.entries);
    Index(t.dim, t.precision, seq(|rows|, i requires 0 <= i < |rows| => EntryOf(rows[i], t.dim, t.precision)))
  }

  // The stored entries are those published: the same metadata in the same order,
  // under rowids 1..N, and the keyword index covers exactly those rows.
  ghost predicate Aligned(t: Tables, metas: seq<Meta>) {
    && (forall k: nat :: k in t.entries <==> 1 <= k <= |metas|)
    && (forall k :: k in t.entries ==> t.entries[k].meta == metas[k - 1])
    && t.fts == FtsOf(t.entries)
  }

  lemma WithEntriesAligned(t: Tables, dim: nat, p: Precision, rows: seq<Row>, metas: seq<Meta>)
    requires |rows| == |metas| && forall i :: 0 <= i < |rows| ==> rows[i].meta == metas[i]
    ensures Aligned(WithEntries(t, dim, p, rows), metas)
  {
  }

  // ---- notes, glossary ----

  ghost function NoteOf(e: MemEntry): NoteRow {
    NoteRow(e.content, e.timestamp, Join(e.sources, SEP))
  }

  ghost function WithNotes(t: Tables, store: map<string, MemEntry>): Tables {
    t.(notes := map k | k in store :: NoteOf(store[k]))
  }

  ghost function MemOf(t: Tables): map<string, MemEntry> {
    map k | k in t.notes :: MemEntry(t.notes[k].content, Split(t.notes[k].sources, SEP), t.notes[k].timestamp)
  }

  // ---- edges ----

  function OfKind(edges: seq<EdgeRow>, kind: Kind): seq<EdgeRow> {
    if edges == [] then []
    else
      var n := |edges| - 1;
      OfKind(edges[..n], kind) + if edges[n].kind == kind then [edges[n]] else []
  }

  function NotOfKind(edges: seq<EdgeRow>, kind: Kind): seq<EdgeRow> {
    if edges == [] then []
    else
      var n := |edges| - 1;
      NotOfKind(edges[..n], kind) + if edges[n].kind != kind then [edges[n]] else []
  }

  // One graph rewritten in the shared table.
  ghost function WithEdges(t: Tables, kind: Kind, rows: seq<EdgeRow>): Tables {
    t.(edges := NotOfKind(t.edges, kind) + rows)
  }

  ghost predicate AllOfKind(rows: seq<EdgeRow>, kind: Kind) {
    forall i :: 0 <= i < |rows| ==> rows[i].kind == kind
  }

  lemma {:induction false} OfKindAppend(a: seq<EdgeRow>, b: seq<EdgeRow>, kind: Kind)
    ensures OfKind(a + b, kind) == OfKind(a, kind) + OfKind(b, kind)
  {
    if b == [] {
      assert a + b == a;
    } else {
      var n := |b| - 1;
      assert (a + b)[..|a + b| - 1] == a + b[..n];
      OfKindAppend(a, b[..n], kind);
    }
  }

  lemma {:induction false} OfOneKind(rows: seq<EdgeRow>, kind: Kind, k: Kind)
    requires AllOfKind(rows, kind)
    ensures OfKind(rows, k) == if k == kind then rows else []
  {
    if rows != [] {
      OfOneKind(rows[..|rows| - 1], kind, k);
    }
  }

  lemma OfKindOneMore(rows: seq<EdgeRow>, r: EdgeRow, k: Kind)
    ensures OfKind(rows + [r], k) == OfKind(rows, k) + if r.kind == k then [r] else []
  {
    assert (rows + [r])[..|rows|] == rows;
  }

  lemma {:induction false} OfKindDeleted(rows: seq<EdgeRow>, kind: Kind, k: Kind)
    ensures OfKind(NotOfKind(rows, kind), k) == if k == kind then [] else OfKind(rows, k)
  {
    if rows != [] {
      var n := |rows| - 1;
      OfKindDeleted(rows[..n], kind, k);
      DeletedStep(rows[..n], rows[n], kind, k);
      assert rows == rows[..n] + [rows[n]];
    }
  }

  lemma DeletedStep(rows: seq<EdgeRow>, r: EdgeRow, kind: Kind, k: Kind)
    requires OfKind(NotOfKind(rows, kind), k) == if k == kind then [] else OfKind(rows, k)
    ensures OfKind(NotOfKind(rows + [r], kind), k) == if k == kind then [] else OfKind(rows + [r], k)
  {
    hide OfKind;
    assert (rows + [r])[..|rows|] == rows;
    OfKindOneMore(rows, r, k);
    OfKindOneMore(NotOfKind(rows, kind), r, k);
    assert r.kind == kind ==> NotOfKind(rows + [r], kind) == NotOfKind(rows, kind);
  }

  // Saving one graph replaces its rows and leaves the other three graphs' rows alone.
  lemma EdgesOfOthersKept(t: Tables, kind: Kind, rows: seq<EdgeRow>, k: Kind)
    requires AllOfKind(rows, kind)
    ensures OfKind(WithEdges(t, kind, rows).edges, k) == if k == kind then rows else OfKind(t.edges, k)
  {
    OfKindAppend(NotOfKind(t.edges, kind), rows, k);
    OfKindDeleted(t.edges, kind, k);
    OfOneKind(rows, kind, k);
  }

  ghost function CallRow(e: StoredCallEdge): EdgeRow {
    EdgeRow(Call, e.caller, e.callee, e.file, e.line, "")
  }

  ghost function CallOf(r: EdgeRow): StoredCallEdge {
    StoredCallEdge(r.src, r.dst, r.file, r.line)
  }

  ghost function TypeRow(e: TypeEdge): EdgeRow {
    EdgeRow(Type, e.name, e.parent, e.file, e.line, e.kind)
  }

  ghost function TypeOf(r: EdgeRow): TypeEdge {
    TypeEdge(r.src, r.dst, r.attrs, r.file, r.line)
  }

  ghost function ImportRow(p: (string, ImportInfo)): EdgeRow {
    EdgeRow(Import, p.0, p.1.modulePath, "", 0, Join(p.1.symbols, SEP))
  }

  ghost function ImportOf(r: EdgeRow): (string, ImportInfo) {
    (r.src, ImportInfo(r.dst, Split(r.attrs, SEP)))
  }

  ghost function DocrefAttrs(d: DocRef): string {
    Join([if d.external then "1" else "0", d.text], SEP)
  }

  ghost function DocrefRow(p: (string, DocRef)): EdgeRow {
    EdgeRow(Docref, p.0, p.1.target, "", 0, DocrefAttrs(p.1))
  }

  ghost function DocrefOf(r: EdgeRow): (string, DocRef) {
    var parts := Split(r.attrs, SEP);
    (r.src, DocRef(parts != [] && parts[0] == "1", r.dst, if |parts| > 1 then parts[1] else ""))
  }
}

module Backend {
  import opened Half
  import opened Data
  import opened Separators
  import opened Grouping
  import opened ImportGraphs
  import opened CallGraphs
  import opened Tables

  // The order in which a save walks its keyed collections.
  datatype Order = Order(imports: seq<string>, docrefs: seq<string>, exports: seq<string>)

  ghost predicate Walks(o: Order, data: IndexData) {
    && Enumerates(o.imports, data.imports.Keys)
    && Enumerates(o.docrefs, data.docrefs.Keys)
    && Enumerates(o.exports, data.exports.Keys)
  }

  ghost function ImportRows(m: map<string, seq<ImportInfo>>, keys: seq<string>): seq<EdgeRow>
    requires forall k :: k in keys ==> k in m
  {
    Mapped(ImportRow, Flatten(m, keys))
  }

  ghost function DocrefRows(m: map<string, seq<DocRef>>, keys: seq<string>): seq<EdgeRow>
    requires forall k :: k in keys ==> k in m
  {
    Mapped(DocrefRow, Flatten(m, keys))
  }

  // The whole database after save_all, collection by collection in its order.
  ghost function Written(t: Tables, data: IndexData, o: Order): Tables
    requires Walks(o, data)
  {
    var t1 := WithNotes(WithIndex(t, data.index), data.mem).(glossary := data.glossary);
    var t2 := WithEdges(t1, Call, Mapped(CallRow, data.calls));
    var t3 := WithEdges(t2, Import, ImportRows(data.imports, o.imports));
    var t4 := WithEdges(t3, Docref, DocrefRows(data.docrefs, o.docrefs)).(exports := Flatten(data.exports, o.exports));
    WithEdges(t4, Type, Mapped(TypeRow, data.types)).(metrics := data.metrics)
  }

  // ---- the metadata-only save ----

  predicate Empty(b: Blob) {
    b == Null || b == Units([])
  }

  function KeyOf(m: Meta): (string, nat) {
    (m.path, m.line)
  }

  // What a row gets: the blob of a stored row with its (path, line), or none.
  ghost predicate Attached(before: map<nat, Row>, key: (string, nat), b: Blob) {
    if exists k :: k in before && KeyOf(before[k].meta) == key && !Empty(before[k].blob)
    then exists k :: k in before && KeyOf(before[k].meta) == key && !Empty(before[k].blob) && before[k].blob == b
    else b == Null
  }

  ghost predicate Reattached(before: map<nat, Row>, metas: seq<Meta>, rows: seq<Row>) {
    && |rows| == |metas|
    && forall i :: 0 <= i < |rows| ==> rows[i].meta == metas[i] && Attached(before, KeyOf(metas[i]), rows[i].blob)
  }

  // What has been set aside from the rows visited so far.
  ghost predicate SetAside(before: map<nat, Row>, rest: set<nat>, keep: map<(string, nat), Blob>) {
    && (forall k :: k in before && k !in rest && !Empty(before[k].blob) ==> KeyOf(before[k].meta) in keep)
    && (forall key :: key in keep ==>
          exists k :: k in before && KeyOf(before[k].meta) == key && !Empty(before[k].blob) &&
              before[k].blob == keep[key])
  }

  lemma SetAsideAttaches(before: map<nat, Row>, keep: map<(string, nat), Blob>, key: (string, nat))
    requires SetAside(before, {}, keep)
    ensures Attached(before, key, if key in keep then keep[key] else Null)
  {
  }

  lemma SetAsideOne(before: map<nat, Row>, rest: set<nat>, keep: map<(string, nat), Blob>, k: nat)
    requires SetAside(before, rest, keep) && k in before && k in rest
    ensures SetAside(before, rest - {k}, if Empty(before[k].blob) then keep
        else keep[KeyOf(before[k].meta) := before[k].blob])
  {
    hide Empty;
  }

  class Db {
    var durable: Tables // what a crash leaves
    var work: Tables    // what the connection sees
    var active: bool    // a transaction is open

    ghost predicate Idle()
      reads this
    {
      !active && work == durable
    }

    // Any statement may throw.
    method Step() returns (ok: bool) {
      ok := *;
    }

    method Begin()
      requires Idle()
      modifies this`active
      ensures active
    {
      active := true;
    }

    // Commit if all went well; the destructor rolls back otherwise.
    method Finish(done: bool) returns (ok: bool)
      requires active
      modifies this
      ensures Idle() && (ok ==> done)
      ensures durable == if ok then old(work) else old(durable)
    {
      ok := done;
      if ok {
        ok := Step();
      }
      if ok {
        durable := work;
      } else {
        work := durable;
      }
      active := false;
    }

    // One INSERT into the entry table.
    method InsertRow(r: Row, ghost rows: seq<Row>) returns (ok: bool)
      requires work.entries == Numbered(rows)
      modifies this`work
      ensures ok ==> work == old(work).(entries := Numbered(rows + [r]))
    {
      hide NextRowid, NumberedFrom;
      ok := Step();
      if ok {
        InsertNumbers(rows, r);
        work := work.(entries := work.entries[NextRowid(work.entries) := r]);
      }
    }

    method InsertEntries(index: Index) returns (ok: bool)
      requires work.entries == Numbered([])
      modifies this`work
      ensures ok ==> work == old(work).(entries := Numbered(RowsOf(index)))
    {
      hide Stored, NumberedFrom;
      ok := true;
      ghost var rows := RowsOf(index);
      for i := 0 to |index.entries|
        invariant ok && work == old(work).(entries := Numbered(rows[..i]))
      {
        var e := index.entries[i];
        var blob := Save(e.embedding, index.dim, index.precision);
        ok := InsertRow(Row(e.meta, blob), rows[..i]);
        if !ok { return; }
        assert rows[..i] + [rows[i]] == rows[..i + 1];
      }
      assert rows[..|index.entries|] == rows;
    }

    method SaveIndexLocked(index: Index) returns (ok: bool)
      requires active
      modifies this`work
      ensures ok ==> work == WithIndex(old(work), index)
    {
      hide RowsOf, FtsOf, NumberedFrom;
      ok := Step();
      if !ok { return; }
      work := work.(entries := map[]);
      NumberedNone();
      ok := Step();
      if !ok { return; }
      work := work.(dim := index.dim, precision := index.precision);
      ok := InsertEntries(index);
      if !ok { return; }
      ok := Step();
      if !ok { return; }
      work := work.(fts := FtsOf(work.entries));
    }

    // The stored blobs by (path, line); of two rows with one key, either.
    method SetBlobsAside() returns (ok: bool, keep: map<(string, nat), Blob>)
      ensures ok ==> SetAside(work.entries, {}, keep)
    {
      keep := map[];
      ok := true;
      var rest := work.entries.Keys;
      while rest != {}
        invariant rest <= work.entries.Keys && SetAside(work.entries, rest, keep)
        decreases rest
      {
        ok := Step();
        if !ok { return; }
        var k :| k in rest;
        SetAsideOne(work.entries, rest, keep, k);
        if !Empty(work.entries[k].blob) {
          keep := keep[KeyOf(work.entries[k].meta) := work.entries[k].blob];
        }
        rest := rest - {k};
      }
    }

    method InsertMetas(index: Index, keep: map<(string, nat), Blob>, ghost before: map<nat, Row>)
      returns (ok: bool, ghost rows: seq<Row>)
      requires work.entries == Numbered([]) && SetAside(before, {}, keep)
      modifies this`work
      ensures ok ==> Reattached(before, Metas(index.entries), rows) && work == old(work).(entries := Numbered(rows))
    {
      hide SetAside, Attached, NumberedFrom;
      ok, rows := true, [];
      for i := 0 to |index.entries|
        invariant ok && Reattached(before, Metas(index.entries)[..i], rows)
        invariant work == old(work).(entries := Numbered(rows))
      {
        var m := index.entries[i].meta;
        var blob := if KeyOf(m) in keep then keep[KeyOf(m)] else Null;
        ok := InsertRow(Row(m, blob), rows);
        if !ok { return; }
        SetAsideAttaches(before, keep, KeyOf(m));
        rows := rows + [Row(m, blob)];
      }
      assert Metas(index.entries)[..|index.entries|] == Metas(index.entries);
    }

    method SaveMetaOnlyLocked(index: Index) returns (ok: bool, ghost rows: seq<Row>)
      requires active
      modifies this`work
      ensures ok ==> Reattached(old(work.entries), Metas(index.entries), rows)
      ensures ok ==> work == WithEntries(old(work), index.dim, index.precision, rows)
    {
      hide SetAside, Reattached, FtsOf, NumberedFrom;
      rows := [];
      var keep;
      ok, keep := SetBlobsAside();
      if !ok { return; }
      ok := Step();
      if !ok { return; }
      work := work.(entries := map[], dim := index.dim, precision := index.precision);
      NumberedNone();
      ok, rows := InsertMetas(index, keep, old(work.entries));
      if !ok { return; }
      ok := Step();
      if !ok { return; }
      work := work.(fts := FtsOf(work.entries));
    }

    method SaveMemLocked(store: map<string, MemEntry>) returns (ok: bool)
      requires active
      modifies this`work
      ensures ok ==> work == WithNotes(old(work), store)
    {
      ok := Step();
      if !ok { return; }
      work := work.(notes := map[]);
      var rest := store.Keys;
      while rest != {}
        invariant ok && rest <= store.Keys
        invariant work == old(work).(notes := map k | k in store.Keys - rest :: NoteOf(store[k]))
        decreases rest
      {
        var k :| k in rest;
        var sources := JoinSep(store[k].sources, SEP);
        ok := Step();
        if !ok { return; }
        work := work.(notes := work.notes[k := NoteRow(store[k].content, store[k].timestamp, sources)]);
        rest := rest - {k};
      }
    }

    method SaveGlossaryLocked(glossary: map<string, string>) returns (ok: bool)
      requires active
      modifies this`work
      ensures ok ==> work == old(work).(glossary := glossary)
    {
      ok := Step();
      if !ok { return; }
      work := work.(glossary := map[]);
      var rest := glossary.Keys;
      while rest != {}
        invariant ok && rest <= glossary.Keys
        invariant work == old(work).(glossary := map k | k in glossary.Keys - rest :: glossary[k])
        decreases rest
      {
        var k :| k in rest;
        ok := Step();
        if !ok { return; }
        work := work.(glossary := work.glossary[k := glossary[k]]);
        rest := rest - {k};
      }
    }

    method DeleteKind(kind: Kind) returns (ok: bool)
      modifies this`work
      ensures ok ==> work == old(work).(edges := NotOfKind(old(work).edges, kind))
    {
      ok := Step();
      if ok {
        work := work.(edges := NotOfKind(work.edges, kind));
      }
    }

    method InsertEdge(row: EdgeRow) returns (ok: bool)
      modifies this`work
      ensures ok ==> work == old(work).(edges := old(work).edges + [row])
    {
      ok := Step();
      if ok {
        work := work.(edges := work.edges + [row]);
      }
    }

    method SaveCallGraphLocked(calls: seq<StoredCallEdge>) returns (ok: bool)
      requires active
      modifies this`work
      ensures ok ==> work == WithEdges(old(work), Call, Mapped(CallRow, calls))
    {
      ok := DeleteKind(Call);
      if !ok { return; }
      ghost var rows := Mapped(CallRow, calls);
      for i := 0 to |calls|
        invariant ok && work == WithEdges(old(work), Call, rows[..i])
      {
        var e := calls[i];
        ok := InsertEdge(EdgeRow(Call, e.caller, e.callee, e.file, e.line, ""));
        if !ok { return; }
        assert rows[..i + 1] == rows[..i] + [rows[i]];
      }
      assert rows[..|calls|] == rows;
    }

    method SaveTypeGraphLocked(types: seq<TypeEdge>) returns (ok: bool)
      requires active
      modifies this`work
      ensures ok ==> work == WithEdges(old(work), Type, Mapped(TypeRow, types))
    {
      ok := DeleteKind(Type);
      if !ok { return; }
      ghost var rows := Mapped(TypeRow, types);
      for i := 0 to |types|
        invariant ok && work == WithEdges(old(work), Type, rows[..i])
      {
        var e := types[i];
        ok := InsertEdge(EdgeRow(Type, e.name, e.parent, e.file, e.line, e.kind));
        if !ok { return; }
        assert rows[..i + 1] == rows[..i] + [rows[i]];
      }
      assert rows[..|types|] == rows;
    }

    method InsertImports(file: string, imps: seq<ImportInfo>) returns (ok: bool)
      modifies this`work
      ensures ok ==> work == old(work).(edges := old(work).edges + Mapped(ImportRow, Tag(file, imps)))
    {
      ok := true;
      ghost var rows := Mapped(ImportRow, Tag(file, imps));
      for i := 0 to |imps|
        invariant ok && work == old(work).(edges := old(work).edges + rows[..i])
      {
        var attrs := JoinSep(imps[i].symbols, SEP);
        ok := InsertEdge(EdgeRow(Import, file, imps[i].modulePath, "", 0, attrs));
        if !ok { return; }
        assert rows[..i + 1] == rows[..i] + [rows[i]];
      }
      assert rows[..|imps|] == rows;
    }

    method SaveImportGraphLocked(imports: map<string, seq<ImportInfo>>) returns (ok: bool, ghost keys: seq<string>)
      requires active
      modifies this`work
      ensures ok ==> Enumerates(keys, imports.Keys) && work == WithEdges(old(work), Import, ImportRows(imports, keys))
    {
      hide WithEdges, Mapped, Flatten, Enumerates, NotOfKind, Tag;
      keys := [];
      ok := DeleteKind(Import);
      if !ok { return; }
      var rest := imports.Keys;
      EnumeratesNone(rest);
      WithNoEdges(old(work), Import, ImportRow, imports);
      while rest != {}
        invariant ok && rest <= imports.Keys && Enumerates(keys, imports.Keys - rest) &&
            (forall k :: k in keys ==> k in imports)
        invariant work == WithEdges(old(work), Import, Mapped(ImportRow, Flatten(imports, keys)))
        decreases rest
      {
        var k :| k in rest;
        ok := InsertImports(k, imports[k]);
        if !ok { return; }
        EnumeratesOneMore(keys, imports.Keys, rest, k);
        WithMoreEdges(old(work), Import, ImportRow, imports, keys, k);
        keys := keys + [k];
        rest := rest - {k};
      }
      assert imports.Keys - rest == imports.Keys;
    }

    method InsertDocrefs(file: string, refs: seq<DocRef>) returns (ok: bool)
      modifies this`work
      ensures ok ==> work == old(work).(edges := old(work).edges + Mapped(DocrefRow, Tag(file, refs)))
    {
      hide Join;
      ok := true;
      ghost var rows := Mapped(DocrefRow, Tag(file, refs));
      for i := 0 to |refs|
        invariant ok && work == old(work).(edges := old(work).edges + rows[..i])
      {
        var attrs := JoinSep([if refs[i].external then "1" else "0", refs[i].text], SEP);
        ok := InsertEdge(EdgeRow(Docref, file, refs[i].target, "", 0, attrs));
        if !ok { return; }
        assert rows[..i + 1] == rows[..i] + [rows[i]];
      }
      assert rows[..|refs|] == rows;
    }

    method SaveDocrefGraphLocked(refs: map<string, seq<DocRef>>) returns (ok: bool, ghost keys: seq<string>)
      requires active
      modifies this`work
      ensures ok ==> Enumerates(keys, refs.Keys) && work == WithEdges(old(work), Docref, DocrefRows(refs, keys))
    {
      hide WithEdges, Mapped, Flatten, Enumerates, NotOfKind, Tag;
      keys := [];
      ok := DeleteKind(Docref);
      if !ok { return; }
      var rest := refs.Keys;
      EnumeratesNone(rest);
      WithNoEdges(old(work), Docref, DocrefRow, refs);
      while rest != {}
        invariant ok && rest <= refs.Keys && Enumerates(keys, refs.Keys - rest) && (forall k :: k in keys ==> k in refs)
        invariant work == WithEdges(old(work), Docref, Mapped(DocrefRow, Flatten(refs, keys)))
        decreases rest
      {
        var k :| k in rest;
        ok := InsertDocrefs(k, refs[k]);
        if !ok { return; }
        EnumeratesOneMore(keys, refs.Keys, rest, k);
        WithMoreEdges(old(work), Docref, DocrefRow, refs, keys, k);
        keys := keys + [k];
        rest := rest - {k};
      }
      assert refs.Keys - rest == refs.Keys;
    }

    method InsertExports(file: string, symbols: seq<string>) returns (ok: bool)
      modifies this`work
      ensures ok ==> work == old(work).(exports := old(work).exports + Tag(file, symbols))
    {
      ok := true;
      for i := 0 to |symbols|
        invariant ok && work == old(work).(exports := old(work).exports + Tag(file, symbols)[..i])
      {
        ok := Step();
        if !ok { return; }
        work := work.(exports := work.exports + [(file, symbols[i])]);
      }
      assert Tag(file, symbols)[..|symbols|] == Tag(file, symbols);
    }

    method SaveExportStoreLocked(exports: map<string, seq<string>>) returns (ok: bool, ghost keys: seq<string>)
      requires active
      modifies this`work
      ensures ok ==> Enumerates(keys, exports.Keys) && work == old(work).(exports := Flatten(exports, keys))
    {
      hide Tag;
      keys := [];
      ok := Step();
      if !ok { return; }
      work := work.(exports := []);
      var rest := exports.Keys;
      while rest != {}
        invariant ok && rest <= exports.Keys && Enumerates(keys, exports.Keys - rest) &&
            (forall k :: k in keys ==> k in exports)
        invariant work == old(work).(exports := Flatten(exports, keys))
        decreases rest
      {
        var k :| k in rest;
        ok := InsertExports(k, exports[k]);
        if !ok { return; }
        EnumeratesOneMore(keys, exports.Keys, rest, k);
        assert (keys + [k])[..|keys|] == keys;
        keys := keys + [k];
        rest := rest - {k};
      }
      assert exports.Keys - rest == exports.Keys;
    }

    method SaveMetricsLocked(metrics: seq<Metric>) returns (ok: bool)
      requires active
      modifies this`work
      ensures ok ==> work == old(work).(metrics := metrics)
    {
      ok := Step();
      if !ok { return; }
      work := work.(metrics := []);
      for i := 0 to |metrics|
        invariant ok && work == old(work).(metrics := metrics[..i])
      {
        ok := Step();
        if !ok { return; }
        work := work.(metrics := work.metrics + [metrics[i]]);
      }
    }

    method SaveAllLocked(data: IndexData) returns (ok: bool, ghost o: Order)
      requires active
      modifies this`work
      ensures ok ==> Walks(o, data) && work == Written(old(work), data, o)
    {
      hide WithIndex, WithNotes, WithEdges, Mapped, Flatten, Enumerates, ImportRows, DocrefRows;
      ghost var imports, docrefs, exports := [], [], [];
      o := Order(imports, docrefs, exports);
      ok := SaveIndexLocked(data.index);
      if !ok { return; }
      ok := SaveMemLocked(data.mem);
      if !ok { return; }
      ok := SaveGlossaryLocked(data.glossary);
      if !ok { return; }
      ok := SaveCallGraphLocked(data.calls);
      if !ok { return; }
      ok, imports := SaveImportGraphLocked(data.imports);
      if !ok { return; }
      ok, docrefs := SaveDocrefGraphLocked(data.docrefs);
      if !ok { return; }
      ok, exports := SaveExportStoreLocked(data.exports);
      if !ok { return; }
      ok := SaveTypeGraphLocked(data.types);
      if !ok { return; }
      ok := SaveMetricsLocked(data.metrics);
      o := Order(imports, docrefs, exports);
    }

    // All nine collections in one transaction: whatever statement fails, what a crash
    // leaves is the whole new index or the whole old one.
    method SaveAll(data: IndexData) returns (ok: bool, ghost o: Order)
      requires Idle()
      modifies this
      ensures Idle()
      ensures ok ==> Walks(o, data) && durable == Written(old(durable), data, o)
      ensures !ok ==> durable == old(durable)
    {
      hide Written, Walks;
      ok := Step();
      o := Order([], [], []);
      if !ok { return; }
      Begin();
      ok, o := SaveAllLocked(data);
      ok := Finish(ok);
    }

    method SaveIndex(index: Index) returns (ok: bool)
      requires Idle()
      modifies this
      ensures Idle() && durable == if ok then WithIndex(old(durable), index) else old(durable)
    {
      hide WithIndex;
      ok := Step();
      if !ok { return; }
      Begin();
      ok := SaveIndexLocked(index);
      ok := Finish(ok);
    }

    method SaveMetaOnly(index: Index) returns (ok: bool, ghost rows: seq<Row>)
      requires Idle()
      modifies this
      ensures Idle()
      ensures ok ==> Reattached(old(durable).entries, Metas(index.entries), rows)
      ensures durable == if ok then WithEntries(old(durable), index.dim, index.precision, rows) else old(durable)
    {
      hide WithEntries, Reattached;
      ok := Step();
      rows := [];
      if !ok { return; }
      Begin();
      ok, rows := SaveMetaOnlyLocked(index);
      ok := Finish(ok);
    }

    method SaveMem(store: map<string, MemEntry>) returns (ok: bool)
      requires Idle()
      modifies this
      ensures Idle() && durable == if ok then WithNotes(old(durable), store) else old(durable)
    {
      hide WithNotes;
      ok := Step();
      if !ok { return; }
      Begin();
      ok := SaveMemLocked(store);
      ok := Finish(ok);
    }

    method SaveGlossary(glossary: map<string, string>) returns (ok: bool)
      requires Idle()
      modifies this
      ensures Idle() && durable == if ok then old(durable).(glossary := glossary) else old(durable)
    {
      ok := Step();
      if !ok { return; }
      Begin();
      ok := SaveGlossaryLocked(glossary);
      ok := Finish(ok);
    }

    method LoadIndex() returns (idx: Index)
      ensures idx == IndexOf(work)
    {
      hide Loaded;
      var entries: seq<Entry> := [];
      var rest := work.entries;
      ghost var rows := Scan(work.entries);
      assert rows[|entries|..] == rows;
      while rest != map[]
        invariant |entries| <= |rows| && Scan(rest) == rows[|entries|..]
        invariant forall i :: 0 <= i < |entries| ==> entries[i] == EntryOf(rows[i], work.dim, work.precision)
        decreases rest.Keys
      {
        var k := LeastRowid(rest);
        var v := Load(rest[k].blob, work.dim, work.precision);
        entries := entries + [Entry(rest[k].meta, v)];
        rest := rest - {k};
      }
      idx := Index(work.dim, work.precision, entries);
    }

    method LeastRowid(m: map<nat, Row>) returns (k: nat)
      requires m != map[]
      ensures k == Least(m.Keys)
    {
      var s := m.Keys;
      k :| k in s;
      s := s - {k};
      while s != {}
        invariant s <= m.Keys && k in m.Keys - s && forall j :: j in m.Keys - s ==> k <= j
        decreases s
      {
        var j :| j in s;
        assert m.Keys - (s - {j}) == m.Keys - s + {j};
        if j < k {
          k := j;
        }
        s := s - {j};
      }
      assert m.Keys - s == m.Keys;
    }

    method LoadMem() returns (store: map<string, MemEntry>)
      ensures store == MemOf(work)
    {
      hide Split;
      store := map[];
      var rest := work.notes.Keys;
      while rest != {}
        invariant rest <= work.notes.Keys
        invariant store == map k | k in work.notes.Keys - rest ::
                    MemEntry(work.notes[k].content, Split(work.notes[k].sources, SEP), work.notes[k].timestamp)
        decreases rest
      {
        var k :| k in rest;
        var sources := SplitSep(work.notes[k].sources, SEP);
        store := store[k := MemEntry(work.notes[k].content, sources, work.notes[k].timestamp)];
        rest := rest - {k};
      }
    }

    // No ORDER BY: the rows of a kind come in any order.
    method SelectEdges(kind: Kind) returns (rows: seq<EdgeRow>)
      ensures multiset(rows) == multiset(OfKind(work.edges, kind))
    {
      rows := OfKind(work.edges, kind);
    }

    method LoadCallGraph() returns (calls: seq<StoredCallEdge>)
      ensures multiset(calls) == multiset(Mapped(CallOf, OfKind(work.edges, Call)))
    {
      hide OfKind;
      var rows := SelectEdges(Call);
      calls := [];
      for i := 0 to |rows|
        invariant calls == Mapped(CallOf, rows)[..i]
      {
        assert Mapped(CallOf, rows)[i] == CallOf(rows[i]);
        calls := calls + [StoredCallEdge(rows[i].src, rows[i].dst, rows[i].file, rows[i].line)];
      }
      assert calls == Mapped(CallOf, rows);
      MappedPermuted(CallOf, rows, OfKind(work.edges, Call));
    }

    method LoadTypeGraph() returns (types: seq<TypeEdge>)
      ensures multiset(types) == multiset(Mapped(TypeOf, OfKind(work.edges, Type)))
    {
      hide OfKind;
      var rows := SelectEdges(Type);
      types := [];
      for i := 0 to |rows|
        invariant types == Mapped(TypeOf, rows)[..i]
      {
        assert Mapped(TypeOf, rows)[i] == TypeOf(rows[i]);
        types := types + [TypeEdge(rows[i].src, rows[i].dst, rows[i].attrs, rows[i].file, rows[i].line)];
      }
      assert types == Mapped(TypeOf, rows);
      MappedPermuted(TypeOf, rows, OfKind(work.edges, Type));
    }

    method LoadImportGraph() returns (imports: map<string, seq<ImportInfo>>)
      ensures SameGroups(imports, Group(Mapped(ImportOf, OfKind(work.edges, Import))))
    {
      hide OfKind, Split;
      var rows := SelectEdges(Import);
      ghost var ps := Mapped(ImportOf, rows);
      imports := map[];
      for i := 0 to |rows|
        invariant imports == Group(ps[..i])
      {
        assert ps[..i + 1][..i] == ps[..i];
        var symbols := SplitSep(rows[i].attrs, SEP);
        var file := rows[i].src;
        var imp := ImportInfo(rows[i].dst, symbols);
        assert ps[i] == (file, imp);
        imports := imports[file := (if file in imports then imports[file] else []) + [imp]];
      }
      assert ps[..|rows|] == ps;
      MappedPermuted(ImportOf, rows, OfKind(work.edges, Import));
      GroupPermuted(ps, Mapped(ImportOf, OfKind(work.edges, Import)));
    }

    method LoadDocrefGraph() returns (refs: map<string, seq<DocRef>>)
      ensures SameGroups(refs, Group(Mapped(DocrefOf, OfKind(work.edges, Docref))))
    {
      hide OfKind, Split;
      var rows := SelectEdges(Docref);
      ghost var ps := Mapped(DocrefOf, rows);
      refs := map[];
      for i := 0 to |rows|
        invariant refs == Group(ps[..i])
      {
        assert ps[..i + 1][..i] == ps[..i];
        var parts := SplitSep(rows[i].attrs, SEP);
        var file := rows[i].src;
        var d := DocRef(parts != [] && parts[0] == "1", rows[i].dst, if |parts| > 1 then parts[1] else "");
        assert ps[i] == (file, d);
        refs := refs[file := (if file in refs then refs[file] else []) + [d]];
      }
      assert ps[..|rows|] == ps;
      MappedPermuted(DocrefOf, rows, OfKind(work.edges, Docref));
      GroupPermuted(ps, Mapped(DocrefOf, OfKind(work.edges, Docref)));
    }

    method LoadExportStore() returns (exports: map<string, seq<string>>)
      ensures SameGroups(exports, Group(work.exports))
    {
      var rows := SelectExports();
      exports := map[];
      for i := 0 to |rows|
        invariant exports == Group(rows[..i])
      {
        assert rows[..i + 1][..i] == rows[..i];
        var file := rows[i].0;
        exports := exports[file := (if file in exports then exports[file] else []) + [rows[i].1]];
      }
      assert rows[..|rows|] == rows;
      GroupPermuted(rows, work.exports);
    }

    method SelectExports() returns (rows: seq<(string, string)>)
      ensures multiset(rows) == multiset(work.exports)
    {
      rows := work.exports;
    }

    method LoadMetrics() returns (metrics: seq<Metric>)
      ensures multiset(metrics) == multiset(work.metrics)
    {
      metrics := work.metrics;
    }

    method LoadAll() returns (data: IndexData)
      ensures LoadedFrom(data, work)
    {
      hide IndexOf, MemOf, Mapped, Group, SameGroups, OfKind;
      var index := LoadIndex();
      var mem := LoadMem();
      var calls := LoadCallGraph();
      var imports := LoadImportGraph();
      var docrefs := LoadDocrefGraph();
      var exports := LoadExportStore();
      var types := LoadTypeGraph();
      var metrics := LoadMetrics();
      data := IndexData(index, mem, work.glossary, calls, imports, docrefs, exports, types, metrics);
    }
  }

  ghost predicate LoadedFrom(data: IndexData, t: Tables) {
    && data.index == IndexOf(t)
    && data.mem == MemOf(t)
    && data.glossary == t.glossary
    && multiset(data.calls) == multiset(Mapped(CallOf, OfKind(t.edges, Call)))
    && SameGroups(data.imports, Group(Mapped(ImportOf, OfKind(t.edges, Import))))
    && SameGroups(data.docrefs, Group(Mapped(DocrefOf, OfKind(t.edges, Docref))))
    && SameGroups(data.exports, Group(t.exports))
    && multiset(data.types) == multiset(Mapped(TypeOf, OfKind(t.edges, Type)))
    && multiset(data.metrics) == multiset(t.metrics)
  }

  // Whatever rows there were, some rows result from reattaching their blobs.
  lemma {:induction false} ReattachExists(before: map<nat, Row>, metas: seq<Meta>)
    returns (rows: seq<Row>)
    ensures Reattached(before, metas, rows)
  {
    hide Empty;
    if metas == [] {
      rows := [];
    } else {
      var n := |metas| - 1;
      var rows0 := ReattachExists(before, metas[..n]);
      var b := AttachExists(before, KeyOf(metas[n]));
      rows := rows0 + [Row(metas[n], b)];
    }
  }

  lemma AttachExists(before: map<nat, Row>, key: (string, nat)) returns (b: Blob)
    ensures Attached(before, key, b)
  {
    hide Empty;
    if k :| k in before && KeyOf(before[k].meta) == key && !Empty(before[k].blob) {
      b := before[k].blob;
    } else {
      b := Null;
    }
  }

  lemma NumberedNone()
    ensures Numbered<Row>([]) == map[]
  {
  }

  lemma WithNoEdges<V>(t: Tables, kind: Kind, f: ((string, V)) -> EdgeRow, m: map<string, seq<V>>)
    ensures WithEdges(t, kind, Mapped(f, Flatten(m, []))) == t.(edges := NotOfKind(t.edges, kind))
  {
  }

  lemma WithMoreEdges<V>(t: Tables, kind: Kind, f: ((string, V)) -> EdgeRow, m: map<string, seq<V>>,
      keys: seq<string>, k: string)
    requires k in m && forall j :: j in keys ==> j in m
    ensures var w := WithEdges(t, kind, Mapped(f, Flatten(m, keys)));
            (forall j :: j in keys + [k] ==> j in m) &&
            WithEdges(t, kind, Mapped(f, Flatten(m, keys + [k]))) == w.(edges := w.edges + Mapped(f, Tag(k, m[k])))
  {
    hide NotOfKind;
    assert (keys + [k])[..|keys|] == keys;
    MappedAppend(f, Flatten(m, keys), Tag(k, m[k]));
    var a, b := Mapped(f, Flatten(m, keys)), Mapped(f, Tag(k, m[k]));
    assert NotOfKind(t.edges, kind) + a + b == NotOfKind(t.edges, kind) + (a + b);
  }

  lemma EnumeratesNone(s: set<string>)
    ensures Enumerates([], s - s)
  {
  }

  lemma EnumeratesOneMore(keys: seq<string>, s: set<string>, rest: set<string>, k: string)
    requires Enumerates(keys, s - rest) && rest <= s && k in rest
    ensures Enumerates(keys + [k], s - (rest - {k})) && forall j :: j in keys + [k] ==> j in s
  {
  }
}
