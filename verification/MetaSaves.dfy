// Stored embeddings across saves that rewrite only metadata.

module MetaSaves {
  import opened Half
  import opened Data
  import opened Filters
  import opened Tables
  import opened Backend
  import Operations

  // No two entries have the same (path, line).
  ghost predicate Unique(es: seq<Entry>) {
    forall a, b :: 0 <= a < b < |es| ==> KeyOf(es[a].meta) != KeyOf(es[b].meta)
  }

  ghost predicate HasKey(es: seq<Entry>, key: (string, nat)) {
    exists a :: 0 <= a < |es| && KeyOf(es[a].meta) == key
  }

  // The rows a full save leaves.
  ghost predicate FullySaved(index: Index, t: map<nat, Row>) {
    t == Numbered(RowsOf(index))
  }

  ghost predicate MetaSavedRows(before: map<nat, Row>, es: seq<Entry>, after: map<nat, Row>) {
    exists rows :: Reattached(before, Metas(es), rows) && after == Numbered(rows)
  }

  // A full save, then metadata-only saves of changing entry lists.
  ghost predicate Saves(index: Index, ess: seq<seq<Entry>>, ts: seq<map<nat, Row>>) {
    && |ess| == |ts| > 0
    && ess[0] == index.entries && FullySaved(index, ts[0])
    && forall i :: 0 < i < |ess| ==> MetaSavedRows(ts[i - 1], ess[i], ts[i])
  }

  // Present in every list since the full save.
  ghost predicate Alive(ess: seq<seq<Entry>>, key: (string, nat), i: nat)
    requires i < |ess|
  {
    forall j :: 0 <= j <= i ==> HasKey(ess[j], key)
  }

  ghost predicate RowsMatch(es: seq<Entry>, t: map<nat, Row>) {
    && (forall k: nat :: k in t <==> 1 <= k <= |es|)
    && (forall k: nat :: k in t ==> t[k].meta == es[k - 1].meta)
  }

  lemma SavedMatch(index: Index, ess: seq<seq<Entry>>, ts: seq<map<nat, Row>>, i: nat)
    requires Saves(index, ess, ts) && i < |ess|
    ensures RowsMatch(ess[i], ts[i])
  {
    hide Attached, Half.Stored, NumberedFrom;
    if i > 0 {
      assert MetaSavedRows(ts[i - 1], ess[i], ts[i]);
    }
  }

  // A blob the full save wrote under a key.
  ghost predicate WroteAt(index: Index, key: (string, nat), b: Blob) {
    exists a :: 0 <= a < |index.entries| && KeyOf(index.entries[a].meta) == key &&
                b == Half.Stored(index.entries[a].embedding, index.dim, index.precision)
  }

  lemma StoredOrNull(v: seq<word32>, dim: nat, p: Precision)
    ensures Empty(Half.Stored(v, dim, p)) ==> Half.Stored(v, dim, p) == Null
  {
  }

  // One metadata-only save: a row takes the blob of some earlier row with its key.
  lemma AttachedFrom(before: map<nat, Row>, key: (string, nat), b: Blob, j: nat) returns (k: nat)
    requires Attached(before, key, b) && j in before && KeyOf(before[j].meta) == key
    ensures k in before && KeyOf(before[k].meta) == key
    ensures b == if Empty(before[k].blob) then Null else before[k].blob
  {
    hide Empty;
    if m :| m in before && KeyOf(before[m].meta) == key && !Empty(before[m].blob) {
      k :| k in before && KeyOf(before[k].meta) == key && !Empty(before[k].blob) && before[k].blob == b;
    } else {
      k := j;
    }
  }

  lemma AttachedNone(before: map<nat, Row>, es: seq<Entry>, key: (string, nat), b: Blob)
    requires RowsMatch(es, before) && Attached(before, key, b) && !HasKey(es, key)
    ensures b == Null
  {
    forall j | j in before ensures KeyOf(before[j].meta) != key {
      assert KeyOf(es[j - 1].meta) == KeyOf(before[j].meta);
    }
  }

  // After any number of metadata-only saves, in whatever order entries now stand: a row
  // whose (path, line) has been present ever since the full save carries a blob that save
  // wrote under it; any other row carries none.
  lemma {:induction false} BlobsAfterMetaSaves(index: Index, ess: seq<seq<Entry>>, ts: seq<map<nat, Row>>, i: nat,
      k: nat)
    requires Saves(index, ess, ts) && i < |ess| && k in ts[i]
    ensures var key := KeyOf(ts[i][k].meta);
            if Alive(ess, key, i) then WroteAt(index, key, ts[i][k].blob) else ts[i][k].blob == Null
    decreases i
  {
    hide Attached, Half.Stored, NumberedFrom, RowsMatch, HasKey, Empty;
    SavedMatch(index, ess, ts, i);
    var key := KeyOf(ts[i][k].meta);
    RowHasKey(ess[i], ts[i], k);
    if i == 0 {
      FirstBlob(index, ts[0], k);
    } else {
      SavedMatch(index, ess, ts, i - 1);
      var rows :| Reattached(ts[i - 1], Metas(ess[i]), rows) && ts[i] == Numbered(rows);
      RowAttached(ts[i - 1], Metas(ess[i]), rows, k);
      if HasKey(ess[i - 1], key) {
        var any := KeyRow(ess[i - 1], ts[i - 1], key);
        var j := AttachedFrom(ts[i - 1], key, ts[i][k].blob, any);
        BlobsAfterMetaSaves(index, ess, ts, i - 1, j);
        if Alive(ess, key, i - 1) {
          WroteOrNull(index, key, ts[i - 1][j].blob);
        }
      } else {
        AttachedNone(ts[i - 1], ess[i - 1], key, ts[i][k].blob);
      }
    }
  }

  lemma RowHasKey(es: seq<Entry>, t: map<nat, Row>, k: nat)
    requires RowsMatch(es, t) && k in t
    ensures HasKey(es, KeyOf(t[k].meta))
  {
    assert KeyOf(es[k - 1].meta) == KeyOf(t[k].meta);
  }

  lemma KeyRow(es: seq<Entry>, t: map<nat, Row>, key: (string, nat)) returns (k: nat)
    requires RowsMatch(es, t) && HasKey(es, key)
    ensures k in t && KeyOf(t[k].meta) == key
  {
    var a :| 0 <= a < |es| && KeyOf(es[a].meta) == key;
    k := a + 1;
  }

  lemma RowAttached(before: map<nat, Row>, metas: seq<Meta>, rows: seq<Row>, k: nat)
    requires Reattached(before, metas, rows) && k in Numbered(rows)
    ensures Attached(before, KeyOf(Numbered(rows)[k].meta), Numbered(rows)[k].blob)
  {
    hide Attached, NumberedFrom;
  }

  lemma FirstBlob(index: Index, t: map<nat, Row>, k: nat)
    requires FullySaved(index, t) && k in t
    ensures WroteAt(index, KeyOf(t[k].meta), t[k].blob)
  {
    hide Half.Stored, NumberedFrom;
    assert t[k] == RowsOf(index)[k - 1];
  }

  lemma WroteOrNull(index: Index, key: (string, nat), b: Blob)
    requires WroteAt(index, key, b)
    ensures Empty(b) ==> b == Null
  {
    hide Empty, Half.Stored;
    var a :| 0 <= a < |index.entries| && b == Half.Stored(index.entries[a].embedding, index.dim, index.precision);
    StoredOrNull(index.entries[a].embedding, index.dim, index.precision);
  }

  // ---- adding and removing notes and files keeps (path, line) unique ----

  // Notes are on line 0, files' chunks on lines from 1.
  ghost predicate Lined(es: seq<Entry>) {
    forall e :: e in es ==> (e.meta.proto == Note <==> e.meta.line == 0)
  }

  lemma {:induction false} FilterUnique(f: Entry -> bool, es: seq<Entry>)
    requires Unique(es)
    ensures Unique(Filter(f, es))
  {
    if es != [] {
      var n := |es| - 1;
      FilterUnique(f, es[..n]);
      var kept := Filter(f, es[..n]);
      forall a | 0 <= a < |kept| ensures KeyOf(kept[a].meta) != KeyOf(es[n].meta) {
        FilterIn(f, es[..n], kept[a]);
        var b :| 0 <= b < n && es[b] == kept[a];
      }
    }
  }

  // Without the entries it replaces, nothing has the key of a new note or file entry.
  lemma ReplacedUnique(index: Index, m: Meta, vec: seq<word32>, dim: nat)
    requires Unique(index.entries) && Lined(index.entries)
    requires m.proto == Note <==> m.line == 0
    ensures Unique(Operations.Replaced(index, m, vec, dim).entries) &&
        Lined(Operations.Replaced(index, m, vec, dim).entries)
  {
    hide Filter;
    var kept := Filter(Operations.Others(m.proto, m.path), index.entries);
    FilterUnique(Operations.Others(m.proto, m.path), index.entries);
    forall a | 0 <= a < |kept| ensures KeyOf(kept[a].meta) != KeyOf(m) && kept[a] in index.entries {
      FilterIn(Operations.Others(m.proto, m.path), index.entries, kept[a]);
    }
  }

  lemma RemovedUnique(index: Index, topic: string)
    requires Unique(index.entries) && Lined(index.entries)
    ensures Unique(Filter(Operations.Others(Note, topic), index.entries)) &&
        Lined(Filter(Operations.Others(Note, topic), index.entries))
  {
    hide Filter;
    var kept := Filter(Operations.Others(Note, topic), index.entries);
    FilterUnique(Operations.Others(Note, topic), index.entries);
    forall e | e in kept ensures e in index.entries {
      FilterIn(Operations.Others(Note, topic), index.entries, e);
    }
  }

  // ---- runs of note jobs ----

  datatype NoteOp = Add(topic: string, hash: nat, vec: seq<word32>, dim: nat) | Rm(topic: string)

  ghost function AfterOp(index: Index, op: NoteOp): Index {
    match op
    case Add(topic, hash, vec, dim) => Operations.Replaced(index, Meta(Note, topic, topic, 0, 0, hash), vec, dim)
    case Rm(topic) => index.(entries := Filter(Operations.Others(Note, topic), index.entries))
  }

  ghost function AfterOps(index: Index, ops: seq<NoteOp>): Index {
    if ops == [] then index else AfterOp(AfterOps(index, ops[..|ops| - 1]), ops[|ops| - 1])
  }

  ghost function Lists(index: Index, ops: seq<NoteOp>): seq<seq<Entry>> {
    seq(|ops| + 1, i requires 0 <= i <= |ops| => AfterOps(index, ops[..i]).entries)
  }

  // A full save, then note adds and removes, each followed by its metadata-only save.
  ghost predicate NoteRun(index: Index, ops: seq<NoteOp>, ts: seq<map<nat, Row>>) {
    && |ts| == |ops| + 1 && FullySaved(index, ts[0])
    && forall i :: 0 < i < |ts| ==> MetaSavedRows(ts[i - 1], Lists(index, ops)[i], ts[i])
  }

  lemma {:induction false} OpsKeepUnique(index: Index, ops: seq<NoteOp>)
    requires Unique(index.entries) && Lined(index.entries)
    ensures Unique(AfterOps(index, ops).entries) && Lined(AfterOps(index, ops).entries)
  {
    hide Unique, Lined, Operations.Replaced;
    if ops != [] {
      var n := |ops| - 1;
      OpsKeepUnique(index, ops[..n]);
      match ops[n]
      case Add(topic, hash, vec, dim) =>
          ReplacedUnique(AfterOps(index, ops[..n]), Meta(Note, topic, topic, 0, 0, hash), vec, dim);
      case Rm(topic) => RemovedUnique(AfterOps(index, ops[..n]), topic);
    }
  }

  lemma {:induction false} OpsKeepLined(index: Index, ops: seq<NoteOp>)
    requires Lined(index.entries)
    ensures Lined(AfterOps(index, ops).entries)
  {
    hide Lined;
    if ops != [] {
      OpsKeepLined(index, ops[..|ops| - 1]);
      OpKeepsLined(AfterOps(index, ops[..|ops| - 1]), ops[|ops| - 1]);
    }
  }

  lemma OpKeepsLined(index: Index, op: NoteOp)
    requires Lined(index.entries)
    ensures Lined(AfterOp(index, op).entries)
  {
    hide Filter;
    forall e: Entry | e in Filter(Operations.Others(Note, op.topic), index.entries)
      ensures e in index.entries
    {
      FilterIn(Operations.Others(Note, op.topic), index.entries, e);
    }
  }

  lemma NoteRunSaves(index: Index, ops: seq<NoteOp>, ts: seq<map<nat, Row>>)
    requires NoteRun(index, ops, ts)
    ensures Saves(index, Lists(index, ops), ts)
  {
    hide AfterOps, FullySaved, MetaSavedRows;
    AfterNoOps(index);
    assert ops[..0] == [];
  }

  lemma AfterNoOps(index: Index)
    ensures AfterOps(index, []) == index
  {
  }

  // An operation that does not remove an entry's own note leaves its (path, line) present.
  lemma OpKeepsKey(index: Index, op: NoteOp, m: Meta)
    requires HasKey(index.entries, KeyOf(m)) && Lined(index.entries) && (m.proto == Note <==> m.line == 0)
    requires op.Rm? && m.proto == Note ==> op.topic != m.path
    ensures HasKey(AfterOp(index, op).entries, KeyOf(m))
  {
    hide Filter;
    var a :| 0 <= a < |index.entries| && KeyOf(index.entries[a].meta) == KeyOf(m);
    var e := index.entries[a];
    var out := AfterOp(index, op).entries;
    var kept := Filter(Operations.Others(Note, op.topic), index.entries);
    FilterIn(Operations.Others(Note, op.topic), index.entries, e);
    if e in kept {
      var b :| 0 <= b < |kept| && kept[b] == e;
      assert out[b] == e;
    } else {
      assert out[|kept|].meta.path == m.path;
    }
  }

  lemma {:induction false} SurvivorAlive(index: Index, ops: seq<NoteOp>, m: Meta, i: nat)
    requires i <= |ops| && Lined(index.entries) && HasKey(index.entries, KeyOf(m)) && (m.proto == Note <==> m.line == 0)
    requires m.proto == Note ==> forall j :: 0 <= j < i ==> !(ops[j].Rm? && ops[j].topic == m.path)
    ensures Alive(Lists(index, ops), KeyOf(m), i)
  {
    hide Lined, HasKey, AfterOp;
    if i == 0 {
      AfterNoOps(index);
      assert ops[..0] == [];
    } else {
      SurvivorAlive(index, ops, m, i - 1);
      assert ops[..i][..i - 1] == ops[..i - 1];
      OpsKeepLined(index, ops[..i - 1]);
      assert HasKey(Lists(index, ops)[i - 1], KeyOf(m));
      OpKeepsKey(AfterOps(index, ops[..i - 1]), ops[i - 1], m);
    }
  }

  // The (path, line) of every entry of the full save whose note is never removed keeps, byte
  // for byte, an embedding that save wrote under it, however the entries are reordered: the
  // entry's own, if no other entry had its (path, line).  This includes a note added again in
  // place: its stored embedding stays the old one until the next full save.
  lemma SurvivorKeepsBlob(index: Index, ops: seq<NoteOp>, ts: seq<map<nat, Row>>, a: nat)
    requires NoteRun(index, ops, ts) && Lined(index.entries) && a < |index.entries|
    requires index.entries[a].meta.proto == Note ==> forall j :: 0 <= j < |ops| ==>
        !(ops[j].Rm? && ops[j].topic == index.entries[a].meta.path)
    ensures exists k :: k in ts[|ops|] && KeyOf(ts[|ops|][k].meta) == KeyOf(index.entries[a].meta)
    ensures forall k :: k in ts[|ops|] && KeyOf(ts[|ops|][k].meta) == KeyOf(index.entries[a].meta) ==>
              && WroteAt(index, KeyOf(index.entries[a].meta), ts[|ops|][k].blob)
              && (OnlyHere(index.entries, a) ==>
                  ts[|ops|][k].blob == Half.Stored(index.entries[a].embedding, index.dim, index.precision))
  {
    hide AfterOps, FullySaved, MetaSavedRows, RowsMatch, Half.Stored, HasKey;
    var m, n := index.entries[a].meta, |ops|;
    var key := KeyOf(m);
    OwnKey(index, a);
    NoteRunSaves(index, ops, ts);
    SurvivorAlive(index, ops, m, n);
    SavedMatch(index, Lists(index, ops), ts, n);
    var row := KeyRow(Lists(index, ops)[n], ts[n], key);
    forall k | k in ts[n] && KeyOf(ts[n][k].meta) == key
      ensures WroteAt(index, key, ts[n][k].blob)
    {
      BlobsAfterMetaSaves(index, Lists(index, ops), ts, n, k);
    }
  }

  ghost predicate OnlyHere(es: seq<Entry>, a: nat)
    requires a < |es|
  {
    forall b :: 0 <= b < |es| && KeyOf(es[b].meta) == KeyOf(es[a].meta) ==> b == a
  }

  lemma OwnKey(index: Index, a: nat)
    requires a < |index.entries| && Lined(index.entries)
    ensures HasKey(index.entries, KeyOf(index.entries[a].meta))
    ensures index.entries[a].meta.proto == Note <==> index.entries[a].meta.line == 0
  {
  }

  // A note first added after the full save, or removed and added again, has no stored
  // embedding: its row's blob is null.
  lemma NewNoteHasNoBlob(index: Index, ops: seq<NoteOp>, ts: seq<map<nat, Row>>, k: nat, i: nat)
    requires NoteRun(index, ops, ts)
    requires i <= |ops| && k in ts[|ops|] && !HasKey(Lists(index, ops)[i], KeyOf(ts[|ops|][k].meta))
    ensures ts[|ops|][k].blob == Null
  {
    hide AfterOps, FullySaved, MetaSavedRows, HasKey;
    NoteRunSaves(index, ops, ts);
    BlobsAfterMetaSaves(index, Lists(index, ops), ts, |ops|, k);
  }

  // A note added again after a full save: its published entry has the new embedding, the row
  // stored for it the new hash and the old embedding.
  lemma StaleBlobArises() returns (index: Index, ops: seq<NoteOp>, ts: seq<map<nat, Row>>)
    ensures NoteRun(index, ops, ts) && |ops| == 1
    ensures AfterOps(index, ops).entries == [Entry(Meta(Note, "t", "t", 0, 0, 1), [1])]
    ensures 1 in ts[1] && ts[1][1].meta == Meta(Note, "t", "t", 0, 0, 1)
    ensures Half.Loaded(ts[1][1].blob, 1, F32) == [0]
  {
    hide Reattached, NumberedFrom, Half.Stored, Half.Loaded;
    var old0: seq<word32>, new0: seq<word32> := [0], [1];
    index := Index(1, F32, [Entry(Meta(Note, "t", "t", 0, 0, 0), old0)]);
    ops := [Add("t", 1, new0, 1)];
    var after := AfterOp(index, ops[0]);
    assert ops[..0] == [] && AfterOps(index, []) == index && AfterOps(index, ops) == after;
    FilterOne(Operations.Others(Note, "t"), index.entries[0]);
    assert after.entries == [Entry(Meta(Note, "t", "t", 0, 0, 1), new0)];
    var rows := ReattachExists(Numbered(RowsOf(index)), Metas(after.entries));
    ts := [Numbered(RowsOf(index)), Numbered(rows)];
    assert Lists(index, ops)[1] == after.entries by {
      assert ops[..1] == ops;
    }
    assert MetaSavedRows(ts[0], Lists(index, ops)[1], ts[1]);
    FirstRow(Numbered(RowsOf(index)), Metas(after.entries), rows);
    SurvivorKeepsBlob(index, ops, ts, 0);
    Half.OneTrip(old0, 1, F32);
    assert old0[..1] == old0;
  }

  lemma FirstRow(before: map<nat, Row>, metas: seq<Meta>, rows: seq<Row>)
    requires Reattached(before, metas, rows) && metas != []
    ensures 1 in Numbered(rows) && Numbered(rows)[1].meta == metas[0]
  {
    hide Attached;
  }
}
