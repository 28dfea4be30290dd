// What the database gives back: whole saves, and runs of metadata-only saves.

module RoundTrip {
  import opened Half
  import opened Data
  import opened Separators
  import opened Grouping
  import opened ImportGraphs
  import opened CallGraphs
  import opened Tables
  import opened Backend

  ghost function NormalImport(i: ImportInfo): ImportInfo {
    ImportInfo(i.modulePath, Normal(i.symbols))
  }

  ghost function KeptEntry(e: Entry, dim: nat, p: Precision): Entry {
    Entry(e.meta, Kept(e.embedding, dim, p))
  }

  ghost function KeptIndex(index: Index): Index {
    index.(entries := seq(|index.entries|, i requires 0 <= i < |index.entries| =>
      KeptEntry(index.entries[i], index.dim, index.precision)))
  }

  ghost function NormalMem(store: map<string, MemEntry>): map<string, MemEntry> {
    map k | k in store :: store[k].(sources := Normal(store[k].sources))
  }

  // The saved data, up to: row order; keys with empty lists; the list [""], read back
  // empty; embeddings cut to dim and, under F16, rounded.
  ghost predicate NormalForm(data: IndexData, out: IndexData) {
    && out.index == KeptIndex(data.index)
    && out.mem == NormalMem(data.mem)
    && out.glossary == data.glossary
    && multiset(out.calls) == multiset(data.calls)
    && SameGroups(out.imports, DropEmpty(MapLists(NormalImport, data.imports)))
    && SameGroups(out.docrefs, DropEmpty(data.docrefs))
    && SameGroups(out.exports, DropEmpty(data.exports))
    && multiset(out.types) == multiset(data.types)
    && multiset(out.metrics) == multiset(data.metrics)
  }

  ghost predicate CleanMem(store: map<string, MemEntry>) {
    forall k :: k in store ==> AllFree(store[k].sources, SEP)
  }

  ghost predicate CleanImports(m: map<string, seq<ImportInfo>>) {
    forall k :: k in m ==> forall i :: 0 <= i < |m[k]| ==> AllFree(m[k][i].symbols, SEP)
  }

  ghost predicate CleanDocrefs(m: map<string, seq<DocRef>>) {
    forall k :: k in m ==> forall i :: 0 <= i < |m[k]| ==> Free(m[k][i].text, SEP)
  }

  // ---- entries ----

  lemma IndexReadBack(t: Tables, index: Index)
    ensures IndexOf(WithIndex(t, index)) == KeptIndex(index)
  {
    hide Stored, Loaded, Kept, FtsOf, NumberedFrom, Scan;
    ScanNumbered(RowsOf(index), 1);
    forall i | 0 <= i < |index.entries|
      ensures EntryOf(RowsOf(index)[i], index.dim, index.precision) == KeptIndex(index).entries[i]
    {
      OneTrip(index.entries[i].embedding, index.dim, index.precision);
    }
  }

  // ---- notes ----

  lemma MemReadBackIff(t: Tables, store: map<string, MemEntry>)
    ensures MemOf(WithNotes(t, store)) == NormalMem(store) <==> CleanMem(store)
  {
    hide Split, Join, AllFree;
    var m := MemOf(WithNotes(t, store));
    forall k | k in store
      ensures Split(Join(store[k].sources, SEP), SEP) == Normal(store[k].sources) <==> AllFree(store[k].sources, SEP)
    {
      NormalIff(store[k].sources);
    }
    assert forall k :: k in store ==> m[k].sources == Split(Join(store[k].sources, SEP), SEP);
    if m == NormalMem(store) {
      forall k | k in store ensures AllFree(store[k].sources, SEP) {
        assert m[k].sources == Normal(store[k].sources);
      }
    }
  }

  lemma NormalIff(v: seq<string>)
    ensures Split(Join(v, SEP), SEP) == Normal(v) <==> AllFree(v, SEP)
  {
    hide Split, Join;
    SplitJoinIff(v, SEP);
    if AllFree(v, SEP) {
      SplitJoinNormal(v, SEP);
    }
  }

  // ---- keyed collections ----

  lemma {:induction false} FlattenFrom<V>(m: map<string, seq<V>>, keys: seq<string>, i: nat)
    requires forall k :: k in keys ==> k in m
    requires i < |Flatten(m, keys)|
    ensures var p := Flatten(m, keys)[i]; p.0 in m && p.1 in m[p.0]
  {
    var n := |keys| - 1;
    if i < |Flatten(m, keys[..n])| {
      FlattenFrom(m, keys[..n], i);
    }
  }

  lemma {:induction false} ValueAmong<V>(ps: seq<(string, V)>, k: string, v: V)
    requires v in ValuesOf(ps, k)
    ensures (k, v) in ps
  {
    var n := |ps| - 1;
    if v in ValuesOf(ps[..n], k) {
      ValueAmong(ps[..n], k, v);
    }
  }

  // Reading back a keyed collection, each value decoded, is the collection normalised.
  lemma KeyedReadBack<V>(norm: V -> V, row: ((string, V)) -> EdgeRow, back: EdgeRow -> (string, V),
                         m: map<string, seq<V>>, keys: seq<string>)
    requires Enumerates(keys, m.Keys)
    requires forall i :: 0 <= i < |Flatten(m, keys)| ==>
               back(row(Flatten(m, keys)[i])) == (Flatten(m, keys)[i].0, norm(Flatten(m, keys)[i].1))
    ensures Group(Mapped(back, Mapped(row, Flatten(m, keys)))) == DropEmpty(MapLists(norm, m))
  {
    hide Flatten, Group, DropEmpty, Enumerates;
    EnumeratedIn(m, keys);
    var ps := Flatten(m, keys);
    assert Mapped(back, Mapped(row, ps)) == Mapped(Second(norm), ps);
    FlattenMapped(norm, m, keys);
    MapListsKeys(norm, m);
    GroupFlatten(MapLists(norm, m), keys);
  }

  lemma EnumeratedIn<V>(m: map<string, seq<V>>, keys: seq<string>)
    requires Enumerates(keys, m.Keys)
    ensures forall k :: k in keys ==> k in m
  {
  }

  lemma MapListsKeys<V, W>(f: V -> W, m: map<string, seq<V>>)
    ensures MapLists(f, m).Keys == m.Keys
  {
  }

  // If some value cannot come out of the decoder, the collection is not read back.
  lemma KeyedSource<V>(norm: V -> V, back: EdgeRow -> (string, V), rows: seq<EdgeRow>,
                       out: map<string, seq<V>>, m: map<string, seq<V>>, k: string, i: nat)
    requires SameGroups(out, Group(Mapped(back, rows)))
    requires SameGroups(out, DropEmpty(MapLists(norm, m)))
    requires k in m && i < |m[k]|
    ensures exists r :: r in rows && back(r) == (k, norm(m[k][i]))
  {
    hide Group, ValuesOf;
    var g, ps := Group(Mapped(back, rows)), Mapped(back, rows);
    var list := MapLists(norm, m)[k];
    var v := list[i];
    assert v in multiset(list);
    assert k in DropEmpty(MapLists(norm, m)) && multiset(out[k]) == multiset(list) == multiset(g[k]);
    GroupIs(ps, k);
    assert v in ValuesOf(ps, k);
    ValueAmong(ps, k, v);
    var j :| 0 <= j < |ps| && ps[j] == (k, v);
    assert rows[j] in rows && back(rows[j]) == ps[j];
  }

  lemma ImportBackIff(p: (string, ImportInfo))
    ensures ImportOf(ImportRow(p)) == (p.0, NormalImport(p.1)) <==> AllFree(p.1.symbols, SEP)
  {
    hide Split, Join, AllFree;
    NormalIff(p.1.symbols);
  }

  lemma DocrefBack(p: (string, DocRef))
    requires Free(p.1.text, SEP)
    ensures DocrefOf(DocrefRow(p)) == p
  {
    hide Split, Join;
    var v := [if p.1.external then "1" else "0", p.1.text];
    SplitJoinIff(v, SEP);
  }

  lemma ImportsBack(m: map<string, seq<ImportInfo>>, keys: seq<string>)
    requires Enumerates(keys, m.Keys) && CleanImports(m)
    ensures Group(Mapped(ImportOf, ImportRows(m, keys))) == DropEmpty(MapLists(NormalImport, m))
  {
    hide AllFree, Flatten, Group, DropEmpty, MapLists, Mapped, ImportOf, NormalImport;
    var ps := Flatten(m, keys);
    forall i | 0 <= i < |ps| ensures ImportOf(ImportRow(ps[i])) == (ps[i].0, NormalImport(ps[i].1)) {
      FlattenFrom(m, keys, i);
      ImportBackIff(ps[i]);
    }
    KeyedReadBack(NormalImport, ImportRow, ImportOf, m, keys);
  }

  lemma DocrefsBack(m: map<string, seq<DocRef>>, keys: seq<string>)
    requires Enumerates(keys, m.Keys) && CleanDocrefs(m)
    ensures Group(Mapped(DocrefOf, DocrefRows(m, keys))) == DropEmpty(m)
  {
    hide Free, Flatten, Group, DropEmpty, MapLists, Mapped, DocrefOf;
    var ps := Flatten(m, keys);
    MapListsSame(m);
    forall i | 0 <= i < |ps| ensures DocrefOf(DocrefRow(ps[i])) == (ps[i].0, Same(ps[i].1)) {
      FlattenFrom(m, keys, i);
      DocrefBack(ps[i]);
    }
    KeyedReadBack(Same, DocrefRow, DocrefOf, m, keys);
  }

  lemma ImportsReadBackIff(out: map<string, seq<ImportInfo>>, m: map<string, seq<ImportInfo>>, keys: seq<string>)
    requires Enumerates(keys, m.Keys)
    requires SameGroups(out, Group(Mapped(ImportOf, ImportRows(m, keys))))
    ensures SameGroups(out, DropEmpty(MapLists(NormalImport, m))) <==> CleanImports(m)
  {
    hide Split, Join, AllFree, Flatten, Group, SameGroups, DropEmpty, MapLists, Mapped, ImportOf, NormalImport;
    if CleanImports(m) {
      ImportsBack(m, keys);
    }
    if SameGroups(out, DropEmpty(MapLists(NormalImport, m))) {
      forall k, i | k in m && 0 <= i < |m[k]| ensures AllFree(m[k][i].symbols, SEP) {
        KeyedSource(NormalImport, ImportOf, ImportRows(m, keys), out, m, k, i);
        var r :| ImportOf(r) == (k, NormalImport(m[k][i]));
        ImportSymbolsFree(r, m[k][i], k);
      }
    }
  }

  lemma ImportSymbolsFree(r: EdgeRow, i: ImportInfo, k: string)
    requires ImportOf(r) == (k, NormalImport(i))
    ensures AllFree(i.symbols, SEP)
  {
    hide Split;
    SplitFree(r.attrs, SEP);
  }

  lemma DocrefsReadBackIff(out: map<string, seq<DocRef>>, m: map<string, seq<DocRef>>, keys: seq<string>)
    requires Enumerates(keys, m.Keys)
    requires SameGroups(out, Group(Mapped(DocrefOf, DocrefRows(m, keys))))
    ensures SameGroups(out, DropEmpty(m)) <==> CleanDocrefs(m)
  {
    hide Split, Join, Free, Flatten, Group, SameGroups, DropEmpty, MapLists, Mapped, DocrefOf;
    MapListsSame(m);
    if CleanDocrefs(m) {
      DocrefsBack(m, keys);
    }
    if SameGroups(out, DropEmpty(m)) {
      forall k, i | k in m && 0 <= i < |m[k]| ensures Free(m[k][i].text, SEP) {
        KeyedSource(Same, DocrefOf, DocrefRows(m, keys), out, m, k, i);
        var r :| DocrefOf(r) == (k, Same(m[k][i]));
        DocrefTextFree(r);
      }
    }
  }

  ghost function Same(d: DocRef): DocRef {
    d
  }

  lemma MapListsSame(m: map<string, seq<DocRef>>)
    ensures MapLists(Same, m) == m
  {
    forall k | k in m ensures Mapped(Same, m[k]) == m[k] {
      assert forall i :: 0 <= i < |m[k]| ==> Mapped(Same, m[k])[i] == Same(m[k][i]);
    }
  }

  lemma DocrefTextFree(r: EdgeRow)
    ensures Free(DocrefOf(r).1.text, SEP)
  {
    hide Split;
    SplitFree(r.attrs, SEP);
  }

  // ---- the four graphs in one table ----

  ghost function RowsOfKind(data: IndexData, o: Order, k: Kind): seq<EdgeRow>
    requires Walks(o, data)
  {
    match k
    case Call => Mapped(CallRow, data.calls)
    case Import => ImportRows(data.imports, o.imports)
    case Docref => DocrefRows(data.docrefs, o.docrefs)
    case Type => Mapped(TypeRow, data.types)
  }

  lemma EdgesOfWritten(t: Tables, data: IndexData, o: Order, k: Kind)
    requires Walks(o, data)
    ensures OfKind(Written(t, data, o).edges, k) == RowsOfKind(data, o, k)
  {
    hide OfKind, Flatten, WithIndex, WithNotes, WithEdges, ImportRows, DocrefRows;
    KindsOf(data, o);
    var t1 := WithNotes(WithIndex(t, data.index), data.mem).(glossary := data.glossary);
    var calls, types := Mapped(CallRow, data.calls), Mapped(TypeRow, data.types);
    var imports, docrefs := ImportRows(data.imports, o.imports), DocrefRows(data.docrefs, o.docrefs);
    var t2 := WithEdges(t1, Call, calls);
    var t3 := WithEdges(t2, Import, imports);
    var t4 := WithEdges(t3, Docref, docrefs);
    EdgesOfOthersKept(t1, Call, calls, k);
    EdgesOfOthersKept(t2, Import, imports, k);
    EdgesOfOthersKept(t3, Docref, docrefs, k);
    EdgesOfOthersKept(t4.(exports := Flatten(data.exports, o.exports)), Type, types, k);
  }

  lemma MappedKind<A>(f: A -> EdgeRow, s: seq<A>, kind: Kind)
    requires forall i :: 0 <= i < |s| ==> f(s[i]).kind == kind
    ensures AllOfKind(Mapped(f, s), kind)
  {
  }

  lemma KindsOf(data: IndexData, o: Order)
    requires Walks(o, data)
    ensures AllOfKind(Mapped(CallRow, data.calls), Call) && AllOfKind(Mapped(TypeRow, data.types), Type)
    ensures AllOfKind(ImportRows(data.imports, o.imports), Import)
    ensures AllOfKind(DocrefRows(data.docrefs, o.docrefs), Docref)
  {
    hide Flatten, Join, AllOfKind, Mapped;
    MappedKind(CallRow, data.calls, Call);
    MappedKind(TypeRow, data.types, Type);
    MappedKind(ImportRow, Flatten(data.imports, o.imports), Import);
    MappedKind(DocrefRow, Flatten(data.docrefs, o.docrefs), Docref);
  }

  lemma OthersOfWritten(t: Tables, data: IndexData, o: Order)
    requires Walks(o, data)
    ensures var w := Written(t, data, o);
            && IndexOf(w) == IndexOf(WithIndex(t, data.index)) && MemOf(w) == MemOf(WithNotes(t, data.mem))
            && w.glossary == data.glossary && w.exports == Flatten(data.exports, o.exports) && w.metrics == data.metrics
            && w.entries == WithIndex(t, data.index).entries && w.fts == WithIndex(t, data.index).fts
  {
    hide Scan, NumberedFrom, FtsOf, Flatten, NotOfKind, Split, Join, Loaded;
  }

  lemma CallsBack(s: seq<StoredCallEdge>)
    ensures Mapped(CallOf, Mapped(CallRow, s)) == s
  {
    assert forall i :: 0 <= i < |s| ==> Mapped(CallOf, Mapped(CallRow, s))[i] == CallOf(CallRow(s[i]));
  }

  lemma TypesBack(s: seq<TypeEdge>)
    ensures Mapped(TypeOf, Mapped(TypeRow, s)) == s
  {
    assert forall i :: 0 <= i < |s| ==> Mapped(TypeOf, Mapped(TypeRow, s))[i] == TypeOf(TypeRow(s[i]));
  }

  // Loading after saving gives the normal form, in whatever order rows are returned,
  // exactly when no note source, import symbol or link text holds the separator.
  lemma RoundTripIff(t: Tables, data: IndexData, o: Order, out: IndexData)
    requires Walks(o, data) && LoadedFrom(out, Written(t, data, o))
    ensures NormalForm(data, out) <==> CleanMem(data.mem) && CleanImports(data.imports) && CleanDocrefs(data.docrefs)
  {
    hide Written, WithIndex, WithNotes, IndexOf, MemOf, OfKind, Mapped, Group, SameGroups, DropEmpty, MapLists,
      Flatten, CleanMem, CleanImports, CleanDocrefs, ImportRows, DocrefRows, Enumerates, KeptIndex, NormalMem;
    OthersOfWritten(t, data, o);
    EdgesOfWritten(t, data, o, Call);
    EdgesOfWritten(t, data, o, Import);
    EdgesOfWritten(t, data, o, Docref);
    EdgesOfWritten(t, data, o, Type);
    IndexReadBack(t, data.index);
    MemReadBackIff(t, data.mem);
    CallsBack(data.calls);
    TypesBack(data.types);
    ImportsReadBackIff(out.imports, data.imports, o.imports);
    DocrefsReadBackIff(out.docrefs, data.docrefs, o.docrefs);
    GroupFlatten(data.exports, o.exports);
  }

  // ---- one trip of any value ----

  // What comes back of an import, and of a link, whatever strings they hold.
  ghost function TripImport(i: ImportInfo): ImportInfo {
    ImportInfo(i.modulePath, Split(Join(i.symbols, SEP), SEP))
  }

  ghost function TripDocref(d: DocRef): DocRef {
    DocrefOf(DocrefRow(("", d))).1
  }

  // A second trip changes nothing more.
  lemma TripsTwice(i: ImportInfo, d: DocRef)
    ensures TripImport(TripImport(i)) == TripImport(i) && TripDocref(TripDocref(d)) == TripDocref(d)
  {
    hide Split, Join, DocrefRow, Free;
    JoinSplit(Join(i.symbols, SEP), SEP);
    DocrefTextFree(DocrefRow(("", d)));
    DocrefBack(("", TripDocref(d)));
  }

  lemma ImportsTripped(m: map<string, seq<ImportInfo>>, keys: seq<string>)
    requires Enumerates(keys, m.Keys)
    ensures Group(Mapped(ImportOf, ImportRows(m, keys))) == DropEmpty(MapLists(TripImport, m))
  {
    hide Flatten, Group, DropEmpty, MapLists, Mapped, Split, Join;
    EnumeratedIn(m, keys);
    KeyedReadBack(TripImport, ImportRow, ImportOf, m, keys);
  }

  lemma DocrefsTripped(m: map<string, seq<DocRef>>, keys: seq<string>)
    requires Enumerates(keys, m.Keys)
    ensures Group(Mapped(DocrefOf, DocrefRows(m, keys))) == DropEmpty(MapLists(TripDocref, m))
  {
    hide Flatten, Group, DropEmpty, MapLists, Mapped, Split, Join;
    EnumeratedIn(m, keys);
    KeyedReadBack(TripDocref, DocrefRow, DocrefOf, m, keys);
  }

  // A load in table order, after a save of any graphs: what was saved, each import and link
  // after one trip, without empty lists.
  lemma CanonicalOfWritten(t: Tables, data: IndexData, o: Order)
    requires Walks(o, data)
    ensures var e := Written(t, data, o).edges;
            && Mapped(CallOf, OfKind(e, Call)) == data.calls
            && Group(Mapped(ImportOf, OfKind(e, Import))) == DropEmpty(MapLists(TripImport, data.imports))
            && Group(Mapped(DocrefOf, OfKind(e, Docref))) == DropEmpty(MapLists(TripDocref, data.docrefs))
    ensures Written(t, data, o).metrics == data.metrics && Written(t, data, o).glossary == data.glossary
    ensures Group(Written(t, data, o).exports) == DropEmpty(data.exports)
  {
    hide Written, OfKind, Mapped, Group, DropEmpty, MapLists, Flatten, IndexOf, MemOf, WithIndex, WithNotes,
      ImportOf, DocrefOf;
    EdgesOfWritten(t, data, o, Call);
    EdgesOfWritten(t, data, o, Import);
    EdgesOfWritten(t, data, o, Docref);
    CallsBack(data.calls);
    OthersOfWritten(t, data, o);
    ImportsTripped(data.imports, o.imports);
    DocrefsTripped(data.docrefs, o.docrefs);
    GroupFlatten(data.exports, o.exports);
  }
}
