// Whole histories of an index.
module Rebuild {
  import opened Half
  import opened Data
  import opened Grouping
  import opened Filters
  import opened Indexing
  import opened Incremental
  import Tables
  import Backend
  import RoundTrip

  // What may happen to an index: a run, forced or not; a file added by a client; any other
  // job, which leaves all files' rows alone.
  datatype Act = Reads(run: Run, force: bool) | Adds(path: string, vec: seq<word32>) | Touches

  ghost predicate Performs(x: Extract, act: Act, s: State, s': State) {
    match act
    case Reads(run, force) => Does(x, run, force, s, s')
    case Adds(path, vec) => AddsFile(x, path, vec, s, s')
    case Touches => SameDocs(s, s')
  }

  ghost predicate AddsFile(x: Extract, path: string, vec: seq<word32>, s: State, s': State) {
    && (forall p: string :: Filter(EntriesOf(Doc, p), s'.entries) ==
          if p == path then FileEntries(x, p, Added(vec)) else Filter(EntriesOf(Doc, p), s.entries))
    && s'.t.edges == s.t.edges && s'.t.metrics == s.t.metrics
  }

  ghost predicate SameDocs(s: State, s': State) {
    && (forall p: string :: Filter(EntriesOf(Doc, p), s'.entries) == Filter(EntriesOf(Doc, p), s.entries))
    && s'.t.edges == s.t.edges && s'.t.metrics == s.t.metrics
  }

  ghost predicate NothingStored(s: State) {
    && (forall p: string :: Filter(EntriesOf(Doc, p), s.entries) == [])
    && s.t.edges == [] && s.t.metrics == []
  }

  ghost predicate History(x: Extract, acts: seq<Act>, states: seq<State>) {
    && |states| == |acts| + 1 && NothingStored(states[0])
    && forall i :: 0 <= i < |acts| ==> Performs(x, acts[i], states[i], states[i + 1])
  }

  // ---- the ledgers: which version the entries, and the facts, of each file are of ----

  ghost function Changed(x: Extract, led: map<string, Rec>, run: Run, force: bool): set<string> {
    ChangedFiles(x, run.tree, force, KnownHashes(x, led))
  }

  ghost function NextRecs(x: Extract, led: map<string, Rec>, act: Act): map<string, Rec> {
    match act
    case Reads(run, force) => UpdatedRecs(led, Changed(x, led, run, force), run.tree, run.l.glossary)
    case Adds(path, vec) => led[path := Added(vec)]
    case Touches => led
  }

  // A forced run starts the facts anew, and the entries not.
  ghost function NextVersions(x: Extract, led: map<string, Rec>, facts: map<string, Version>, act: Act)
    : map<string, Version>
  {
    match act
    case Reads(run, force) =>
      UpdatedVersions(if force then map[] else facts, Changed(x, led, run, force), run.tree, run.l.glossary)
    case _ => facts
  }

  ghost function EntryLedger(x: Extract, acts: seq<Act>): map<string, Rec> {
    if acts == [] then map[]
    else
      var n := |acts| - 1;
      NextRecs(x, EntryLedger(x, acts[..n]), acts[n])
  }

  ghost function FactLedger(x: Extract, acts: seq<Act>): map<string, Version> {
    if acts == [] then map[]
    else
      var n := |acts| - 1;
      NextVersions(x, EntryLedger(x, acts[..n]), FactLedger(x, acts[..n]), acts[n])
  }

  ghost predicate Tracks(x: Extract, led: map<string, Rec>, facts: map<string, Version>, s: State) {
    HoldsEntries(x, led, s.entries) && HoldsFacts(x, facts, Canonical(s.t))
  }

  lemma TracksNothing(x: Extract, s: State)
    requires NothingStored(s)
    ensures Tracks(x, map[], map[], s)
  {
    hide EntriesOf;
  }

  // One run, forced or not, on any tracked index.
  lemma RunTracked(
      x: Extract, led: map<string, Rec>, facts: map<string, Version>, run: Run, force: bool, s: State, s': State)
    requires Tracks(x, led, facts, s) && Does(x, run, force, s, s')
    ensures Tracks(x, NextRecs(x, led, Reads(run, force)), NextVersions(x, led, facts, Reads(run, force)), s')
  {
    hide HoldsEntries, HoldsCalls, HoldsMetrics, HoldsImports, HoldsDocrefs, NewEntries, UpdatedRecs,
      UpdatedVersions, Filter, Concat, PushedAll, Erased, Canonical, ChangedBy, ChangedFiles, Backend.Written,
      Backend.Walks, Backend.LoadedFrom, Enumerates, KnownHashes;
    ChangedIs(x, led, run.tree, force, s.entries);
    EntriesTracked(x, led, run.tree, run.r, force, s.entries, run.l.mem, run.l.glossary);
    if force {
      HoldsNothing(x, Canonical(s.t));
    }
    FactsTracked(x, if force then map[] else facts, run, force, s, s');
  }

  lemma OthersTracked(x: Extract, led: map<string, Rec>, facts: map<string, Version>, act: Act, s: State, s': State)
    requires Tracks(x, led, facts, s) && Performs(x, act, s, s') && !act.Reads?
    ensures Tracks(x, NextRecs(x, led, act), facts, s')
  {
    hide Filter, FileEntries, HoldsCalls, HoldsMetrics, HoldsImports, HoldsDocrefs, Group, Mapped,
      Tables.OfKind, Tables.IndexOf, Tables.MemOf;
  }

  // After any history every file's entries and facts are those of the ledgers.
  lemma {:induction false} HistoryTracked(x: Extract, acts: seq<Act>, states: seq<State>)
    requires History(x, acts, states)
    ensures Tracks(x, EntryLedger(x, acts), FactLedger(x, acts), states[|acts|])
  {
    hide Tracks, Does, SameDocs, AddsFile, NothingStored, NextRecs, NextVersions;
    if acts == [] {
      TracksNothing(x, states[0]);
    } else {
      var n := |acts| - 1;
      HistoryTracked(x, acts[..n], states[..n + 1]);
      var led, facts := EntryLedger(x, acts[..n]), FactLedger(x, acts[..n]);
      if acts[n].Reads? {
        RunTracked(x, led, facts, acts[n].run, acts[n].force, states[n], states[n + 1]);
      } else {
        OthersTracked(x, led, facts, acts[n], states[n], states[n + 1]);
        FactsUntouched(x, led, facts, acts[n]);
      }
    }
  }

  lemma FactsUntouched(x: Extract, led: map<string, Rec>, facts: map<string, Version>, act: Act)
    requires !act.Reads?
    ensures NextVersions(x, led, facts, act) == facts
  {
  }

  // ---- what the ledgers mean ----

  ghost function VersionOf(run: Run, p: string): Version
    requires p in run.tree
  {
    Version(run.tree[p], run.l.glossary, run.tree.Keys)
  }

  // The act sees the file yield a chunk, or adds it whole.
  ghost predicate Yields(x: Extract, act: Act, p: string) {
    match act
    case Reads(run, _) => p in run.tree && Chunky(x, p, run.tree[p])
    case Adds(path, _) => p == path
    case Touches => false
  }

  ghost predicate Loses(act: Act, p: string) {
    act.Reads? && p !in act.run.tree
  }

  // Act i is the last to yield the file, which no run since has found gone.
  ghost predicate LastYield(x: Extract, acts: seq<Act>, p: string, i: nat) {
    && i < |acts| && Yields(x, acts[i], p)
    && forall j :: i < j < |acts| ==> !Yields(x, acts[j], p) && !Loses(acts[j], p)
  }

  ghost predicate Held(x: Extract, acts: seq<Act>, p: string) {
    exists i :: LastYield(x, acts, p, i)
  }

  lemma HeldStep(x: Extract, acts: seq<Act>, p: string)
    requires acts != []
    ensures var n := |acts| - 1;
            Held(x, acts, p) <==> Yields(x, acts[n], p) || (Held(x, acts[..n], p) && !Loses(acts[n], p))
  {
    hide Yields;
    var n := |acts| - 1;
    assert forall j :: 0 <= j < n ==> acts[..n][j] == acts[j];
    if Yields(x, acts[n], p) {
      assert LastYield(x, acts, p, n);
    } else {
      if i: nat :| LastYield(x, acts, p, i) {
        assert LastYield(x, acts[..n], p, i);
      }
      if i: nat :| LastYield(x, acts[..n], p, i) {
        assert !Loses(acts[n], p) ==> LastYield(x, acts, p, i);
      }
    }
  }

  lemma NextHas(x: Extract, led: map<string, Rec>, act: Act, p: string)
    ensures p in NextRecs(x, led, act) <==> Yields(x, act, p) || (p in led && !Loses(act, p))
    ensures p in NextRecs(x, led, act) && !Yields(x, act, p) ==> p in led && NextRecs(x, led, act)[p] == led[p]
  {
    hide Pieces, FileEntries;
  }

  // A file has its place in the ledger exactly if some act yielded it and no run since has
  // found it gone.
  lemma {:induction false} LedgerMeans(x: Extract, acts: seq<Act>, p: string)
    ensures p in EntryLedger(x, acts) <==> Held(x, acts, p)
  {
    hide NextRecs, Held, Yields;
    if acts == [] {
      NeverHeld(x, p);
    } else {
      var n := |acts| - 1;
      LedgerMeans(x, acts[..n], p);
      HeldStep(x, acts, p);
      NextHas(x, EntryLedger(x, acts[..n]), acts[n], p);
    }
  }

  lemma NeverHeld(x: Extract, p: string)
    ensures !Held(x, [], p)
  {
  }

  ghost predicate RecordedAt(acts: seq<Act>, p: string, r: Rec, k: nat) {
    k < |acts| &&
    match acts[k]
    case Reads(run, _) => p in run.tree && r == Read(VersionOf(run, p))
    case Adds(path, vec) => p == path && r == Added(vec)
    case Touches => false
  }

  lemma {:induction false} Recorded(x: Extract, acts: seq<Act>, p: string) returns (k: nat)
    requires p in EntryLedger(x, acts)
    ensures RecordedAt(acts, p, EntryLedger(x, acts)[p], k)
  {
    hide Pieces, FileEntries;
    var n := |acts| - 1;
    var led := EntryLedger(x, acts[..n]);
    if p in led && EntryLedger(x, acts)[p] == led[p] {
      k := Recorded(x, acts[..n], p);
      assert acts[..n][k] == acts[k];
    } else {
      k := n;
    }
  }

  // Equal hashes mean equal contents, and no hash of a file added whole is 0.
  ghost predicate Honest(acts: seq<Act>) {
    && (forall i, j, p :: 0 <= i < |acts| && 0 <= j < |acts| && SeenTwice(acts[i], acts[j], p) ==>
          acts[i].run.tree[p] == acts[j].run.tree[p])
    && (forall i, j :: 0 <= i < |acts| && 0 <= j < |acts| ==> !AddedAsZero(acts[i], acts[j]))
  }

  ghost predicate SeenTwice(a: Act, b: Act, p: string) {
    a.Reads? && b.Reads? && p in a.run.tree && p in b.run.tree && a.run.tree[p].hash == b.run.tree[p].hash
  }

  ghost predicate AddedAsZero(a: Act, b: Act) {
    a.Adds? && b.Reads? && a.path in b.run.tree && b.run.tree[a.path].hash == 0
  }

  lemma HonestPrefix(acts: seq<Act>, n: nat)
    requires Honest(acts) && n <= |acts|
    ensures Honest(acts[..n])
  {
    hide SeenTwice, AddedAsZero;
    assert forall i :: 0 <= i < n ==> acts[..n][i] == acts[i];
    forall i, j, p | 0 <= i < n && 0 <= j < n && SeenTwice(acts[..n][i], acts[..n][j], p)
      ensures acts[..n][i].Reads? && acts[..n][j].Reads?
      ensures p in acts[..n][i].run.tree && p in acts[..n][j].run.tree
      ensures acts[..n][i].run.tree[p] == acts[..n][j].run.tree[p]
    {
      TwiceMeans(acts[i], acts[j], p);
    }
  }

  lemma TwiceMeans(a: Act, b: Act, p: string)
    requires SeenTwice(a, b, p)
    ensures a.Reads? && b.Reads? && p in a.run.tree && p in b.run.tree
  {
  }

  // A file is held at the version that was current when it last yielded.
  lemma {:induction false} LedgerCurrent(x: Extract, acts: seq<Act>, p: string, i: nat)
    requires Honest(acts) && LastYield(x, acts, p, i)
    ensures p in EntryLedger(x, acts)
    ensures var r := EntryLedger(x, acts)[p];
            if acts[i].Adds? then r == Added(acts[i].vec) else r.Read? && r.version.v == acts[i].run.tree[p]
    decreases |acts|
  {
    hide NextRecs, Chunky, Honest;
    var n := |acts| - 1;
    var led := EntryLedger(x, acts[..n]);
    NextHas(x, led, acts[n], p);
    if i < n {
      HonestPrefix(acts, n);
      assert forall j :: 0 <= j < n ==> acts[..n][j] == acts[j];
      LedgerCurrent(x, acts[..n], p, i);
    } else {
      CurrentNow(x, acts, p);
    }
  }

  lemma CurrentNow(x: Extract, acts: seq<Act>, p: string)
    requires Honest(acts) && acts != [] && Yields(x, acts[|acts| - 1], p)
    ensures p in EntryLedger(x, acts)
    ensures var r, act := EntryLedger(x, acts)[p], acts[|acts| - 1];
            if act.Adds? then r == Added(act.vec) else r.Read? && r.version.v == act.run.tree[p]
  {
    hide Pieces, FileEntries, EntryLedger, Honest;
    var n := |acts| - 1;
    var led := EntryLedger(x, acts[..n]);
    LedgerStep(x, acts);
    if acts[n].Reads? && p !in Changed(x, led, acts[n].run, acts[n].force) {
      var k := Recorded(x, acts[..n], p);
      assert acts[..n][k] == acts[k];
      SameHashSameFile(acts, n, k, p);
    }
  }

  lemma LedgerStep(x: Extract, acts: seq<Act>)
    requires acts != []
    ensures EntryLedger(x, acts) == NextRecs(x, EntryLedger(x, acts[..|acts| - 1]), acts[|acts| - 1])
  {
    hide NextRecs;
  }

  lemma SameHashSameFile(acts: seq<Act>, n: nat, k: nat, p: string)
    requires Honest(acts) && n < |acts| && k < |acts| && acts[n].Reads? && p in acts[n].run.tree
    ensures acts[k].Adds? && acts[k].path == p ==> acts[n].run.tree[p].hash != 0
    ensures acts[k].Reads? && p in acts[k].run.tree && acts[k].run.tree[p].hash == acts[n].run.tree[p].hash ==>
              acts[k].run.tree[p] == acts[n].run.tree[p]
  {
    assert !AddedAsZero(acts[k], acts[n]);
    if acts[k].Reads? && p in acts[k].run.tree && acts[k].run.tree[p].hash == acts[n].run.tree[p].hash {
      assert SeenTwice(acts[k], acts[n], p);
    }
  }

  // Run i is the last to have read the file again; every run since has found it there, and
  // none of those was forced.
  ghost predicate LastRead(x: Extract, acts: seq<Act>, p: string, i: nat) {
    && i < |acts| && acts[i].Reads? && ReadAgain(x, acts, p, i)
    && forall j :: i < j < |acts| && acts[j].Reads? ==>
         p in acts[j].run.tree && !acts[j].force && !ReadAgain(x, acts, p, j)
  }

  ghost predicate ReadAgain(x: Extract, acts: seq<Act>, p: string, i: nat)
    requires i < |acts|
  {
    acts[i].Reads? && p in Changed(x, EntryLedger(x, acts[..i]), acts[i].run, acts[i].force)
  }

  lemma ReadAgainPrefix(x: Extract, acts: seq<Act>, p: string, n: nat)
    requires n <= |acts|
    ensures forall i :: 0 <= i < n ==> (ReadAgain(x, acts[..n], p, i) <==> ReadAgain(x, acts, p, i))
  {
    hide Changed, EntryLedger;
    forall i | 0 <= i < n
      ensures ReadAgain(x, acts[..n], p, i) <==> ReadAgain(x, acts, p, i)
    {
      assert acts[..n][..i] == acts[..i];
    }
  }

  lemma LastReadStep(x: Extract, acts: seq<Act>, p: string)
    requires acts != []
    ensures var n := |acts| - 1;
            && (LastRead(x, acts, p, n) <==> ReadAgain(x, acts, p, n))
            && forall i :: 0 <= i < n ==>
                 (LastRead(x, acts, p, i) <==>
                  && LastRead(x, acts[..n], p, i) && !ReadAgain(x, acts, p, n)
                  && (acts[n].Reads? ==> p in acts[n].run.tree && !acts[n].force))
  {
    hide ReadAgain;
    var n := |acts| - 1;
    ReadAgainPrefix(x, acts, p, n);
    ReadIsRun(x, acts, p, n);
    assert forall j :: 0 <= j < n ==> acts[..n][j] == acts[j];
  }

  lemma ReadIsRun(x: Extract, acts: seq<Act>, p: string, i: nat)
    requires i < |acts|
    ensures ReadAgain(x, acts, p, i) ==> acts[i].Reads?
  {
    hide Changed, EntryLedger;
  }

  // The facts held of a file are those of the last run that read it again; they are gone once
  // a run finds the file gone, or a forced run does not read it.
  lemma {:induction false} FactsMean(x: Extract, acts: seq<Act>, p: string)
    ensures p in FactLedger(x, acts) <==> exists i: nat :: LastRead(x, acts, p, i)
    ensures forall i: nat :: LastRead(x, acts, p, i) ==>
              p in acts[i].run.tree && p in FactLedger(x, acts) && FactLedger(x, acts)[p] == VersionOf(acts[i].run, p)
  {
    if acts != [] {
      hide LastRead, ReadAgain, NextVersions;
      var n := |acts| - 1;
      FactsMean(x, acts[..n], p);
      LastReadStep(x, acts, p);
      NextVersion(x, acts, p);
      LastReadIs(x, acts, p);
      LastReadIs(x, acts[..n], p);
      assert FactLedger(x, acts) == NextVersions(x, EntryLedger(x, acts[..n]), FactLedger(x, acts[..n]), acts[n]);
      if p in FactLedger(x, acts) && !ReadAgain(x, acts, p, n) {
        var i: nat :| LastRead(x, acts[..n], p, i);
        assert LastRead(x, acts, p, i);
      }
      forall i: nat | LastRead(x, acts, p, i)
        ensures i < |acts| && acts[i].Reads? && p in acts[i].run.tree && p in FactLedger(x, acts)
        ensures FactLedger(x, acts)[p] == VersionOf(acts[i].run, p)
      {
        if i < n {
          assert LastRead(x, acts[..n], p, i) && acts[..n][i] == acts[i];
        }
      }
    }
  }

  lemma LastReadIs(x: Extract, acts: seq<Act>, p: string)
    ensures forall i: nat :: LastRead(x, acts, p, i) ==> i < |acts| && acts[i].Reads?
  {
    hide ReadAgain;
  }

  lemma NextVersion(x: Extract, acts: seq<Act>, p: string)
    requires acts != []
    ensures var n := |acts| - 1;
            var facts, act := FactLedger(x, acts[..n]), acts[n];
            var facts' := NextVersions(x, EntryLedger(x, acts[..n]), facts, act);
            if ReadAgain(x, acts, p, n)
            then act.Reads? && p in act.run.tree && p in facts' && facts'[p] == VersionOf(act.run, p)
            else
              && (p in facts' <==> p in facts && (act.Reads? ==> p in act.run.tree && !act.force))
              && (p in facts' ==> facts'[p] == facts[p])
  {
    hide Pieces, FileEntries, EntryLedger, FactLedger;
  }

  // Facts and entries are of one version, except where a client has added the file since.
  lemma {:induction false} LedgersAgree(x: Extract, acts: seq<Act>, p: string)
    requires p in FactLedger(x, acts)
    ensures p in EntryLedger(x, acts)
    ensures EntryLedger(x, acts)[p].Added? || EntryLedger(x, acts)[p] == Read(FactLedger(x, acts)[p])
  {
    hide Pieces, FileEntries;
    var n := |acts| - 1;
    if p in FactLedger(x, acts[..n]) {
      LedgersAgree(x, acts[..n], p);
    }
  }

  // ---- against a rebuild ----

  // A forced run on the tree of the last act, from an index that holds nothing.
  ghost predicate Rebuilds(x: Extract, acts: seq<Act>, rebuild: Run, clean: State, rebuilt: State) {
    && acts != [] && acts[|acts| - 1].Reads? && rebuild.tree == acts[|acts| - 1].run.tree
    && NothingStored(clean) && Does(x, rebuild, true, clean, rebuilt)
  }

  lemma RebuildLedgers(x: Extract, rebuild: Run)
    ensures var led, facts := NextRecs(x, map[], Reads(rebuild, true)),
                              NextVersions(x, map[], map[], Reads(rebuild, true));
            && (forall p :: p in led <==> p in rebuild.tree && Chunky(x, p, rebuild.tree[p]))
            && (forall p :: p in led ==> led[p] == Read(VersionOf(rebuild, p)))
            && (forall p :: p in facts <==> p in led) && (forall p :: p in facts ==> facts[p] == VersionOf(rebuild, p))
  {
    hide Pieces, FileEntries;
  }

  lemma RebuiltTracked(x: Extract, rebuild: Run, clean: State, rebuilt: State)
    requires NothingStored(clean) && Does(x, rebuild, true, clean, rebuilt)
    ensures Tracks(x, NextRecs(x, map[], Reads(rebuild, true)), NextVersions(x, map[], map[], Reads(rebuild, true)),
        rebuilt)
  {
    hide Tracks, Does, NothingStored, NextRecs, NextVersions;
    TracksNothing(x, clean);
    RunTracked(x, map[], map[], rebuild, true, clean, rebuilt);
  }

  ghost function MetasOf(s: State, p: string): seq<Meta> {
    Metas(Filter(EntriesOf(Doc, p), s.entries))
  }

  ghost predicate SameMetas(s: State, s': State) {
    forall p: string :: MetasOf(s, p) == MetasOf(s', p)
  }

  // The file last yielded at act i, was there at every run since, and yields nothing now;
  // act i left it an entry.
  ghost predicate LeftoverAt(x: Extract, acts: seq<Act>, p: string, i: nat) {
    i < |acts| - 1 && LastYield(x, acts, p, i) &&
    match acts[i]
    case Reads(run, _) => FileEntries(x, p, Read(VersionOf(run, p))) != []
    case _ => true
  }

  ghost predicate Leftover(x: Extract, acts: seq<Act>, p: string) {
    exists i :: LeftoverAt(x, acts, p, i)
  }

  ghost predicate OneGlossary(acts: seq<Act>, g: map<string, string>) {
    forall i :: 0 <= i < |acts| && acts[i].Reads? ==> acts[i].run.l.glossary == g
  }

  lemma SameVersionMetas(x: Extract, p: string, a: Version, b: Version)
    requires a.v == b.v && (Total(x) || a.glossary == b.glossary)
    ensures Metas(FileEntries(x, p, Read(a))) == Metas(FileEntries(x, p, Read(b)))
    ensures FileEntries(x, p, Read(a)) == [] <==> FileEntries(x, p, Read(b)) == []
  {
    hide Pieces;
    if Total(x) {
      var s, t := AsPending(Doc, FileChunks(x, p, a.v, a.glossary)), AsPending(Doc, FileChunks(x, p, b.v, b.glossary));
      EmbeddedAll(x, s);
      EmbeddedAll(x, t);
      assert forall i :: 0 <= i < |s| ==> EntryFor(x, s[i]).meta == EntryFor(x, t[i]).meta;
    }
  }

  // The glossary a version was read with is that of some run.
  lemma RecordedGlossary(x: Extract, acts: seq<Act>, p: string, g: map<string, string>)
    requires OneGlossary(acts, g) && p in EntryLedger(x, acts) && EntryLedger(x, acts)[p].Read?
    ensures EntryLedger(x, acts)[p].version.glossary == g
  {
    hide EntryLedger;
    var k := Recorded(x, acts, p);
  }

  lemma HeldHasLast(x: Extract, acts: seq<Act>, p: string) returns (i: nat)
    requires p in EntryLedger(x, acts)
    ensures LastYield(x, acts, p, i)
  {
    hide LastYield, EntryLedger;
    LedgerMeans(x, acts, p);
    i :| LastYield(x, acts, p, i);
  }

  // One file of the tree that yields a chunk now.
  lemma YieldingIsRebuilt(x: Extract, acts: seq<Act>, rebuild: Run, p: string)
    requires Honest(acts) && (Total(x) || OneGlossary(acts, rebuild.l.glossary))
    requires acts != [] && acts[|acts| - 1].Reads? && rebuild.tree == acts[|acts| - 1].run.tree
    requires p in rebuild.tree && Chunky(x, p, rebuild.tree[p])
    ensures p in EntryLedger(x, acts) && EntryLedger(x, acts)[p].Read? && !Leftover(x, acts, p)
    ensures var ver := EntryLedger(x, acts)[p].version;
            && ver.v == rebuild.tree[p]
            && Metas(FileEntries(x, p, Read(ver))) == Metas(FileEntries(x, p, Read(VersionOf(rebuild, p))))
  {
    hide EntryLedger, Pieces, Honest, FileEntries, OneGlossary;
    LedgerCurrent(x, acts, p, |acts| - 1);
    var ver := EntryLedger(x, acts)[p].version;
    if !Total(x) {
      RecordedGlossary(x, acts, p, rebuild.l.glossary);
    }
    SameVersionMetas(x, p, ver, VersionOf(rebuild, p));
  }

  // One that does not.
  lemma BarrenKeeps(x: Extract, acts: seq<Act>, rebuild: Run, p: string)
    requires Honest(acts) && (Total(x) || OneGlossary(acts, rebuild.l.glossary))
    requires acts != [] && acts[|acts| - 1].Reads? && rebuild.tree == acts[|acts| - 1].run.tree
    requires p in rebuild.tree && !Chunky(x, p, rebuild.tree[p])
    ensures Leftover(x, acts, p) <==>
            p in EntryLedger(x, acts) && FileEntries(x, p, EntryLedger(x, acts)[p]) != []
  {
    hide EntryLedger, Chunky, Honest, LastYield, OneGlossary, Total;
    if p in EntryLedger(x, acts) {
      var i := HeldHasLast(x, acts, p);
      LeftoverIff(x, acts, rebuild, p, i);
    }
    if i: nat :| LeftoverAt(x, acts, p, i) {
      LeftoverIff(x, acts, rebuild, p, i);
    }
  }

  lemma LeftoverIff(x: Extract, acts: seq<Act>, rebuild: Run, p: string, i: nat)
    requires Honest(acts) && (Total(x) || OneGlossary(acts, rebuild.l.glossary)) && LastYield(x, acts, p, i)
    requires acts[|acts| - 1].Reads? && rebuild.tree == acts[|acts| - 1].run.tree
    requires p in rebuild.tree && !Chunky(x, p, rebuild.tree[p])
    ensures p in EntryLedger(x, acts)
    ensures LeftoverAt(x, acts, p, i) <==> FileEntries(x, p, EntryLedger(x, acts)[p]) != []
  {
    hide EntryLedger, Honest, OneGlossary, Pieces, Embedded;
    LedgerCurrent(x, acts, p, i);
    if acts[i].Reads? {
      if !Total(x) {
        RecordedGlossary(x, acts, p, rebuild.l.glossary);
        assert acts[i].run.l.glossary == rebuild.l.glossary by {
          GlossaryAt(acts, rebuild.l.glossary, i);
        }
      }
      SameVersionMetas(x, p, EntryLedger(x, acts)[p].version, VersionOf(acts[i].run, p));
    }
  }

  lemma GlossaryAt(acts: seq<Act>, g: map<string, string>, i: nat)
    requires OneGlossary(acts, g) && i < |acts| && acts[i].Reads?
    ensures acts[i].run.l.glossary == g
  {
  }

  lemma MetasRebuiltIff(x: Extract, acts: seq<Act>, s: State, rebuild: Run, rebuilt: State, p: string)
    requires Honest(acts) && (Total(x) || OneGlossary(acts, rebuild.l.glossary))
    requires acts != [] && acts[|acts| - 1].Reads? && rebuild.tree == acts[|acts| - 1].run.tree
    requires Tracks(x, EntryLedger(x, acts), FactLedger(x, acts), s)
    requires Tracks(x, NextRecs(x, map[], Reads(rebuild, true)), NextVersions(x, map[], map[], Reads(rebuild, true)),
        rebuilt)
    ensures MetasOf(s, p) == MetasOf(rebuilt, p) <==> !Leftover(x, acts, p)
  {
    hide EntryLedger, FactLedger, NextRecs, NextVersions, Chunky, Honest, FileEntries, OneGlossary, Total, HoldsFacts,
      Filter, EntriesOf, Leftover;
    RebuildLedgers(x, rebuild);
    if p !in rebuild.tree {
      GoneIsGone(x, acts, p);
    } else if Chunky(x, p, rebuild.tree[p]) {
      YieldingIsRebuilt(x, acts, rebuild, p);
    } else {
      BarrenKeeps(x, acts, rebuild, p);
    }
  }

  lemma GoneIsGone(x: Extract, acts: seq<Act>, p: string)
    requires acts != [] && Loses(acts[|acts| - 1], p)
    ensures p !in EntryLedger(x, acts) && p !in FactLedger(x, acts) && !Leftover(x, acts, p)
  {
    hide Pieces, FileEntries;
  }

  // After any history of file edits with runs, forced or not, files added by clients and any
  // other jobs in between, ending with a run: every file's entries are those of one forced run
  // on the final tree, exactly when no file of that tree has entries left of an earlier
  // version and yields no chunk now.
  lemma IncrementalIsRebuildIff(x: Extract, acts: seq<Act>, states: seq<State>,
                                rebuild: Run, clean: State, rebuilt: State)
    requires History(x, acts, states) && Honest(acts) && Rebuilds(x, acts, rebuild, clean, rebuilt)
    requires Total(x) || OneGlossary(acts, rebuild.l.glossary)
    ensures SameMetas(states[|acts|], rebuilt) <==> forall p: string :: !Leftover(x, acts, p)
  {
    hide Tracks, Does, NothingStored, NextRecs, NextVersions, MetasOf, Leftover, EntryLedger, FactLedger, Performs,
      Honest, Total, OneGlossary;
    HistoryTracked(x, acts, states);
    RebuiltTracked(x, rebuild, clean, rebuilt);
    forall p: string
      ensures MetasOf(states[|acts|], p) == MetasOf(rebuilt, p) <==> !Leftover(x, acts, p)
    {
      MetasRebuiltIff(x, acts, states[|acts|], rebuild, rebuilt, p);
    }
  }

  // When no embedding fails, a file has entries left as soon as it once yielded.
  lemma LeftoverIsEmptied(x: Extract, acts: seq<Act>, p: string)
    requires Total(x) && acts != []
    ensures Leftover(x, acts, p) <==> Held(x, acts, p) && !Yields(x, acts[|acts| - 1], p)
  {
    hide Pieces;
    if i: nat :| LastYield(x, acts, p, i) {
      if !Yields(x, acts[|acts| - 1], p) {
        if acts[i].Reads? {
          YieldHasEntry(x, acts[i].run, p);
        }
        assert LeftoverAt(x, acts, p, i);
      }
    }
  }

  lemma YieldHasEntry(x: Extract, run: Run, p: string)
    requires Total(x) && p in run.tree && Chunky(x, p, run.tree[p])
    ensures FileEntries(x, p, Read(VersionOf(run, p))) != []
  {
    hide Pieces;
    EmbeddedAll(x, AsPending(Doc, FileChunks(x, p, run.tree[p], run.l.glossary)));
  }

  // ---- facts ----

  // The facts of a file, row order aside.
  ghost predicate SameFactsOf(p: string, c: IndexData, c': IndexData) {
    && multiset(Filter(CallsIn(p), c.calls)) == multiset(Filter(CallsIn(p), c'.calls))
    && multiset(Filter(MetricsIn(p), c.metrics)) == multiset(Filter(MetricsIn(p), c'.metrics))
    && multiset(At(c.imports, p)) == multiset(At(c'.imports, p))
  }

  ghost predicate NoFacts(x: Extract, p: string, ver: Version) {
    CallsOf(x, p, ver) == [] && MetricsOf(x, p, ver) == [] && ImportsOf(x, p, ver) == []
  }

  // One file's facts in two collections, from what the ledgers of each say.
  lemma FactsCompared(x: Extract, p: string, f: map<string, Version>, c: IndexData, f': map<string, Version>,
      c': IndexData)
    requires HoldsFacts(x, f, c) && HoldsFacts(x, f', c')
    ensures p !in f && p !in f' ==> SameFactsOf(p, c, c')
    ensures p in f && p in f' && f[p].v == f'[p].v ==> SameFactsOf(p, c, c')
    ensures p in f && p !in f' ==> (SameFactsOf(p, c, c') <==> NoFacts(x, p, f[p]))
    ensures p !in f && p in f' ==> (SameFactsOf(p, c, c') <==> NoFacts(x, p, f'[p]))
    ensures p in f && p in f' && f[p].v == f'[p].v && f[p].valid == f'[p].valid ==>
              multiset(At(c.docrefs, p)) == multiset(At(c'.docrefs, p))
  {
    hide Filter, At, CallFacts, MetricFacts, ImportFacts, DocrefFacts, Mapped;
    if p in f {
      EmptyLists(x, p, f[p]);
    }
    if p in f' {
      EmptyLists(x, p, f'[p]);
    }
  }

  lemma EmptyLists(x: Extract, p: string, ver: Version)
    ensures NoFacts(x, p, ver) <==>
            && multiset(CallsOf(x, p, ver)) == multiset([]) && multiset(MetricsOf(x, p, ver)) == multiset([])
            && multiset(Mapped(RoundTrip.TripImport, ImportsOf(x, p, ver))) == multiset([])
  {
    hide CallsOf, MetricsOf, ImportsOf, RoundTrip.TripImport;
    EmptyList(CallsOf(x, p, ver));
    EmptyList(MetricsOf(x, p, ver));
    EmptyList(Mapped(RoundTrip.TripImport, ImportsOf(x, p, ver)));
  }

  lemma EmptyList<T>(s: seq<T>)
    ensures s == [] <==> multiset(s) == multiset([])
  {
    assert |multiset(s)| == |s|;
  }

  // The calls, metrics and imports of a file are the rebuild's exactly in these cases: the
  // file yields a chunk, and its facts are those of its last read, or it has none; or it
  // yields none, and its last read found no facts, or is superseded; or it is gone.  Its
  // links are the rebuild's if the same paths were scanned; its embeddings, if all runs had
  // one glossary.
  lemma IncrementalFactsAreRebuilt(x: Extract, acts: seq<Act>, states: seq<State>,
                                   rebuild: Run, clean: State, rebuilt: State, p: string)
    requires History(x, acts, states) && Honest(acts) && Rebuilds(x, acts, rebuild, clean, rebuilt)
    ensures var c, c', tree := Canonical(states[|acts|].t), Canonical(rebuilt.t), rebuild.tree;
            && (p in tree && Chunky(x, p, tree[p]) ==>
                  (SameFactsOf(p, c, c') <==>
                   (exists i: nat :: LastRead(x, acts, p, i)) || NoFacts(x, p, VersionOf(rebuild, p))))
            && (p in tree && !Chunky(x, p, tree[p]) ==>
                  (SameFactsOf(p, c, c') <==> StaleFactsNone(x, acts, p)))
            && (p !in tree ==> SameFactsOf(p, c, c'))
            && (p in tree && Chunky(x, p, tree[p]) && LastReadAmong(x, acts, p, tree.Keys) ==>
                  multiset(At(c.docrefs, p)) == multiset(At(c'.docrefs, p)))
    ensures OneGlossary(acts, rebuild.l.glossary) && (p in rebuild.tree ==> Chunky(x, p, rebuild.tree[p])) ==>
              Filter(EntriesOf(Doc, p), states[|acts|].entries) == Filter(EntriesOf(Doc, p), rebuilt.entries)
  {
    hide Tracks, Does, NothingStored, NextRecs, NextVersions, EntryLedger, FactLedger, Performs, Honest, OneGlossary,
      Canonical, HoldsFacts, SameFactsOf, LastRead, NoFacts, Filter, Chunky, FileEntries, EntriesOf, At;
    HistoryTracked(x, acts, states);
    RebuiltTracked(x, rebuild, clean, rebuilt);
    var s := states[|acts|];
    FactsRebuiltIff(x, acts, s, rebuild, rebuilt, p);
    if OneGlossary(acts, rebuild.l.glossary) && (p in rebuild.tree ==> Chunky(x, p, rebuild.tree[p])) {
      EntriesRebuilt(x, acts, s, rebuild, rebuilt, p);
    }
  }

  // The last run to read the file again scanned these paths.
  ghost predicate LastReadAmong(x: Extract, acts: seq<Act>, p: string, paths: set<string>) {
    exists i: nat :: LastRead(x, acts, p, i) && acts[i].run.tree.Keys == paths
  }

  // Whatever the index still holds of the facts of the file is empty.
  ghost predicate StaleFactsNone(x: Extract, acts: seq<Act>, p: string) {
    forall i: nat :: LastRead(x, acts, p, i) && p in acts[i].run.tree ==>
      NoFacts(x, p, VersionOf(acts[i].run, p))
  }

  lemma StaleIs(x: Extract, acts: seq<Act>, p: string)
    ensures StaleFactsNone(x, acts, p) <==> p !in FactLedger(x, acts) || NoFacts(x, p, FactLedger(x, acts)[p])
    ensures forall paths :: LastReadAmong(x, acts, p, paths) ==>
              p in FactLedger(x, acts) && FactLedger(x, acts)[p].valid == paths
  {
    hide FactLedger, LastRead, NoFacts;
    FactsMean(x, acts, p);
    LastReadIs(x, acts, p);
  }

  lemma FactsRebuiltIff(x: Extract, acts: seq<Act>, s: State, rebuild: Run, rebuilt: State, p: string)
    requires Honest(acts)
    requires acts != [] && acts[|acts| - 1].Reads? && rebuild.tree == acts[|acts| - 1].run.tree
    requires Tracks(x, EntryLedger(x, acts), FactLedger(x, acts), s)
    requires Tracks(x, NextRecs(x, map[], Reads(rebuild, true)), NextVersions(x, map[], map[], Reads(rebuild, true)),
        rebuilt)
    ensures var c, c', tree := Canonical(s.t), Canonical(rebuilt.t), rebuild.tree;
            && (p in tree && Chunky(x, p, tree[p]) ==>
                  (SameFactsOf(p, c, c') <==>
                   (exists i: nat :: LastRead(x, acts, p, i)) || NoFacts(x, p, VersionOf(rebuild, p))))
            && (p in tree && !Chunky(x, p, tree[p]) ==>
                  (SameFactsOf(p, c, c') <==> StaleFactsNone(x, acts, p)))
            && (p !in tree ==> SameFactsOf(p, c, c'))
            && (p in tree && Chunky(x, p, tree[p]) && LastReadAmong(x, acts, p, tree.Keys) ==>
                  multiset(At(c.docrefs, p)) == multiset(At(c'.docrefs, p)))
  {
    hide NextRecs, NextVersions, EntryLedger, FactLedger, Honest, Canonical, HoldsEntries, HoldsFacts, SameFactsOf,
      LastRead, NoFacts, Chunky, At, StaleFactsNone, LastReadAmong;
    RebuildLedgers(x, rebuild);
    FactsMean(x, acts, p);
    StaleIs(x, acts, p);
    var facts, built := FactLedger(x, acts), NextVersions(x, map[], map[], Reads(rebuild, true));
    FactsCompared(x, p, facts, Canonical(s.t), built, Canonical(rebuilt.t));
    if p !in rebuild.tree {
      GoneIsGone(x, acts, p);
    } else if Chunky(x, p, rebuild.tree[p]) && p in facts {
      LedgersAgree(x, acts, p);
      YieldsNow(x, acts, p);
    }
  }

  lemma YieldsNow(x: Extract, acts: seq<Act>, p: string)
    requires Honest(acts) && acts != [] && acts[|acts| - 1].Reads? && p in acts[|acts| - 1].run.tree
    requires Chunky(x, p, acts[|acts| - 1].run.tree[p])
    ensures p in EntryLedger(x, acts) && EntryLedger(x, acts)[p].Read?
    ensures EntryLedger(x, acts)[p].version.v == acts[|acts| - 1].run.tree[p]
  {
    hide EntryLedger, Honest, Chunky;
    LedgerCurrent(x, acts, p, |acts| - 1);
  }

  lemma EntriesRebuilt(x: Extract, acts: seq<Act>, s: State, rebuild: Run, rebuilt: State, p: string)
    requires Honest(acts) && OneGlossary(acts, rebuild.l.glossary)
    requires acts != [] && acts[|acts| - 1].Reads? && rebuild.tree == acts[|acts| - 1].run.tree
    requires p in rebuild.tree ==> Chunky(x, p, rebuild.tree[p])
    requires Tracks(x, EntryLedger(x, acts), FactLedger(x, acts), s)
    requires Tracks(x, NextRecs(x, map[], Reads(rebuild, true)), NextVersions(x, map[], map[], Reads(rebuild, true)),
        rebuilt)
    ensures Filter(EntriesOf(Doc, p), s.entries) == Filter(EntriesOf(Doc, p), rebuilt.entries)
  {
    hide NextRecs, NextVersions, EntryLedger, FactLedger, Honest, OneGlossary, HoldsFacts, Filter, EntriesOf, Chunky,
      Embedded;
    RebuildLedgers(x, rebuild);
    if p !in rebuild.tree {
      GoneIsGone(x, acts, p);
    } else {
      YieldsNow(x, acts, p);
      RecordedGlossary(x, acts, p, rebuild.l.glossary);
    }
  }

  // A file emptied in place keeps its old entries even through a forced run.
  lemma ForceKeepsEmptied(x: Extract, run: Run, s: State, s': State, p: string)
    requires Does(x, run, true, s, s')
    requires p in run.tree && !Chunky(x, p, run.tree[p])
    ensures Filter(EntriesOf(Doc, p), s'.entries) == Filter(EntriesOf(Doc, p), s.entries)
  {
    hide Filter, NewEntries, Pieces, Backend.Written, Backend.LoadedFrom, PushedAll, Concat;
    FileAfterRun(x, run.tree, run.r, true, s.entries, run.l.mem, run.l.glossary, p);
  }

  // Exports are not carried over: after a non-forced run only the files just read have any.
  lemma OnlyChangedFilesExport(x: Extract, run: Run, force: bool, s: State, s': State, p: string)
    requires Does(x, run, force, s, s')
    ensures At(Group(s'.t.exports), p) ==
            if p in ChangedBy(x, run.tree, force, s.entries) then ExportFacts(x, run.tree)(p) else []
  {
    hide Filter, NewEntries, ChangedBy, Backend.LoadedFrom, PushedAll, Concat, Erased, At, Parsed, Group,
      Tables.WithEdges, Tables.WithIndex, Tables.WithNotes;
    FactsAfterRun(x, run.tree, run.r, force, s.entries, run.l, run.data, p);
    ExportsWritten(s.t, run.data, run.o);
    GroupFlatten(run.data.exports, run.o.exports);
    AtDropped(run.data.exports, p);
  }

  ghost function TypesIn(p: string): TypeEdge -> bool {
    (e: TypeEdge) => e.file == p
  }

  // Nor are types.
  lemma OnlyChangedFilesTyped(x: Extract, run: Run, force: bool, s: State, s': State, p: string)
    requires Does(x, run, force, s, s')
    ensures Filter(TypesIn(p), Canonical(s'.t).types) ==
            if p in ChangedBy(x, run.tree, force, s.entries) then TypeFacts(x, run.tree)(p) else []
  {
    hide Filter, NewEntries, ChangedBy, Backend.LoadedFrom, Backend.Written, PushedAll, Concat, Erased, At, Parsed,
      Group, Mapped, Tables.OfKind, Enumerates;
    var changed := ChangedBy(x, run.tree, force, s.entries);
    EnumeratesDistinct(run.r.code, changed);
    forall k, v | k in run.r.code && v in TypeFacts(x, run.tree)(k) ensures TypesIn(p)(v) <==> k == p {
      TypeNamesFile(x, run.tree, k, v);
    }
    FilterConcat(TypeFacts(x, run.tree), TypesIn(p), p, run.r.code);
    RoundTrip.EdgesOfWritten(s.t, run.data, run.o, Tables.Type);
    RoundTrip.TypesBack(run.data.types);
  }

  lemma TypeNamesFile(x: Extract, tree: Tree, k: string, v: TypeEdge)
    requires v in TypeFacts(x, tree)(k)
    ensures v.file == k
  {
    var i :| 0 <= i < |TypeFacts(x, tree)(k)| && TypeFacts(x, tree)(k)[i] == v;
    if Parsed(x, tree, k) {
      assert TypeFacts(x, tree)(k) == Mapped(TypeAt(k), x.types(k, tree[k].content));
      assert v == TypeAt(k)(x.types(k, tree[k].content)[i]);
    }
  }

  ghost predicate SameSurface(p: string, t: Tables.Tables, t': Tables.Tables) {
    && At(Group(t.exports), p) == At(Group(t'.exports), p)
    && Filter(TypesIn(p), Canonical(t).types) == Filter(TypesIn(p), Canonical(t').types)
  }

  // So after a run the exports and types of a file are the rebuild's exactly if that very run
  // read it again, or it yields no chunk, is gone, or has neither.
  lemma SurfaceRebuiltIff(x: Extract, run: Run, force: bool, s: State, s': State,
                          rebuild: Run, clean: State, rebuilt: State, p: string)
    requires Does(x, run, force, s, s') && Does(x, rebuild, true, clean, rebuilt) && rebuild.tree == run.tree
    ensures SameSurface(p, s'.t, rebuilt.t) <==>
            || p in ChangedBy(x, run.tree, force, s.entries)
            || p !in run.tree || !Chunky(x, p, run.tree[p])
            || (ExportFacts(x, run.tree)(p) == [] && TypeFacts(x, run.tree)(p) == [])
  {
    hide Does, Filter, Group, At, Canonical, Pieces, Parsed, LastHashes;
    OnlyChangedFilesExport(x, run, force, s, s', p);
    OnlyChangedFilesExport(x, rebuild, true, clean, rebuilt, p);
    OnlyChangedFilesTyped(x, run, force, s, s', p);
    OnlyChangedFilesTyped(x, rebuild, true, clean, rebuilt, p);
  }

  lemma ExportsWritten(t: Tables.Tables, data: IndexData, o: Backend.Order)
    requires Backend.Walks(o, data)
    ensures Backend.Written(t, data, o).exports == Flatten(data.exports, o.exports)
  {
    hide Tables.WithIndex, Tables.WithNotes, Flatten;
  }

  // ---- histories there are ----

  // A run is always possible, whatever the tree and the index.
  lemma RunExists(x: Extract, tree: Tree, force: bool, s: State) returns (run: Run, s': State)
    ensures run.tree == tree && Does(x, run, force, s, s')
  {
    hide Canonical, NewEntries, ChangedBy, Filter, Concat, PushedAll, Erased, Backend.Written, Backend.LoadedFrom,
      Enumerates;
    var l := Canonical(s.t);
    CanonicalLoads(s.t);
    var changed := ChangedBy(x, tree, force, s.entries);
    var files := EnumerationExists(tree.Keys);
    var topics := EnumerationExists(l.mem.Keys);
    var order := EnumerationExists(changed);
    var r := Orders(files, topics, order, order);
    var data := IndexData(
      l.index.(entries := NewEntries(x, tree, r, force, s.entries, l.mem, l.glossary)), l.mem, l.glossary,
      Filter(KeepsCall(changed, tree.Keys), if force then [] else l.calls) + Concat(CallFacts(x, tree), order),
      PushedAll(Erased(if force then map[] else l.imports, changed, tree.Keys), ImportFacts(x, tree), order),
      PushedAll(Erased(if force then map[] else l.docrefs, changed, tree.Keys), DocrefFacts(x, tree, tree.Keys), order),
      PushedAll(map[], ExportFacts(x, tree), order),
      Concat(TypeFacts(x, tree), order),
      Filter(KeepsMetric(changed, tree.Keys), if force then [] else l.metrics) + Concat(MetricFacts(x, tree), order));
    var imports := EnumerationExists(data.imports.Keys);
    var docrefs := EnumerationExists(data.docrefs.Keys);
    var exports := EnumerationExists(data.exports.Keys);
    var o := Backend.Order(imports, docrefs, exports);
    run := Run(tree, r, l, data, o);
    s' := State(data.index.entries, Backend.Written(s.t, data, o));
  }

  ghost function Blank(): State {
    State([], Tables.Tables(0, F32, map[], map[], map[], map[], [], [], []))
  }

  lemma {:induction false} HistoryExists(x: Extract, trees: seq<Tree>, forced: seq<bool>)
    returns (acts: seq<Act>, states: seq<State>)
    requires |trees| == |forced|
    ensures History(x, acts, states) && |acts| == |trees|
    ensures forall i :: 0 <= i < |acts| ==>
              acts[i].Reads? && acts[i].run.tree == trees[i] && acts[i].force == forced[i]
  {
    hide Does;
    if trees == [] {
      acts, states := [], [Blank()];
    } else {
      var n := |trees| - 1;
      var acts0, states0 := HistoryExists(x, trees[..n], forced[..n]);
      var run, s' := RunExists(x, trees[n], forced[n], states0[n]);
      acts, states := acts0 + [Reads(run, forced[n])], states0 + [s'];
    }
  }

  // The tree holding one file "a".
  function TreeOf(hash: nat, content: string): Tree {
    map["a" := FileV(hash, content)]
  }

  lemma PlainYields(hash: nat, content: string, run: Run, force: bool)
    requires run.tree == TreeOf(hash, content)
    ensures Yields(Plain([0]), Reads(run, force), "a") <==> content != ""
    ensures Total(Plain([0]))
  {
  }

  // Runs that see "a" with text under hash 1, or empty under hash 2.
  ghost predicate SeesA(act: Act) {
    act.Reads? && (act.run.tree == TreeOf(1, "x") || act.run.tree == TreeOf(2, ""))
  }

  lemma SeesAHonest(acts: seq<Act>)
    requires forall i :: 0 <= i < |acts| ==> SeesA(acts[i])
    ensures Honest(acts)
  {
    hide SeesA;
    forall i, j, p | 0 <= i < |acts| && 0 <= j < |acts| && SeenTwice(acts[i], acts[j], p)
      ensures acts[i].Reads? && acts[j].Reads? && p in acts[i].run.tree && p in acts[j].run.tree
      ensures acts[i].run.tree[p] == acts[j].run.tree[p]
    {
      SeesTheSame(acts[i], acts[j], p);
    }
    forall i, j | 0 <= i < |acts| && 0 <= j < |acts|
      ensures !AddedAsZero(acts[i], acts[j])
    {
      SeesTheSame(acts[i], acts[j], "a");
    }
  }

  lemma SeesTheSame(a: Act, b: Act, p: string)
    requires SeesA(a) && SeesA(b)
    ensures a.Reads? && b.Reads? && !AddedAsZero(a, b)
    ensures SeenTwice(a, b, p) ==> p in a.run.tree && p in b.run.tree && a.run.tree[p] == b.run.tree[p]
  {
  }

  // A file emptied in place: two runs after which the index is not what a rebuild gives.
  lemma EmptiedDiffers()
    returns (acts: seq<Act>, states: seq<State>, rebuild: Run, rebuilt: State)
    ensures var x := Plain([0]);
            && History(x, acts, states) && Honest(acts) && Total(x) && Rebuilds(x, acts, rebuild, Blank(), rebuilt)
            && acts[|acts| - 1].run.tree == TreeOf(2, "") && !SameMetas(states[|acts|], rebuilt)
  {
    hide Does, Plain, Total, SameMetas, Leftover, History, Honest;
    var x := Plain([0]);
    acts, states := HistoryExists(x, [TreeOf(1, "x"), TreeOf(2, "")], [false, false]);
    PlainYields(1, "x", acts[0].run, false);
    PlainYields(2, "", acts[1].run, false);
    SeesAHonest(acts);
    rebuild, rebuilt := RunExists(x, TreeOf(2, ""), true, Blank());
    LeftoverIsEmptied(x, acts, "a");
    assert LastYield(x, acts, "a", 0);
    IncrementalIsRebuildIff(x, acts, states, rebuild, Blank(), rebuilt);
  }

  // The history of two runs that see one unchanged file.
  ghost predicate SeenUnchanged(acts: seq<Act>) {
    && |acts| == 2 && acts[0].Reads? && acts[1].Reads? && !acts[1].force
    && acts[0].run.tree == TreeOf(1, "x") && acts[1].run.tree == TreeOf(1, "x")
  }

  // After the second the file's exports are gone, which a rebuild has.
  lemma SurfaceGoes() returns (acts: seq<Act>, states: seq<State>, rebuild: Run, rebuilt: State)
    ensures History(Plain([0]), acts, states) && SeenUnchanged(acts)
    ensures Rebuilds(Plain([0]), acts, rebuild, Blank(), rebuilt)
    ensures |states| == 3 && !SameSurface("a", states[2].t, rebuilt.t)
  {
    hide Does, Plain, SameSurface, ChangedBy, TreeOf, ExportFacts, TypeFacts, Chunky;
    var x := Plain([0]);
    acts, states := HistoryExists(x, [TreeOf(1, "x"), TreeOf(1, "x")], [false, false]);
    rebuild, rebuilt := RunExists(x, TreeOf(1, "x"), true, Blank());
    NotReadTwice(acts, states);
    PlainExports(acts[1].run);
    SurfaceRebuiltIff(x, acts[1].run, false, states[1], states[2], rebuild, Blank(), rebuilt, "a");
  }

  lemma NotReadTwice(acts: seq<Act>, states: seq<State>)
    requires History(Plain([0]), acts, states) && SeenUnchanged(acts)
    ensures "a" !in ChangedBy(Plain([0]), acts[1].run.tree, false, states[1].entries)
  {
    hide Does, Plain, Honest, HoldsFacts, ChangedBy, EntryLedger, FactLedger, HoldsEntries;
    var x := Plain([0]);
    var first := acts[..1];
    SeesAHonest(first);
    PlainYields(1, "x", acts[0].run, acts[0].force);
    assert first[0] == acts[0] && LastYield(x, first, "a", 0);
    LedgerCurrent(x, first, "a", 0);
    HistoryTracked(x, first, states[..2]);
    var led := EntryLedger(x, first);
    ChangedIs(x, led, acts[1].run.tree, false, states[1].entries);
    PlainKnown(led, acts[1].run.tree);
  }

  lemma PlainKnown(led: map<string, Rec>, tree: Tree)
    requires "a" in led && led["a"].Read? && led["a"].version.v == FileV(1, "x") && tree == TreeOf(1, "x")
    ensures "a" !in ChangedFiles(Plain([0]), tree, false, KnownHashes(Plain([0]), led))
  {
    var x, ver := Plain([0]), led["a"].version;
    EmbeddedAll(x, AsPending(Doc, FileChunks(x, "a", ver.v, ver.glossary)));
    assert FileEntries(x, "a", led["a"]) != [];
  }

  lemma PlainExports(run: Run)
    requires run.tree == TreeOf(1, "x")
    ensures "a" in run.tree && Chunky(Plain([0]), "a", run.tree["a"])
    ensures ExportFacts(Plain([0]), run.tree)("a") != []
  {
    assert Parsed(Plain([0]), run.tree, "a");
  }

  // The history of a file emptied, passed over by a forced run, then restored under its old hash.
  ghost predicate EmptiedAndBack(acts: seq<Act>) {
    && |acts| == 3 && acts[0].Reads? && acts[1].Reads? && acts[2].Reads?
    && acts[0].run.tree == TreeOf(1, "x") && !acts[0].force
    && acts[1].run.tree == TreeOf(2, "") && acts[1].force
    && acts[2].run.tree == TreeOf(1, "x") && !acts[2].force
  }

  // At its end the file's entries are those of a rebuild, its facts are not.
  lemma FactsGo() returns (acts: seq<Act>, states: seq<State>, rebuild: Run, rebuilt: State)
    ensures var x := Plain([0]);
            && History(x, acts, states) && Honest(acts) && Total(x) && Rebuilds(x, acts, rebuild, Blank(), rebuilt)
            && EmptiedAndBack(acts) && SameMetas(states[|acts|], rebuilt)
            && !SameFactsOf("a", Canonical(states[|acts|].t), Canonical(rebuilt.t))
  {
    hide Does, Plain, Total, SameMetas, Leftover, SameFactsOf, Canonical, LastRead, NoFacts, Honest, History, Chunky,
      TreeOf, LastReadAmong, StaleFactsNone;
    var x := Plain([0]);
    acts, states := HistoryExists(x, [TreeOf(1, "x"), TreeOf(2, ""), TreeOf(1, "x")], [false, true, false]);
    rebuild, rebuilt := RunExists(x, TreeOf(1, "x"), true, Blank());
    SeesAHonest(acts);
    BackHasNoLeftover(acts);
    IncrementalIsRebuildIff(x, acts, states, rebuild, Blank(), rebuilt);
    NotReadSince(acts);
    PlainHasFacts(rebuild);
    IncrementalFactsAreRebuilt(x, acts, states, rebuild, Blank(), rebuilt, "a");
  }

  lemma BackHasNoLeftover(acts: seq<Act>)
    requires EmptiedAndBack(acts)
    ensures Total(Plain([0])) && forall p :: !Leftover(Plain([0]), acts, p)
  {
    hide Total, Leftover, Plain;
    PlainYields(1, "x", acts[2].run, false);
    forall p ensures !Leftover(Plain([0]), acts, p) {
      LeftoverIsEmptied(Plain([0]), acts, p);
      if p != "a" {
        assert Loses(acts[2], p);
        HeldStep(Plain([0]), acts, p);
      }
    }
  }

  lemma PlainHasFacts(run: Run)
    requires run.tree == TreeOf(1, "x")
    ensures "a" in run.tree && Chunky(Plain([0]), "a", run.tree["a"])
    ensures !NoFacts(Plain([0]), "a", VersionOf(run, "a"))
  {
    var x, tree := Plain([0]), map["a" := run.tree["a"]];
    assert Parsed(x, tree, "a");
    assert |CallFacts(x, tree)("a")| == |x.calls("a", "x")| == 1;
  }

  // In that history the forced run does not read the file again, nor does the last one.
  lemma NotReadSince(acts: seq<Act>)
    requires EmptiedAndBack(acts)
    ensures forall i: nat :: !LastRead(Plain([0]), acts, "a", i)
  {
    hide Plain, EntryLedger, Changed, Honest, LastYield;
    var x := Plain([0]);
    var led := EntryLedger(x, acts[..2]);
    SeesAHonest(acts[..2]);
    YieldedFirst(acts);
    LedgerCurrent(x, acts[..2], "a", 0);
    PlainKnows(x, acts, led);
    PlainYields(2, "", acts[1].run, true);
    BarrenNotRead(x, EntryLedger(x, acts[..1]), acts[1], "a");
  }

  lemma YieldedFirst(acts: seq<Act>)
    requires EmptiedAndBack(acts)
    ensures LastYield(Plain([0]), acts[..2], "a", 0)
  {
    hide Plain;
    PlainYields(1, "x", acts[0].run, false);
    PlainYields(2, "", acts[1].run, true);
    assert acts[..2][0] == acts[0] && acts[..2][1] == acts[1];
  }

  lemma BarrenNotRead(x: Extract, led: map<string, Rec>, act: Act, p: string)
    requires act.Reads? && !Yields(x, act, p)
    ensures p !in Changed(x, led, act.run, act.force)
  {
    hide Pieces, FileEntries;
  }

  lemma PlainKnows(x: Extract, acts: seq<Act>, led: map<string, Rec>)
    requires x == Plain([0]) && EmptiedAndBack(acts) && led == EntryLedger(x, acts[..2])
    requires "a" in led && led["a"].Read? && led["a"].version.v == FileV(1, "x")
    ensures !ReadAgain(x, acts, "a", 2)
  {
    hide EntryLedger, Plain, KnownHashes, ChangedFiles;
    PlainKnown(led, acts[2].run.tree);
  }
}
