// What becomes of stored embeddings over runs of the daemon: as long as an entry stays
// published and the configuration stays the same, it is read back as it was stored.

module Survivors {
  import opened Half
  import opened Data
  import opened Filters
  import opened Indexing
  import opened Operations
  import opened Protocol
  import DaemonLaws
  import MetaSaves
  import Tables
  import Backend

  // The index as its database holds it: the next one once saved, otherwise the published one.
  ghost function Current(s: System, name: string): Index
    requires name in s.cells
  {
    if WorkingOn(s, name) && s.phase.Saved? then s.phase.next else Latest(s.cells[name].pubs)
  }

  // The rows are those of a full save of this index.
  ghost predicate FullSave(t: Tables.Tables, index: Index) {
    t.dim == index.dim && t.precision == index.precision && t.entries == Tables.Numbered(Tables.RowsOf(index))
  }

  ghost predicate Configured(s: System, name: string, dim: nat, p: Precision) {
    && name in s.cells && s.cells[name].t.dim == dim && s.cells[name].t.precision == p
    && Current(s, name).dim == dim && Current(s, name).precision == p
  }

  // Every reindex of the index run from moment i to j is for this model and precision.
  ghost predicate ConfiguredAlike(ss: seq<System>, i: nat, j: nat, name: string, dim: nat, p: Precision)
    requires j < |ss|
  {
    forall m :: i <= m <= j && WorkingOn(ss[m], name) && ss[m].phase.Operated? && ss[m].phase.task.job.Reindex? ==>
      ss[m].phase.task.job.scan.rooted ==>
      ss[m].phase.task.job.scan.dim == dim && ss[m].phase.task.job.scan.precision == p
  }

  // The entry is there, and nothing else has its path and line.
  ghost predicate Held(es: seq<Entry>, e: Entry) {
    && e in es
    && forall a :: a in es && a.meta.path == e.meta.path && a.meta.line == e.meta.line ==> a == e
  }

  ghost predicate HeldFrom(ss: seq<System>, i: nat, j: nat, name: string, e: Entry)
    requires j < |ss|
  {
    forall m :: i <= m <= j ==> name in ss[m].cells && Held(Current(ss[m], name).entries, e)
  }

  // The rows of this path and line, of which there is one, are of this entry, with its embedding.
  ghost predicate RowsOfEntry(rows: map<nat, Tables.Row>, e: Entry, dim: nat, p: Precision) {
    && (exists k :: k in rows && rows[k].meta == e.meta)
    && forall k :: k in rows && rows[k].meta.path == e.meta.path && rows[k].meta.line == e.meta.line ==>
         rows[k] == Tables.Row(e.meta, Stored(e.embedding, dim, p))
  }

  // ---- one save ----

  lemma AppliedKeepsConfiguration(job: Job, t: Tables.Tables, index: Index, next: Index)
    requires Applied(job, t, index) == Changed(next) && index.dim > 0
    requires job.Reindex? && job.scan.rooted ==> job.scan.dim == index.dim && job.scan.precision == index.precision
    ensures next.dim == index.dim && next.precision == index.precision
  {
    hide NewEntries, Filter;
  }

  lemma FullSaveRows(index: Index, e: Entry)
    requires Held(index.entries, e)
    ensures RowsOfEntry(Tables.Numbered(Tables.RowsOf(index)), e, index.dim, index.precision)
  {
    hide Stored, Tables.NumberedFrom;
    var rows := Tables.Numbered(Tables.RowsOf(index));
    var i :| 0 <= i < |index.entries| && index.entries[i] == e;
    assert rows[i + 1] == Tables.RowsOf(index)[i];
    forall k | k in rows && rows[k].meta.path == e.meta.path && rows[k].meta.line == e.meta.line
      ensures rows[k] == Tables.Row(e.meta, Stored(e.embedding, index.dim, index.precision))
    {
      assert rows[k] == Tables.RowsOf(index)[k - 1];
      assert index.entries[k - 1] in index.entries;
    }
  }

  lemma MetaSaveRows(before: map<nat, Tables.Row>, es: seq<Entry>, rows: seq<Tables.Row>, e: Entry, dim: nat,
      p: Precision)
    requires RowsOfEntry(before, e, dim, p) && Held(es, e) && Backend.Reattached(before, Metas(es), rows)
    ensures RowsOfEntry(Tables.Numbered(rows), e, dim, p)
  {
    hide Stored, Tables.NumberedFrom, Backend.Attached;
    var after := Tables.Numbered(rows);
    var i :| 0 <= i < |es| && es[i] == e;
    assert after[i + 1] == rows[i];
    forall k | k in after && after[k].meta.path == e.meta.path && after[k].meta.line == e.meta.line
      ensures after[k] == Tables.Row(e.meta, Stored(e.embedding, dim, p))
    {
      assert after[k] == rows[k - 1] && es[k - 1] in es;
      BlobKept(before, e, dim, p, rows[k - 1].blob);
    }
  }

  lemma BlobKept(before: map<nat, Tables.Row>, e: Entry, dim: nat, p: Precision, b: Blob)
    requires RowsOfEntry(before, e, dim, p) && Backend.Attached(before, Backend.KeyOf(e.meta), b)
    ensures b == Stored(e.embedding, dim, p)
  {
    hide Stored, Backend.Empty;
    var j :| j in before && before[j].meta == e.meta;
    var k := MetaSaves.AttachedFrom(before, Backend.KeyOf(e.meta), b, j);
    MetaSaves.StoredOrNull(e.embedding, dim, p);
  }

  // A save by a job run from an index of this configuration keeps it, and the entry's row.
  lemma SaveKeeps(job: Job, t: Tables.Tables, index: Index, next: Index, t': Tables.Tables)
    requires SavedAs(job, index, t, next, t') && t.dim == index.dim == next.dim
    requires t.precision == index.precision == next.precision
    ensures t'.dim == next.dim && t'.precision == next.precision
  {
    hide Backend.Reattached, Backend.Walks, Backend.LoadedFrom, Assembles, Tables.WithEdges, Tables.NumberedFrom,
      Tables.FtsOf;
    if job.Reindex? && job.scan.rooted {
      ReindexSavesAll(job.scan, index, t, next, t');
    }
  }

  lemma ReindexSavesAll(s: Scan, index: Index, t: Tables.Tables, next: Index, t': Tables.Tables)
    requires Reindexed(s, index, t, next, t')
    ensures FullSave(t', next)
  {
    hide Backend.Walks, Backend.LoadedFrom, Assembles, Tables.NumberedFrom, Tables.FtsOf;
  }

  lemma SaveKeepsRows(job: Job, t: Tables.Tables, index: Index, next: Index, t': Tables.Tables, e: Entry)
    requires SavedAs(job, index, t, next, t') && Held(next.entries, e)
    requires RowsOfEntry(t.entries, e, next.dim, next.precision)
    ensures RowsOfEntry(t'.entries, e, next.dim, next.precision)
  {
    hide Backend.Reattached, Backend.Walks, Backend.LoadedFrom, Assembles, Tables.NumberedFrom, Tables.FtsOf, Held,
      RowsOfEntry, Reindexed;
    FullSaveRows(next, e);
    match job
    case Reindex(s) =>
      if s.rooted {
        ReindexSavesAll(s, index, t, next, t');
      }
    case AddTerm(_, _) =>
    case RmTerm(_) =>
    case RmDoc(_) =>
    case _ =>
      var rows :| Backend.Reattached(t.entries, Metas(next.entries), rows) &&
        t' == Tables.WithEntries(t, next.dim, next.precision, rows);
      MetaSaveRows(t.entries, next.entries, rows, e, next.dim, next.precision);
  }

  // ---- one step ----

  lemma EffectAlone(job: Job, t: Tables.Tables)
    ensures var t' := StoreEffect(job, t);
            t'.entries == t.entries && t'.dim == t.dim && t'.precision == t.precision
  {
  }

  // Only the save of a job of this index changes what its database holds of entries.
  lemma OtherStep(s: System, e: Event, s': System, name: string)
    requires Occurs(s, e, s') && name in s.cells && !(e.Save? && WorkingOn(s, name))
    ensures name in s'.cells && Current(s', name) == Current(s, name)
    ensures var t, t' := s.cells[name].t, s'.cells[name].t;
            t'.entries == t.entries && t'.dim == t.dim && t'.precision == t.precision
  {
    hide StoreEffect, Applied, SavedAs, SameRequest, Fits;
    match e
    case Operate(job) => EffectAlone(job, s.cells[s.phase.task.name].t);
    case Throw(job, _) => EffectAlone(job, s.cells[s.phase.task.name].t);
    case _ =>
  }

  // What a save stores is made of the published index.
  lemma SaveStep(c0: Cell, s: System, e: Event, s': System)
    requires e.Save? && Occurs(s, e, s') && CellHolds(c0, s, s.phase.task.name)
    ensures s.phase.Operated?
    ensures var name, job := s.phase.task.name, s.phase.task.job;
            && name in s'.cells && SavedAs(job, s.phase.copy, s.cells[name].t, s.phase.next, s'.cells[name].t)
            && Current(s', name) == s.phase.next && s.phase.copy == Current(s, name)
            && exists t :: Applied(job, t, s.phase.copy) == Changed(s.phase.next)
  {
    hide StoreEffect, Applied, SavedAs, Fold, SameStore, SameRequest, Fits;
  }

  lemma StepConfigured(c0: Cell, s: System, e: Event, s': System, name: string, dim: nat, p: Precision)
    requires Occurs(s, e, s') && Configured(s, name, dim, p) && dim > 0 && CellHolds(c0, s, name)
    requires WorkingOn(s, name) && s.phase.Operated? && s.phase.task.job.Reindex? && s.phase.task.job.scan.rooted ==>
               s.phase.task.job.scan.dim == dim && s.phase.task.job.scan.precision == p
    ensures Configured(s', name, dim, p)
  {
    hide Occurs, CellHolds, SavedAs, Applied, Current, StoreEffect;
    if e.Save? && WorkingOn(s, name) {
      SaveStep(c0, s, e, s');
      var job := s.phase.task.job;
      var t :| Applied(job, t, s.phase.copy) == Changed(s.phase.next);
      AppliedKeepsConfiguration(job, t, s.phase.copy, s.phase.next);
      SaveKeeps(job, s.cells[name].t, s.phase.copy, s.phase.next, s'.cells[name].t);
    } else {
      OtherStep(s, e, s', name);
    }
  }

  lemma StepRows(c0: Cell, s: System, e: Event, s': System, name: string, en: Entry, dim: nat, p: Precision)
    requires Occurs(s, e, s') && Configured(s, name, dim, p) && Configured(s', name, dim, p) && CellHolds(c0, s, name)
    requires RowsOfEntry(s.cells[name].t.entries, en, dim, p) && Held(Current(s', name).entries, en)
    ensures RowsOfEntry(s'.cells[name].t.entries, en, dim, p)
  {
    hide Occurs, CellHolds, SavedAs, Applied, Current, StoreEffect, RowsOfEntry, Held;
    if e.Save? && WorkingOn(s, name) {
      SaveStep(c0, s, e, s');
      SaveKeepsRows(s.phase.task.job, s.cells[name].t, s.phase.copy, s.phase.next, s'.cells[name].t, en);
    } else {
      OtherStep(s, e, s', name);
    }
  }

  // ---- runs ----

  // From any moment at which an index of a positive dimension is fully saved, through adds,
  // removals and failures, and reindexes under the same model and precision: dimension and
  // precision stay what they were, in the database and in what is published.
  lemma {:induction false} ConfigurationStays(ss: seq<System>, i: nat, j: nat, name: string)
    requires Execution(ss) && i <= j < |ss| && name in ss[i].cells
    requires FullSave(ss[i].cells[name].t, Current(ss[i], name)) && Current(ss[i], name).dim > 0
    requires ConfiguredAlike(ss, i, j, name, Current(ss[i], name).dim, Current(ss[i], name).precision)
    ensures Configured(ss[j], name, Current(ss[i], name).dim, Current(ss[i], name).precision)
    decreases j - i
  {
    hide Occurs, Init, CellHolds, Current, RowsHold;
    if i == j {
      SavedConfigured(ss[i], name);
    } else {
      var index := Current(ss[i], name);
      ConfigurationStays(ss, i, j - 1, name);
      assert Next(ss[j - 1], ss[j]);
      var e :| Occurs(ss[j - 1], e, ss[j]);
      CellAt(ss, j - 1, name);
      StepConfigured(ss[0].cells[name], ss[j - 1], e, ss[j], name, index.dim, index.precision);
    }
  }

  lemma SavedConfigured(s: System, name: string)
    requires name in s.cells && FullSave(s.cells[name].t, Current(s, name))
    ensures Configured(s, name, Current(s, name).dim, Current(s, name).precision)
  {
  }

  lemma CellAt(ss: seq<System>, j: nat, name: string)
    requires Execution(ss) && j < |ss| && name in ss[j].cells
    ensures name in ss[0].cells && CellHolds(ss[0].cells[name], ss[j], name)
  {
    hide Execution, CellHolds, RowsHold;
    DaemonLaws.RunHolds(ss, j);
  }

  // And so each entry that is held since then is read back as it was then stored, by the
  // dimension and precision stored beside it now.
  lemma {:induction false} HeldKeepsRows(ss: seq<System>, i: nat, j: nat, name: string, e: Entry)
    requires Execution(ss) && i <= j < |ss| && name in ss[i].cells
    requires FullSave(ss[i].cells[name].t, Current(ss[i], name)) && Current(ss[i], name).dim > 0
    requires ConfiguredAlike(ss, i, j, name, Current(ss[i], name).dim, Current(ss[i], name).precision)
    requires HeldFrom(ss, i, j, name, e)
    ensures name in ss[j].cells
    ensures RowsOfEntry(ss[j].cells[name].t.entries, e, Current(ss[i], name).dim, Current(ss[i], name).precision)
    decreases j - i
  {
    hide Occurs, Init, CellHolds, Current, Configured, RowsOfEntry, Held, RowsHold;
    if i == j {
      FullSaveRows(Current(ss[i], name), e);
    } else {
      var index := Current(ss[i], name);
      HeldKeepsRows(ss, i, j - 1, name, e);
      ConfigurationStays(ss, i, j - 1, name);
      ConfigurationStays(ss, i, j, name);
      assert Next(ss[j - 1], ss[j]);
      var ev :| Occurs(ss[j - 1], ev, ss[j]);
      CellAt(ss, j - 1, name);
      StepRows(ss[0].cells[name], ss[j - 1], ev, ss[j], name, e, index.dim, index.precision);
    }
  }

  lemma SurvivorReadBack(ss: seq<System>, i: nat, j: nat, name: string, e: Entry)
    requires Execution(ss) && i <= j < |ss| && name in ss[i].cells
    requires FullSave(ss[i].cells[name].t, Current(ss[i], name)) && Current(ss[i], name).dim > 0
    requires ConfiguredAlike(ss, i, j, name, Current(ss[i], name).dim, Current(ss[i], name).precision)
    requires HeldFrom(ss, i, j, name, e)
    ensures name in ss[j].cells
    ensures var index, t := Current(ss[i], name), ss[j].cells[name].t;
            && (exists k :: k in t.entries && t.entries[k].meta == e.meta)
            && forall k :: k in t.entries && t.entries[k].meta.path == e.meta.path
                           && t.entries[k].meta.line == e.meta.line ==>
                 t.entries[k].meta == e.meta
                 && Loaded(t.entries[k].blob, t.dim, t.precision) == Kept(e.embedding, index.dim, index.precision)
  {
    hide Execution, Current, Held, Stored, Loaded, Kept, FullSave, ConfiguredAlike, HeldFrom;
    var index := Current(ss[i], name);
    ConfigurationStays(ss, i, j, name);
    HeldKeepsRows(ss, i, j, name, e);
    OneTrip(e.embedding, index.dim, index.precision);
  }

  // A reindex, and the removal of a file, save the index fully; a reindex for its own model and
  // precision.
  lemma FullSaveArises(ss: seq<System>, m: nat, name: string)
    requires Execution(ss) && m + 1 < |ss| && name in ss[m].cells
    requires WorkingOn(ss[m], name) && ss[m].phase.Operated? && ss[m + 1].phase.Saved?
    requires var job := ss[m].phase.task.job; job.RmDoc? || (job.Reindex? && job.scan.rooted)
    ensures name in ss[m + 1].cells && FullSave(ss[m + 1].cells[name].t, Current(ss[m + 1], name))
    ensures var job := ss[m].phase.task.job;
            job.Reindex? ==> Current(ss[m + 1], name).dim == job.scan.dim &&
                             Current(ss[m + 1], name).precision == job.scan.precision
  {
    hide Occurs, Init, CellHolds, Current, RowsHold, Applied, Reindexed, Tables.FtsOf, Tables.RowsOf,
      Tables.NumberedFrom;
    assert Next(ss[m], ss[m + 1]);
    var e :| Occurs(ss[m], e, ss[m + 1]);
    DaemonLaws.SaveShows(ss[m], e, ss[m + 1]);
    CellAt(ss, m, name);
    SaveStep(ss[0].cells[name], ss[m], e, ss[m + 1]);
    var s, job := ss[m], ss[m].phase.task.job;
    if job.Reindex? {
      ReindexSavesAll(job.scan, s.phase.copy, s.cells[name].t, s.phase.next, ss[m + 1].cells[name].t);
      var t :| Applied(job, t, s.phase.copy) == Changed(s.phase.next);
      ReindexConfigures(job, t, s.phase.copy, s.phase.next);
    }
  }

  lemma ReindexConfigures(job: Job, t: Tables.Tables, index: Index, next: Index)
    requires job.Reindex? && job.scan.rooted && Applied(job, t, index) == Changed(next)
    ensures next.dim == job.scan.dim && next.precision == job.scan.precision
  {
    hide NewEntries;
  }

  // ---- which entries are held ----

  // The job neither adds nor removes this note or file, nor is it a reindex.
  ghost predicate Spares(job: Job, e: Entry) {
    match job
    case AddNote(topic, _, _, _, _) => !(e.meta.proto == Note && e.meta.path == topic)
    case RmNote(topic) => !(e.meta.proto == Note && e.meta.path == topic)
    case AddDoc(path, _, _, _) => !(e.meta.proto == Doc && e.meta.path == path)
    case Reindex(s) => !s.rooted
    case _ => true
  }

  lemma OthersHeld(es: seq<Entry>, proto: Proto, path: string, e: Entry)
    requires Held(es, e) && MetaSaves.Lined(es) && !(e.meta.proto == proto && e.meta.path == path)
    ensures Held(Filter(Others(proto, path), es), e) && MetaSaves.Lined(Filter(Others(proto, path), es))
  {
    hide Filter;
    FilterIn(Others(proto, path), es, e);
    forall a | a in Filter(Others(proto, path), es) ensures a in es {
      FilterIn(Others(proto, path), es, a);
    }
  }

  lemma OneMoreHeld(es: seq<Entry>, m: Meta, vec: seq<word32>, e: Entry)
    requires Held(es, e) && MetaSaves.Lined(es) && (m.proto == Note <==> m.line == 0)
    requires !(e.meta.proto == m.proto && e.meta.path == m.path)
    ensures Held(es + [Entry(m, vec)], e) && MetaSaves.Lined(es + [Entry(m, vec)])
  {
  }

  lemma JobSpares(job: Job, t: Tables.Tables, index: Index, next: Index, e: Entry)
    requires Applied(job, t, index) == Changed(next) && Spares(job, e)
    requires Held(index.entries, e) && MetaSaves.Lined(index.entries)
    ensures Held(next.entries, e) && MetaSaves.Lined(next.entries)
  {
    hide Filter, NewEntries, Held, MetaSaves.Lined;
    match job
    case AddNote(topic, _, hash, vec, _) =>
      OthersHeld(index.entries, Note, topic, e);
      OneMoreHeld(Filter(Others(Note, topic), index.entries), Meta(Note, topic, topic, 0, 0, hash), vec, e);
    case AddDoc(path, written, vec, _) =>
      if written && vec != [] {
        OthersHeld(index.entries, Doc, path, e);
        OneMoreHeld(Filter(Others(Doc, path), index.entries), Meta(Doc, path, path, 1, 0, 0), vec, e);
      }
    case RmNote(topic) => OthersHeld(index.entries, Note, topic, e);
    case _ =>
  }

  ghost predicate SparedFrom(ss: seq<System>, i: nat, j: nat, name: string, e: Entry)
    requires j < |ss|
  {
    forall m :: i <= m < j && WorkingOn(ss[m], name) && ss[m].phase.Operated? ==> Spares(ss[m].phase.task.job, e)
  }

  // An entry is held as long as no job adds or removes its note or file and none is a reindex,
  // whatever other notes and files are added or removed.
  lemma {:induction false} SparedIsHeld(ss: seq<System>, i: nat, j: nat, name: string, e: Entry)
    requires Execution(ss) && i <= j < |ss| && name in ss[i].cells && SparedFrom(ss, i, j, name, e)
    requires Held(Current(ss[i], name).entries, e) && MetaSaves.Lined(Current(ss[i], name).entries)
    ensures HeldFrom(ss, i, j, name, e)
    ensures name in ss[j].cells && MetaSaves.Lined(Current(ss[j], name).entries)
    decreases j - i
  {
    hide Occurs, Init, CellHolds, Current, Held, RowsHold, MetaSaves.Lined, SavedAs, Applied;
    if i < j {
      SparedIsHeld(ss, i, j - 1, name, e);
      assert Next(ss[j - 1], ss[j]);
      var ev :| Occurs(ss[j - 1], ev, ss[j]);
      CellAt(ss, j - 1, name);
      if ev.Save? && WorkingOn(ss[j - 1], name) {
        SaveStep(ss[0].cells[name], ss[j - 1], ev, ss[j]);
        var s := ss[j - 1];
        var t :| Applied(s.phase.task.job, t, s.phase.copy) == Changed(s.phase.next);
        JobSpares(s.phase.task.job, t, s.phase.copy, s.phase.next, e);
      } else {
        OtherStep(ss[j - 1], ev, ss[j], name);
      }
    }
  }
}
