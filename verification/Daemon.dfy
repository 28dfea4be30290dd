// The daemon's mutations: what each job does to the store and to the published index.

module Operations {
  import opened Half
  import opened Data
  import opened Grouping
  import opened Filters
  import opened Indexing
  import Tables
  import Backend

  // What a reindex is given: the tree, the orders of its walks, and the configuration.
  datatype Scan = Scan(x: Extract, tree: Tree, r: Orders, force: bool, rooted: bool, dim: nat, precision: Precision)

  // A mutation with everything it reads from outside: the clock, the embedding returned
  // (empty if it failed), whether the file operation went well.
  datatype Job =
    | AddNote(topic: string, entry: MemEntry, hash: nat, vec: seq<word32>, dim: nat)
    | AddTerm(term: string, expansion: string)
    | AddDoc(path: string, written: bool, vec: seq<word32>, dim: nat)
    | RmNote(topic: string)
    | RmTerm(term: string)
    | RmDoc(removed: bool)
    | Reindex(scan: Scan)

  datatype Outcome = Refused | Changed(index: Index)

  ghost function Others(proto: Proto, path: string): Entry -> bool {
    (e: Entry) => !(e.meta.proto == proto && e.meta.path == path)
  }

  ghost function Replaced(index: Index, m: Meta, vec: seq<word32>, dim: nat): Index {
    Index(if index.dim == 0 then dim else index.dim, index.precision,
          Filter(Others(m.proto, m.path), index.entries) + [Entry(m, vec)])
  }

  // What an operation writes to the note and glossary tables.
  ghost function StoreEffect(job: Job, t: Tables.Tables): Tables.Tables {
    match job
    case AddNote(topic, e, _, _, _) => Tables.WithNotes(t, Tables.MemOf(t)[topic := e])
    case RmNote(topic) => if topic in t.notes then Tables.WithNotes(t, Tables.MemOf(t) - {topic}) else t
    case AddTerm(term, expansion) => t.(glossary := t.glossary[term := expansion])
    case RmTerm(term) => t.(glossary := t.glossary - {term})
    case _ => t
  }

  // What it makes of the copied index, or that it is refused.
  ghost function Applied(job: Job, t: Tables.Tables, index: Index): Outcome {
    match job
    case AddNote(topic, _, hash, vec, dim) =>
      if vec == [] then Refused else Changed(Replaced(index, Meta(Note, topic, topic, 0, 0, hash), vec, dim))
    case RmNote(topic) =>
      if topic in t.notes then Changed(index.(entries := Filter(Others(Note, topic), index.entries))) else Refused
    case AddTerm(_, _) => Changed(index)
    case RmTerm(term) => if term in t.glossary then Changed(index) else Refused
    case AddDoc(path, written, vec, dim) =>
      if !written then Refused
      else if vec == [] then Changed(index)
      else Changed(Replaced(index, Meta(Doc, path, path, 1, 0, 0), vec, dim))
    case RmDoc(removed) => if removed then Changed(index) else Refused
    case Reindex(s) =>
      if !s.rooted then Changed(index)
      else Changed(Index(s.dim, s.precision,
          NewEntries(s.x, s.tree, s.r, s.force, index.entries, Tables.MemOf(t), t.glossary)))
  }

  // What a client is refused: a note whose embedding failed, a removal of what is not there, a
  // file that could not be written or removed.
  ghost predicate Refusable(job: Job, t: Tables.Tables) {
    || (job.AddNote? && job.vec == [])
    || (job.RmNote? && job.topic !in t.notes)
    || (job.RmTerm? && job.term !in t.glossary)
    || (job.AddDoc? && !job.written)
    || (job.RmDoc? && !job.removed)
  }

  // What the job's save makes of the database; a reindex started from the entries of `before`.
  ghost predicate SavedAs(job: Job, before: Index, t: Tables.Tables, next: Index, t': Tables.Tables) {
    match job
    case AddTerm(_, _) => t' == t
    case RmTerm(_) => t' == t
    case AddNote(_, _, _, _, _) => MetaSaved(t, next, t')
    case RmNote(_) => MetaSaved(t, next, t')
    case AddDoc(_, _, _, _) => MetaSaved(t, next, t')
    case RmDoc(_) => t' == Tables.WithIndex(t, next)
    case Reindex(s) => if s.rooted then Reindexed(s, before, t, next, t') else t' == t
  }

  ghost predicate MetaSaved(t: Tables.Tables, next: Index, t': Tables.Tables) {
    exists rows :: Backend.Reattached(t.entries, Metas(next.entries), rows) &&
        t' == Tables.WithEntries(t, next.dim, next.precision, rows)
  }

  // What a reindex stores, graphs included, is assembled from what it loaded.
  ghost predicate Reindexed(s: Scan, before: Index, t: Tables.Tables, next: Index, t': Tables.Tables) {
    exists l: IndexData, data: IndexData, o: Backend.Order ::
      Backend.LoadedFrom(l, t) && Assembles(s.x, s.tree, s.r, s.force, before.entries, l, data) &&
      data.index == next && Backend.Walks(o, data) && t' == Backend.Written(t, data, o)
  }

  // ---- the code ----

  method RemoveEntries(entries: seq<Entry>, proto: Proto, path: string) returns (kept: seq<Entry>)
    ensures kept == Filter(Others(proto, path), entries)
  {
    kept := [];
    for i := 0 to |entries|
      invariant kept == Filter(Others(proto, path), entries[..i])
    {
      assert entries[..i + 1][..i] == entries[..i];
      if !(entries[i].meta.proto == proto && entries[i].meta.path == path) {
        kept := kept + [entries[i]];
      }
    }
    assert entries[..|entries|] == entries;
  }

  method Replace(index: Index, m: Meta, vec: seq<word32>, dim: nat) returns (out: Index)
    ensures out == Replaced(index, m, vec, dim)
  {
    var kept := RemoveEntries(index.entries, m.proto, m.path);
    out := Index(if index.dim == 0 then dim else index.dim, index.precision, kept + [Entry(m, vec)]);
  }

  datatype Result = Ok(index: Index) | Failed | Thrown

  ghost predicate Returns(r: Result, o: Outcome) {
    match o
    case Refused => r == Failed
    case Changed(index) => r == Ok(index)
  }

  method MemAdd(db: Backend.Db, topic: string, e: MemEntry) returns (ok: bool)
    requires db.Idle()
    modifies db
    ensures db.Idle()
    ensures db.durable == if ok then Tables.WithNotes(old(db.durable), Tables.MemOf(old(db.durable))[topic := e])
        else old(db.durable)
  {
    hide Tables.WithNotes, Tables.MemOf;
    var store := db.LoadMem();
    ok := db.SaveMem(store[topic := e]);
  }

  method MemRemove(db: Backend.Db, topic: string) returns (found: bool, ok: bool)
    requires db.Idle()
    modifies db
    ensures db.Idle() && (found <==> topic in old(db.durable).notes)
    ensures db.durable == if found &&
        ok then Tables.WithNotes(old(db.durable), Tables.MemOf(old(db.durable)) - {topic}) else old(db.durable)
  {
    hide Tables.WithNotes;
    var store := db.LoadMem();
    found, ok := topic in store, true;
    if found {
      ok := db.SaveMem(store - {topic});
    }
  }

  // op_add.
  method OpAdd(job: Job, db: Backend.Db, index: Index) returns (r: Result)
    requires job.AddNote? || job.AddTerm? || job.AddDoc?
    requires db.Idle()
    modifies db
    ensures db.Idle()
    ensures !r.Thrown? ==>
              Returns(r, Applied(job, old(db.durable), index)) && db.durable == StoreEffect(job, old(db.durable))
    ensures r.Thrown? ==> db.durable == old(db.durable) || db.durable == StoreEffect(job, old(db.durable))
  {
    hide Tables.WithNotes, Tables.MemOf, Replaced;
    match job
    case AddTerm(term, expansion) =>
      var ok := db.SaveGlossary(db.work.glossary[term := expansion]);
      r := if ok then Ok(index) else Thrown;
    case AddNote(topic, e, hash, vec, dim) =>
      var ok := MemAdd(db, topic, e);
      if ok {
        ok := db.Step();
      }
      if !ok {
        r := Thrown;
      } else if vec == [] {
        r := Failed;
      } else {
        var out := Replace(index, Meta(Note, topic, topic, 0, 0, hash), vec, dim);
        r := Ok(out);
      }
    case AddDoc(path, written, vec, dim) =>
      var ok := db.Step();
      if !written {
        r := Failed;
      } else if !ok {
        r := Thrown;
      } else if vec != [] {
        var out := Replace(index, Meta(Doc, path, path, 1, 0, 0), vec, dim);
        r := Ok(out);
      } else {
        r := Ok(index);
      }
  }

  // op_rm.
  method OpRm(job: Job, db: Backend.Db, index: Index) returns (r: Result)
    requires job.RmNote? || job.RmTerm? || job.RmDoc?
    requires db.Idle()
    modifies db
    ensures db.Idle()
    ensures !r.Thrown? ==>
              Returns(r, Applied(job, old(db.durable), index)) && db.durable == StoreEffect(job, old(db.durable))
    ensures r.Thrown? ==> db.durable == old(db.durable)
  {
    hide Tables.WithNotes, Tables.MemOf;
    match job
    case RmTerm(term) =>
      if term !in db.work.glossary {
        assert db.durable.glossary - {term} == db.durable.glossary;
        r := Failed;
      } else {
        var ok := db.SaveGlossary(db.work.glossary - {term});
        r := if ok then Ok(index) else Thrown;
      }
    case RmNote(topic) =>
      var found, ok := MemRemove(db, topic);
      if !found {
        r := Failed;
      } else if !ok {
        r := Thrown;
      } else {
        var kept := RemoveEntries(index.entries, Note, topic);
        r := Ok(index.(entries := kept));
      }
    case RmDoc(removed) =>
      r := if removed then Ok(index) else Failed;
  }

  lemma RefusedIff(job: Job, t: Tables.Tables, index: Index)
    ensures Applied(job, t, index).Refused? <==> Refusable(job, t)
  {
    hide NewEntries, Filter, Replaced;
  }

  // The published snapshots.
  class DaemonState {
    var indexes: map<string, Index>

    ghost function Published(name: string): Index
      reads this
    {
      if name in indexes then indexes[name] else Index(0, F32, [])
    }

    method MutableCopy(name: string) returns (copy: Index)
      ensures copy == Published(name)
    {
      copy := if name in indexes then indexes[name] else Index(0, F32, []);
    }

    method Publish(name: string, index: Index)
      modifies this
      ensures indexes == old(indexes)[name := index]
    {
      indexes := indexes[name := index];
    }

    // A mutation on the writer thread: copy, operate, save, publish.  A refusal or an
    // exception publishes nothing.
    method AddOrRemove(name: string, job: Job, db: Backend.Db) returns (r: Result)
      requires !job.Reindex? && db.Idle()
      modifies this, db
      ensures db.Idle()
      ensures Ran(job, old(db.durable), old(Published(name)), db.durable, r)
      ensures !r.Thrown? ==> (r.Failed? <==> Refusable(job, old(db.durable)))
      ensures indexes == if r.Ok? then old(indexes)[name := r.index] else old(indexes)
    {
      hide StoreEffect, Applied, Refusable, Tables.WithIndex, Tables.WithEntries, Backend.Reattached;
      RefusedIff(job, db.durable, Published(name));
      var copy := MutableCopy(name);
      if job.AddNote? || job.AddTerm? || job.AddDoc? {
        r := OpAdd(job, db, copy);
      } else {
        r := OpRm(job, db, copy);
      }
      if r.Ok? {
        var ok := true;
        if job.AddNote? || job.RmNote? || job.AddDoc? {
          ghost var rows;
          ok, rows := db.SaveMetaOnly(r.index);
        } else if job.RmDoc? {
          ok := db.SaveIndex(r.index);
        }
        if ok {
          Publish(name, r.index);
        } else {
          r := Thrown;
        }
      }
    }

    // The index job, and the watcher's.
    method RunIndexJob(name: string, scan: Scan, batchSize: int, db: Backend.Db) returns (r: Result, ghost done: Scan)
      requires db.Idle() && Enumerates(scan.r.files, scan.tree.Keys)
      modifies this, db
      ensures db.Idle()
      ensures done == scan.(r := done.r) && (r.Ok? && scan.rooted ==> done.r.files == scan.r.files)
      ensures !r.Thrown? && scan.rooted ==>
                Enumerates(done.r.files, done.tree.Keys) &&
                Enumerates(done.r.topics, Tables.MemOf(old(db.durable)).Keys)
      ensures Ran(Reindex(done), old(db.durable), old(Published(name)), db.durable, r)
      ensures r.Ok? && scan.rooted ==>
                Reindexed(done, old(Published(name)), old(db.durable), r.index, db.durable)
      ensures indexes == if r.Ok? then old(indexes)[name := r.index] else old(indexes)
    {
      hide NewEntries, Backend.Written, Backend.Walks, Tables.IndexOf, Tables.MemOf, Enumerates, Filter, Concat,
        PushedAll, Erased, Mapped, SameGroups, Group, ChangedBy;
      done := scan;
      var copy := MutableCopy(name);
      var ok, out;
      ghost var orders, l, data, o;
      ok, out, orders, l, data, o := RunIndex(scan.x, db, scan.tree, scan.r.files, scan.rooted, scan.force, copy,
          batchSize, scan.dim, scan.precision);
      if ok {
        if scan.rooted {
          done := scan.(r := orders);
        }
        Publish(name, out);
        r := Ok(out);
      } else {
        r := Thrown;
      }
    }
  }

  // A whole job, run alone: its result and the database afterwards.
  ghost predicate Ran(job: Job, t: Tables.Tables, index: Index, t': Tables.Tables, r: Result) {
    if r.Thrown? then t' == t || t' == StoreEffect(job, t)
    else
      && Returns(r, Applied(job, t, index))
      && if r.Ok? then SavedAs(job, index, StoreEffect(job, t), r.index, t') else t' == StoreEffect(job, t)
  }
}

// The writer thread among the threads that submit to it and read what it publishes.
module Protocol {
  import opened Half
  import opened Data
  import opened Separators
  import opened Grouping
  import opened Filters
  import opened Indexing
  import opened Operations
  import Tables
  import Backend

  datatype Task = Task(ticket: nat, name: string, job: Job)

  datatype Ending = Published | Denied | Threw(stored: bool)

  // A job that has run, with what it read when it ran, and how it ended.
  datatype Done = Done(task: Task, ending: Ending)

  datatype Phase = Idle | Copied(task: Task, copy: Index)
      | Operated(task: Task, copy: Index, next: Index) | Saved(task: Task, next: Index)

  // One index: its database, and every snapshot published so far.
  datatype Cell = Cell(t: Tables.Tables, pubs: seq<Index>)

  datatype System = System(cells: map<string, Cell>, queue: seq<Task>, phase: Phase, log: seq<Done>, tickets: nat)

  datatype Event = Submit(name: string, job: Job) | Take | Operate(job: Job) | Save(t: Tables.Tables) | Publish
      | Throw(job: Job, stored: bool)

  ghost function Latest(pubs: seq<Index>): Index {
    if pubs == [] then Index(0, F32, []) else pubs[|pubs| - 1]
  }

  // The job as run asks for what was submitted; clock, embedding and file tree are read then.
  ghost predicate SameRequest(asked: Job, run: Job) {
    match asked
    case AddNote(topic, e, _, _, _) => run.AddNote? && run.topic == topic && run.entry.content == e.content &&
        run.entry.sources == e.sources
    case AddTerm(_, _) => run == asked
    case AddDoc(path, _, _, _) => run.AddDoc? && run.path == path
    case RmNote(_) => run == asked
    case RmTerm(_) => run == asked
    case RmDoc(_) => run.RmDoc?
    case Reindex(s) => run.Reindex? && run.scan.force == s.force
  }

  // A reindex walks all files and all notes.
  ghost predicate Fits(job: Job, t: Tables.Tables) {
    job.Reindex? && job.scan.rooted ==>
      Enumerates(job.scan.r.files, job.scan.tree.Keys) && Enumerates(job.scan.r.topics, Tables.MemOf(t).Keys)
  }

  ghost function SetTables(s: System, name: string, t: Tables.Tables): map<string, Cell>
    requires name in s.cells
  {
    s.cells[name := s.cells[name].(t := t)]
  }

  ghost predicate Occurs(s: System, e: Event, s': System) {
    match e
    case Submit(name, job) =>
      name in s.cells && s' == s.(queue := s.queue + [Task(s.tickets, name, job)], tickets := s.tickets + 1)
    case Take =>
      && s.phase.Idle? && s.queue != [] && s.queue[0].name in s.cells
      && s' == s.(queue := s.queue[1..], phase := Copied(s.queue[0], Latest(s.cells[s.queue[0].name].pubs)))
    case Operate(job) =>
      && s.phase.Copied? && s.phase.task.name in s.cells
      && var task := s.phase.task.(job := job);
         var t := s.cells[task.name].t;
         && SameRequest(s.phase.task.job, job) && Fits(job, t)
         && (match Applied(job, t, s.phase.copy)
             case Refused => s' == s.(cells := SetTables(s, task.name, StoreEffect(job, t)), phase := Idle,
                 log := s.log + [Done(task, Denied)])
             case Changed(next) => s' == s.(cells := SetTables(s, task.name, StoreEffect(job, t)),
                 phase := Operated(task, s.phase.copy, next)))
    case Save(t) =>
      && s.phase.Operated? && s.phase.task.name in s.cells
      && SavedAs(s.phase.task.job, s.phase.copy, s.cells[s.phase.task.name].t, s.phase.next, t)
      && s' == s.(cells := SetTables(s, s.phase.task.name, t), phase := Saved(s.phase.task, s.phase.next))
    case Publish =>
      && s.phase.Saved? && s.phase.task.name in s.cells
      && var c := s.cells[s.phase.task.name];
         s' == s.(cells := s.cells[s.phase.task.name := c.(pubs := c.pubs + [s.phase.next])], phase := Idle,
                  log := s.log + [Done(s.phase.task, Published)])
    case Throw(job, stored) =>
      && (s.phase.Copied? || s.phase.Operated?) && s.phase.task.name in s.cells
      && (if s.phase.Copied? then SameRequest(s.phase.task.job, job) else job == s.phase.task.job)
      && var task, t := s.phase.task.(job := job), s.cells[s.phase.task.name].t;
         s' == s.(cells := SetTables(s, task.name, if s.phase.Copied? && stored then StoreEffect(job, t) else t),
                  phase := Idle, log := s.log + [Done(task, Threw(s.phase.Operated? || stored))])
  }

  ghost predicate Next(s: System, s': System) {
    exists e :: Occurs(s, e, s')
  }

  // At start nothing is under way.  An index may have been loaded from its database or not.
  ghost predicate Init(s: System) {
    s.queue == [] && s.phase == Idle && s.log == [] && s.tickets == 0
  }

  ghost predicate Execution(ss: seq<System>) {
    ss != [] && Init(ss[0]) && forall i :: 0 < i < |ss| ==> Next(ss[i - 1], ss[i])
  }

  // ---- the sequential specification ----

  datatype Spec = Spec(index: Index, t: Tables.Tables)

  ghost function SpecStep(a: Spec, d: Done): Spec {
    match d.ending
    case Published =>
      var o := Applied(d.task.job, a.t, a.index);
      Spec(if o.Changed? then o.index else a.index, StoreEffect(d.task.job, a.t))
    case Denied => Spec(a.index, StoreEffect(d.task.job, a.t))
    case Threw(stored) => if stored then Spec(a.index, StoreEffect(d.task.job, a.t)) else a
  }

  // The jobs of one index, folded in the order they ran.
  ghost function Fold(c: Cell, log: seq<Done>, name: string): Spec {
    if log == [] then Spec(Latest(c.pubs), c.t)
    else
      var n := |log| - 1;
      var a := Fold(c, log[..n], name);
      if log[n].task.name == name then SpecStep(a, log[n]) else a
  }

  // Notes and terms, which is all of the tables an operation looks at.
  ghost predicate SameStore(t: Tables.Tables, t': Tables.Tables) {
    t.notes == t'.notes && t.glossary == t'.glossary
  }

  lemma StoreAlone(job: Job, t: Tables.Tables, t': Tables.Tables, index: Index)
    requires SameStore(t, t')
    ensures Applied(job, t, index) == Applied(job, t', index) && SameStore(StoreEffect(job, t), StoreEffect(job, t'))
    ensures StoreEffect(job, t).entries == t.entries && StoreEffect(job, t).fts == t.fts
  {
    hide NewEntries, Filter, Replaced;
    assert Tables.MemOf(t) == Tables.MemOf(t');
  }

  ghost function WorkingOn(s: System, name: string): bool {
    !s.phase.Idle? && s.phase.task.name == name
  }

  // One index between and during jobs: what is published is the fold of the jobs run; the
  // copy a job works on is the published one.
  ghost predicate CellHolds(c0: Cell, s: System, name: string)
    requires name in s.cells
  {
    var c, a := s.cells[name], Fold(c0, s.log, name);
    && Latest(c.pubs) == a.index
    && (if WorkingOn(s, name) && !s.phase.Copied?
        then SameStore(c.t, StoreEffect(s.phase.task.job, a.t)) &&
            Applied(s.phase.task.job, a.t, a.index) == Changed(s.phase.next)
        else SameStore(c.t, a.t))
    && (WorkingOn(s, name) && !s.phase.Saved? ==> s.phase.copy == a.index)
  }

  // The jobs whose save writes the entry rows anew.
  ghost predicate Rewrites(job: Job) {
    !job.AddTerm? && !job.RmTerm? && (job.Reindex? ==> job.scan.rooted)
  }

  ghost predicate Rewritten(log: seq<Done>, name: string) {
    exists k :: 0 <= k < |log| && log[k].task.name == name && log[k].ending == Published && Rewrites(log[k].task.job)
  }

  // The index was loaded from its database, or its rows have been written since.
  ghost predicate Synced(c0: Cell, s: System, name: string) {
    || Tables.Aligned(c0.t, Metas(Latest(c0.pubs).entries))
    || Rewritten(s.log, name)
    || (WorkingOn(s, name) && s.phase.Saved? && Rewrites(s.phase.task.job))
  }

  // What the database's rows are to be: the published entries until the save, the next ones
  // after it.
  ghost function RowsToBe(c0: Cell, s: System, name: string): seq<Meta> {
    Metas((if WorkingOn(s, name) && s.phase.Saved? then s.phase.next else Fold(c0, s.log, name).index).entries)
  }

  ghost predicate RowsHold(c0: Cell, s: System, name: string)
    requires name in s.cells
  {
    Tables.Aligned(s.cells[name].t, RowsToBe(c0, s, name)) <==> Synced(c0, s, name)
  }

  ghost predicate Inv(s0: System, s: System) {
    && s.cells.Keys == s0.cells.Keys
    && forall name :: name in s.cells ==> CellHolds(s0.cells[name], s, name) && RowsHold(s0.cells[name], s, name)
  }

  lemma RewrittenOneMore(log: seq<Done>, d: Done, name: string)
    ensures Rewritten(log + [d], name) <==>
            Rewritten(log, name) || (d.task.name == name && d.ending == Published && Rewrites(d.task.job))
  {
    hide Rewrites;
    var l := log + [d];
    assert l[|log|] == d && forall k :: 0 <= k < |log| ==> l[k] == log[k];
  }

  lemma FoldOneMore(c: Cell, log: seq<Done>, d: Done, name: string)
    ensures Fold(c, log + [d], name) == if d.task.name == name then SpecStep(Fold(c, log, name), d)
        else Fold(c, log, name)
  {
    hide SpecStep;
    assert (log + [d])[..|log|] == log;
  }

  // What a save leaves: if it writes the rows, those of what is about to be published, and
  // otherwise those it found; and always the notes and terms it found.
  lemma SaveAligns(job: Job, before: Index, t: Tables.Tables, next: Index, t': Tables.Tables)
    requires SavedAs(job, before, t, next, t')
    ensures Rewrites(job) ==> Tables.Aligned(t', Metas(next.entries))
    ensures !Rewrites(job) ==> t' == t
    ensures SameStore(t, t')
  {
    hide Tables.Aligned, Tables.WithEntries, Backend.Written, Backend.Walks, Tables.RowOf, Tables.MemOf;
    match job
    case AddTerm(_, _) =>
    case RmTerm(_) =>
    case AddNote(_, _, _, _, _) => MetaSaveAligns(t, next, t');
    case RmNote(_) => MetaSaveAligns(t, next, t');
    case AddDoc(_, _, _, _) => MetaSaveAligns(t, next, t');
    case RmDoc(_) => IndexSaveAligns(t, next);
    case Reindex(s) =>
      if s.rooted {
        var data, o := ReindexKept(s, before, t, next, t');
        IndexSaveAligns(t, next);
        AllSaveKeeps(t, data, o);
        AlignedAlone(Tables.WithIndex(t, next), t', Metas(next.entries));
      }
  }

  // A reindex stores the notes and terms it loaded.
  lemma ReindexKept(s: Scan, before: Index, t: Tables.Tables, next: Index, t': Tables.Tables)
    returns (data: IndexData, o: Backend.Order)
    requires Reindexed(s, before, t, next, t')
    ensures Backend.Walks(o, data) && data.mem == Tables.MemOf(t) && data.glossary == t.glossary
    ensures data.index == next && t' == Backend.Written(t, data, o)
  {
    hide NewEntries, ChangedBy, Filter, Concat, PushedAll, Erased, Backend.Written, Backend.Walks, Tables.MemOf,
      Tables.IndexOf, SameGroups, Mapped, Group;
    var l: IndexData, data0: IndexData, o0: Backend.Order :|
      Backend.LoadedFrom(l, t) && Assembles(s.x, s.tree, s.r, s.force, before.entries, l, data0) &&
      data0.index == next && Backend.Walks(o0, data0) && t' == Backend.Written(t, data0, o0);
    data, o := data0, o0;
  }

  lemma AlignedAlone(t: Tables.Tables, t': Tables.Tables, metas: seq<Meta>)
    requires t.entries == t'.entries && t.fts == t'.fts
    ensures Tables.Aligned(t, metas) <==> Tables.Aligned(t', metas)
  {
  }

  lemma MetaSaveAligns(t: Tables.Tables, next: Index, t': Tables.Tables)
    requires MetaSaved(t, next, t')
    ensures Tables.Aligned(t', Metas(next.entries)) && SameStore(t, t')
  {
    hide Tables.Aligned, Backend.Attached, Tables.FtsOf, Tables.NumberedFrom;
    var rows :| Backend.Reattached(t.entries, Metas(next.entries), rows) &&
        t' == Tables.WithEntries(t, next.dim, next.precision, rows);
    Tables.WithEntriesAligned(t, next.dim, next.precision, rows, Metas(next.entries));
  }

  lemma IndexSaveAligns(t: Tables.Tables, next: Index)
    ensures Tables.Aligned(Tables.WithIndex(t, next), Metas(next.entries)) && SameStore(t, Tables.WithIndex(t, next))
  {
    hide Tables.Aligned, Tables.FtsOf, Tables.NumberedFrom, Stored;
    Tables.WithEntriesAligned(t, next.dim, next.precision, Tables.RowsOf(next), Metas(next.entries));
  }

  // A reindex writes back the notes and terms it loaded: the tables are as they were.
  lemma AllSaveKeeps(t: Tables.Tables, data: IndexData, o: Backend.Order)
    requires Backend.Walks(o, data) && data.mem == Tables.MemOf(t) && data.glossary == t.glossary
    ensures SameStore(t, Backend.Written(t, data, o))
    ensures var w := Backend.Written(t, data, o);
            w.entries == Tables.WithIndex(t, data.index).entries && w.fts == Tables.WithIndex(t, data.index).fts
  {
    hide Split, Join, Tables.NotOfKind, Flatten, Mapped, Tables.FtsOf, Tables.NumberedFrom, Tables.RowsOf;
    forall k | k in t.notes ensures Join(Split(t.notes[k].sources, Tables.SEP), Tables.SEP) == t.notes[k].sources {
      JoinSplit(t.notes[k].sources, Tables.SEP);
    }
    assert (map k | k in data.mem :: Tables.NoteOf(data.mem[k])) == t.notes;
  }

  // An event of one index's job leaves the other indexes alone.
  lemma OtherKeeps(c0: Cell, s: System, e: Event, s': System, name: string)
    requires Occurs(s, e, s') && name in s.cells && CellHolds(c0, s, name)
    requires !WorkingOn(s, name) && (e.Take? ==> s.queue[0].name != name)
    ensures name in s'.cells && CellHolds(c0, s', name)
  {
    hide StoreEffect, Applied, SavedAs, Tables.Aligned, SameRequest, Fits, SpecStep;
    if |s'.log| > |s.log| {
      FoldOneMore(c0, s.log, s'.log[|s.log|], name);
    }
  }

  lemma OperateKeeps(c0: Cell, s: System, e: Event, s': System)
    requires e.Operate? && Occurs(s, e, s') && CellHolds(c0, s, s.phase.task.name)
    ensures CellHolds(c0, s', s.phase.task.name)
  {
    hide StoreEffect, Applied, Tables.Aligned, SameRequest, Fits, Fold, Latest;
    var task := s.phase.task.(job := e.job);
    var t, a := s.cells[task.name].t, Fold(c0, s.log, task.name);
    FoldOneMore(c0, s.log, Done(task, Denied), task.name);
    StoreAlone(e.job, t, a.t, a.index);
  }

  lemma SaveKeeps(c0: Cell, s: System, e: Event, s': System)
    requires e.Save? && Occurs(s, e, s') && CellHolds(c0, s, s.phase.task.name)
    ensures CellHolds(c0, s', s.phase.task.name)
  {
    hide StoreEffect, SavedAs, Tables.Aligned, NewEntries, Filter, Replaced, Fold, Latest;
    var name := s.phase.task.name;
    SaveAligns(s.phase.task.job, s.phase.copy, s.cells[name].t, s.phase.next, e.t);
  }

  lemma PublishKeeps(c0: Cell, s: System, e: Event, s': System)
    requires e.Publish? && Occurs(s, e, s') && CellHolds(c0, s, s.phase.task.name)
    ensures CellHolds(c0, s', s.phase.task.name)
  {
    hide StoreEffect, Applied, Tables.Aligned, Fold;
    FoldOneMore(c0, s.log, Done(s.phase.task, Published), s.phase.task.name);
  }

  lemma ThrowKeeps(c0: Cell, s: System, e: Event, s': System)
    requires e.Throw? && Occurs(s, e, s') && CellHolds(c0, s, s.phase.task.name)
    ensures CellHolds(c0, s', s.phase.task.name)
  {
    hide StoreEffect, Applied, Tables.Aligned, SameRequest, Fold, Latest;
    var task := s.phase.task.(job := e.job);
    var t, a := s.cells[task.name].t, Fold(c0, s.log, task.name);
    FoldOneMore(c0, s.log, Done(task, Threw(s.phase.Operated? || e.stored)), task.name);
    if s.phase.Copied? {
      StoreAlone(e.job, t, a.t, a.index);
      }
  }

  lemma TakeKeeps(c0: Cell, s: System, e: Event, s': System)
    requires e.Take? && Occurs(s, e, s') && CellHolds(c0, s, s.queue[0].name)
    ensures CellHolds(c0, s', s.queue[0].name)
  {
    hide StoreEffect, Applied, Tables.Aligned, Fold;
  }

  lemma SubmitKeeps(c0: Cell, s: System, e: Event, s': System, name: string)
    requires e.Submit? && Occurs(s, e, s') && name in s.cells && CellHolds(c0, s, name)
    ensures CellHolds(c0, s', name)
  {
    hide StoreEffect, Applied, Tables.Aligned, Fold;
  }

  // ---- the rows ----

  // Rows, what they are to be, and whether they are in step, all unchanged.
  lemma RowsAlone(c0: Cell, s: System, s': System, name: string)
    requires name in s.cells && name in s'.cells && RowsHold(c0, s, name)
    requires s'.cells[name].t.entries == s.cells[name].t.entries && s'.cells[name].t.fts == s.cells[name].t.fts
    requires RowsToBe(c0, s', name) == RowsToBe(c0, s, name) && (Synced(c0, s', name) <==> Synced(c0, s, name))
    ensures RowsHold(c0, s', name)
  {
    hide Synced, RowsToBe;
    AlignedAlone(s.cells[name].t, s'.cells[name].t, RowsToBe(c0, s, name));
  }

  lemma SaveRows(c0: Cell, s: System, e: Event, s': System)
    requires e.Save? && Occurs(s, e, s') && CellHolds(c0, s, s.phase.task.name) && RowsHold(c0, s, s.phase.task.name)
    ensures RowsHold(c0, s', s.phase.task.name)
  {
    hide StoreEffect, SavedAs, Tables.Aligned, NewEntries, Filter, Replaced, Fold, Latest, Rewritten;
    var name := s.phase.task.name;
    SaveAligns(s.phase.task.job, s.phase.copy, s.cells[name].t, s.phase.next, e.t);
  }

  lemma LoggedRows(c0: Cell, s: System, e: Event, s': System, name: string)
    requires Occurs(s, e, s') && name in s.cells && CellHolds(c0, s, name) && RowsHold(c0, s, name)
    requires |s'.log| > |s.log|
    ensures name in s'.cells && RowsHold(c0, s', name)
  {
    hide StoreEffect, Applied, SavedAs, Tables.Aligned, SameRequest, Fits, Fold, Rewritten, RowsHold, Rewrites, Latest;
    var d := s'.log[|s.log|];
    assert s'.log == s.log + [d];
    FoldOneMore(c0, s.log, d, name);
    RewrittenOneMore(s.log, d, name);
    EffectRows(d.task.job, s.cells[name].t);
    RowsAlone(c0, s, s', name);
  }

  lemma EffectRows(job: Job, t: Tables.Tables)
    ensures StoreEffect(job, t).entries == t.entries && StoreEffect(job, t).fts == t.fts
  {
  }

  lemma RowsStep(c0: Cell, s: System, e: Event, s': System, name: string)
    requires Occurs(s, e, s') && name in s.cells && CellHolds(c0, s, name) && RowsHold(c0, s, name)
    ensures name in s'.cells && RowsHold(c0, s', name)
  {
    hide StoreEffect, Applied, SavedAs, Tables.Aligned, SameRequest, Fits, Fold, Rewritten, RowsHold, Rewrites,
      CellHolds, Latest;
    if |s'.log| > |s.log| {
      LoggedRows(c0, s, e, s', name);
    } else if e.Save? && s.phase.task.name == name {
      SaveRows(c0, s, e, s');
    } else {
      if e.Operate? {
        EffectRows(e.job, s.cells[name].t);
      }
      RowsAlone(c0, s, s', name);
    }
  }

  lemma StepKeeps(s0: System, s: System, e: Event, s': System)
    requires Inv(s0, s) && Occurs(s, e, s')
    ensures Inv(s0, s')
  {
    hide CellHolds, RowsHold;
    assert s'.cells.Keys == s.cells.Keys;
    forall name | name in s'.cells ensures CellHolds(s0.cells[name], s', name) && RowsHold(s0.cells[name], s', name) {
      var c0 := s0.cells[name];
      RowsStep(c0, s, e, s', name);
      if !WorkingOn(s, name) && (e.Take? ==> s.queue[0].name != name) {
        OtherKeeps(c0, s, e, s', name);
      } else {
        match e
        case Submit(_, _) => SubmitKeeps(c0, s, e, s', name);
        case Take => TakeKeeps(c0, s, e, s');
        case Operate(_) => OperateKeeps(c0, s, e, s');
        case Save(_) => SaveKeeps(c0, s, e, s');
        case Publish => PublishKeeps(c0, s, e, s');
        case Throw(_, _) => ThrowKeeps(c0, s, e, s');
      }
    }
  }
}
