// What holds over every run of the daemon.

module DaemonLaws {
  import opened Half
  import opened Data
  import opened Grouping
  import opened Filters
  import opened Indexing
  import opened Incremental
  import opened Operations
  import opened Protocol
  import Backend
  import Keywords
  import Rebuild
  import Search
  import Separators
  import Tables

  lemma InitHolds(s: System)
    requires Init(s)
    ensures Inv(s, s)
  {
    hide Tables.Aligned, Rewrites;
  }

  lemma {:induction false} RunHolds(ss: seq<System>, i: nat)
    requires Execution(ss) && i < |ss|
    ensures Inv(ss[0], ss[i])
  {
    hide Occurs, Inv, Init;
    if i == 0 {
      InitHolds(ss[0]);
    } else {
      RunHolds(ss, i - 1);
      var e :| Occurs(ss[i - 1], e, ss[i]);
      StepKeeps(ss[0], ss[i - 1], e, ss[i]);
    }
  }

  // No update is lost: at every moment, whatever the interleaving, what is published of an
  // index is the fold of its jobs in the order they ran; jobs that failed count for what
  // they had stored.
  lemma NoLostUpdate(ss: seq<System>, i: nat, name: string)
    requires Execution(ss) && i < |ss| && name in ss[i].cells
    ensures name in ss[0].cells
    ensures Latest(ss[i].cells[name].pubs) == Fold(ss[0].cells[name], ss[i].log, name).index
  {
    hide Execution, Fold, Tables.Aligned, StoreEffect, Applied;
    RunHolds(ss, i);
    assert CellHolds(ss[0].cells[name], ss[i], name);
  }

  // With no job of the index under way, its notes and terms are those of the fold; and its
  // rows are the published entries under rowids 1..N, with the keyword index over the same
  // rows, exactly if the index was loaded at start or its rows have been written since.
  lemma DatabaseAgrees(ss: seq<System>, i: nat, name: string)
    requires Execution(ss) && i < |ss| && name in ss[i].cells && !WorkingOn(ss[i], name)
    ensures name in ss[0].cells
    ensures var c, c0 := ss[i].cells[name], ss[0].cells[name];
            && (Tables.Aligned(c.t, Metas(Latest(c.pubs).entries)) <==>
                Tables.Aligned(c0.t, Metas(Latest(c0.pubs).entries)) || Rewritten(ss[i].log, name))
            && SameStore(c.t, Fold(c0, ss[i].log, name).t)
  {
    hide Execution, Fold, Tables.Aligned, StoreEffect, Applied, Rewritten;
    RunHolds(ss, i);
    assert CellHolds(ss[0].cells[name], ss[i], name) && RowsHold(ss[0].cells[name], ss[i], name);
  }

  // Even while a job runs, until its save commits.
  lemma RowsAgreeUntilSave(ss: seq<System>, i: nat, name: string)
    requires Execution(ss) && i < |ss| && name in ss[i].cells && !ss[i].phase.Saved?
    ensures name in ss[0].cells
    ensures var c, c0 := ss[i].cells[name], ss[0].cells[name];
            Tables.Aligned(c.t, Metas(Latest(c.pubs).entries)) <==>
            Tables.Aligned(c0.t, Metas(Latest(c0.pubs).entries)) || Rewritten(ss[i].log, name)
  {
    hide Execution, Fold, Tables.Aligned, StoreEffect, Applied, Rewritten;
    RunHolds(ss, i);
    assert CellHolds(ss[0].cells[name], ss[i], name) && RowsHold(ss[0].cells[name], ss[i], name);
  }

  // A note added to an index that was not loaded replaces all its stored rows by one.
  lemma UnloadedIsReplaced(job: Job, t: Tables.Tables, t': Tables.Tables, next: Index)
    requires job.AddNote? && Ran(job, t, Latest([]), t', Ok(next))
    ensures t'.entries.Keys == {1} && t'.entries[1].meta == Meta(Note, job.topic, job.topic, 0, 0, job.hash)
    ensures next.entries == [Entry(t'.entries[1].meta, job.vec)]
  {
    hide StoreEffect, SavedAs;
    SaveAligns(job, Latest([]), StoreEffect(job, t), next, t');
    assert next.entries == [Entry(Meta(Note, job.topic, job.topic, 0, 0, job.hash), job.vec)];
  }

  // And what is kept of them may be read otherwise than it was written: the embedding of a note
  // stored as halves is then stored beside the precision of floats, and comes back with its
  // last component zero.
  lemma UnloadedMisreads(
      t0: Tables.Tables, hash: nat, v: seq<word32>, job: Job, t': Tables.Tables, next: Index)
    requires job.AddNote? && v != [] && job.dim == |v|
    requires var entry := Entry(Meta(Note, job.topic, job.topic, 0, 0, hash), v);
             Ran(job, Tables.WithIndex(t0, Index(|v|, F16, [entry])), Latest([]), t', Ok(next))
    ensures 1 in t'.entries && t'.dim == |v| && t'.precision == F32
    ensures var w := Loaded(t'.entries[1].blob, t'.dim, t'.precision);
            w == Loaded(Stored(v, |v|, F16), |v|, F32) && |w| == |v| && w[|v| - 1] == 0
  {
    hide StoreEffect, Stored, Loaded, Tables.FtsOf, Tables.NumberedFrom, Backend.Reattached;
    var index := Index(|v|, F16, [Entry(Meta(Note, job.topic, job.topic, 0, 0, hash), v)]);
    var t := Tables.WithIndex(t0, index);
    EffectRows(job, t);
    OneReplaced(job);
    var rows :| Backend.Reattached(StoreEffect(job, t).entries, Metas(next.entries), rows) &&
      t' == Tables.WithEntries(StoreEffect(job, t), next.dim, next.precision, rows);
    OneRowKept(index, next.entries, rows);
    HalvesMisread(v, |v|, |v| - 1);
  }

  lemma OneReplaced(job: Job)
    requires job.AddNote?
    ensures Replaced(Latest([]), Meta(Note, job.topic, job.topic, 0, 0, job.hash), job.vec, job.dim)
         == Index(job.dim, F32, [Entry(Meta(Note, job.topic, job.topic, 0, 0, job.hash), job.vec)])
  {
  }

  lemma OneRowKept(index: Index, es: seq<Entry>, rows: seq<Tables.Row>)
    requires |index.entries| == |es| == 1 && index.dim == |index.entries[0].embedding| > 0
    requires Backend.KeyOf(index.entries[0].meta) == Backend.KeyOf(es[0].meta)
    requires Backend.Reattached(Tables.Numbered(Tables.RowsOf(index)), Metas(es), rows)
    ensures |rows| == 1 && rows[0].blob == Stored(index.entries[0].embedding, index.dim, index.precision)
  {
    hide Stored;
    var before := Tables.Numbered(Tables.RowsOf(index));
    StoredSomething(index.entries[0].embedding, index.dim, index.precision);
    assert 1 in before && before[1] == Tables.RowsOf(index)[0];
    assert Backend.KeyOf(before[1].meta) == Backend.KeyOf(es[0].meta) && !Backend.Empty(before[1].blob);
    assert Backend.Attached(before, Backend.KeyOf(es[0].meta), rows[0].blob);
  }

  lemma StoredSomething(v: seq<word32>, dim: nat, p: Precision)
    requires dim == |v| > 0
    ensures !Backend.Empty(Stored(v, dim, p))
  {
    hide FloatToF16;
  }

  // ---- order ----

  lemma StepGrows(s: System, s': System, name: string)
    requires Next(s, s') && name in s.cells
    ensures name in s'.cells && s.log <= s'.log && s.cells[name].pubs <= s'.cells[name].pubs &&
        s.cells.Keys == s'.cells.Keys
  {
    hide StoreEffect, Applied, SavedAs, SameRequest, Fits;
  }

  lemma {:induction false} PublicationsGrow(ss: seq<System>, i: nat, j: nat, name: string)
    requires Execution(ss) && i <= j < |ss| && name in ss[i].cells
    ensures name in ss[j].cells && ss[i].log <= ss[j].log && ss[i].cells[name].pubs <= ss[j].cells[name].pubs
    decreases j - i
  {
    hide Next, Init;
    if i < j {
      PublicationsGrow(ss, i, j - 1, name);
      assert Next(ss[j - 1], ss[j]);
      StepGrows(ss[j - 1], ss[j], name);
    }
  }

  // Snapshots never go back: what a reader gets is the fold of some jobs, and what any reader
  // gets later is the fold of those jobs followed by others, never of fewer.
  lemma SnapshotsNeverGoBack(ss: seq<System>, i: nat, j: nat, name: string)
    requires Execution(ss) && i <= j < |ss| && name in ss[i].cells
    ensures name in ss[0].cells && name in ss[j].cells
    ensures exists more ::
              && ss[j].log == ss[i].log + more
              && Latest(ss[i].cells[name].pubs) == Fold(ss[0].cells[name], ss[i].log, name).index
              && Latest(ss[j].cells[name].pubs) == Fold(ss[0].cells[name], ss[i].log + more, name).index
  {
    hide Execution, Fold;
    PublicationsGrow(ss, i, j, name);
    NoLostUpdate(ss, i, name);
    NoLostUpdate(ss, j, name);
    assert ss[j].log == ss[i].log + ss[j].log[|ss[i].log|..];
  }

  ghost function LogTickets(log: seq<Done>): seq<nat> {
    seq(|log|, i requires 0 <= i < |log| => log[i].task.ticket)
  }

  ghost function QueueTickets(q: seq<Task>): seq<nat> {
    seq(|q|, i requires 0 <= i < |q| => q[i].ticket)
  }

  // All tickets: of jobs done, under way, waiting.
  ghost function AllTickets(s: System): seq<nat> {
    LogTickets(s.log) + (if s.phase.Idle? then [] else [s.phase.task.ticket]) + QueueTickets(s.queue)
  }

  ghost function UpTo(n: nat): (r: seq<nat>)
    ensures |r| == n && forall i :: 0 <= i < n ==> r[i] == i
  {
    seq(n, (i: nat) => i)
  }

  lemma StepInOrder(s: System, e: Event, s': System)
    requires Occurs(s, e, s') && AllTickets(s) == UpTo(s.tickets)
    ensures AllTickets(s') == UpTo(s'.tickets)
  {
    hide StoreEffect, Applied, SavedAs, SameRequest, Fits, UpTo;
    match e
    case Submit(_, _) =>
      assert QueueTickets(s'.queue) == QueueTickets(s.queue) + [s.tickets];
      assert UpTo(s'.tickets) == UpTo(s.tickets) + [s.tickets];
      assert AllTickets(s') == AllTickets(s) + [s.tickets];
    case Take =>
      assert QueueTickets(s.queue) == [s.queue[0].ticket] + QueueTickets(s.queue[1..]);
      assert AllTickets(s') == AllTickets(s);
    case Save(_) =>
    case _ =>
      if s'.log != s.log {
        assert LogTickets(s'.log) == LogTickets(s.log) + [s.phase.task.ticket];
      }
  }

  // Jobs run one at a time in the order submitted, each once.
  lemma {:induction false} JobsRunInOrder(ss: seq<System>, i: nat)
    requires Execution(ss) && i < |ss|
    ensures AllTickets(ss[i]) == UpTo(ss[i].tickets)
  {
    hide Occurs;
    if i == 0 {
      assert AllTickets(ss[0]) == [];
    } else {
      JobsRunInOrder(ss, i - 1);
      var e :| Occurs(ss[i - 1], e, ss[i]);
      StepInOrder(ss[i - 1], e, ss[i]);
    }
  }

  // Some client asked for this job, on this index, and was given its ticket.
  ghost predicate Asked(ss: seq<System>, i: nat, task: Task, asked: Job)
    requires i < |ss|
  {
    exists m :: 0 <= m < i && ss[m].tickets == task.ticket && Occurs(ss[m], Submit(task.name, asked), ss[m + 1])
  }

  // The task runs a job as it was asked for, once its clock, embedding and tree were read.
  ghost predicate Traced(ss: seq<System>, i: nat, task: Task)
    requires i < |ss|
  {
    exists asked :: Asked(ss, i, task, asked) && SameRequest(asked, task.job)
  }

  ghost predicate AllTraced(ss: seq<System>, i: nat)
    requires i < |ss|
  {
    && (forall k :: 0 <= k < |ss[i].log| ==> Traced(ss, i, ss[i].log[k].task))
    && (!ss[i].phase.Idle? ==> Traced(ss, i, ss[i].phase.task))
    && (ss[i].phase.Copied? ==> Asked(ss, i, ss[i].phase.task, ss[i].phase.task.job))
    && (forall k :: 0 <= k < |ss[i].queue| ==> Asked(ss, i, ss[i].queue[k], ss[i].queue[k].job))
  }

  lemma AskedLater(ss: seq<System>, i: nat, task: Task)
    requires i + 1 < |ss|
    ensures forall asked :: Asked(ss, i, task, asked) ==> Asked(ss, i + 1, task, asked)
    ensures Traced(ss, i, task) ==> Traced(ss, i + 1, task)
  {
    hide Occurs, SameRequest;
  }

  lemma SameItself(job: Job)
    ensures SameRequest(job, job)
  {
  }

  // The task as run is traced, if the task as taken was asked for.
  lemma RunTraced(ss: seq<System>, i: nat, task: Task, job: Job)
    requires i < |ss| && Asked(ss, i, task, task.job) && SameRequest(task.job, job)
    ensures Traced(ss, i, task.(job := job))
  {
    hide Occurs, SameRequest;
    assert Asked(ss, i, task.(job := job), task.job);
  }

  lemma AskedNow(ss: seq<System>, i: nat, name: string, job: Job)
    requires i + 1 < |ss| && Occurs(ss[i], Submit(name, job), ss[i + 1])
    ensures Asked(ss, i + 1, Task(ss[i].tickets, name, job), job)
  {
    hide Occurs;
  }

  // What a step does with the tasks: it adds one asked for, takes the first, runs the one
  // taken, or logs it.
  lemma StepTasks(s: System, e: Event, s': System)
    requires Occurs(s, e, s')
    ensures match e
            case Submit(name, job) =>
              s'.queue == s.queue + [Task(s.tickets, name, job)] && s'.phase == s.phase && s'.log == s.log
            case Take =>
              && s.queue != [] && s'.queue == s.queue[1..] && s'.log == s.log
              && s'.phase.Copied? && s'.phase.task == s.queue[0]
            case Operate(job) =>
              && s'.queue == s.queue && s.phase.Copied? && SameRequest(s.phase.task.job, job)
              && ((s'.phase.Operated? && s'.phase.task == s.phase.task.(job := job) && s'.log == s.log) ||
                  (s'.phase.Idle? && s'.log == s.log + [Done(s.phase.task.(job := job), Denied)]))
            case Save(_) =>
              && s'.queue == s.queue && s'.log == s.log && !s.phase.Idle? && s'.phase.Saved?
              && s'.phase.task == s.phase.task
            case Publish =>
              && s'.queue == s.queue && !s.phase.Idle? && s'.phase.Idle?
              && s'.log == s.log + [Done(s.phase.task, Published)]
            case Throw(job, stored) =>
              && s'.queue == s.queue && s'.phase.Idle? && !s.phase.Idle?
              && (if s.phase.Copied? then SameRequest(s.phase.task.job, job) else job == s.phase.task.job)
              && |s'.log| == |s.log| + 1 && s'.log[..|s.log|] == s.log
              && s'.log[|s.log|].task == s.phase.task.(job := job)
  {
    hide StoreEffect, Applied, SavedAs, SameRequest, Fits;
  }

  lemma StepTraced(ss: seq<System>, i: nat, e: Event)
    requires i + 1 < |ss| && Occurs(ss[i], e, ss[i + 1]) && AllTraced(ss, i)
    ensures AllTraced(ss, i + 1)
  {
    hide Occurs, SameRequest, Asked, Traced;
    var s, s' := ss[i], ss[i + 1];
    StepTasks(s, e, s');
    forall task ensures Traced(ss, i, task) ==> Traced(ss, i + 1, task) {
      AskedLater(ss, i, task);
    }
    forall task, asked ensures Asked(ss, i, task, asked) ==> Asked(ss, i + 1, task, asked) {
      AskedLater(ss, i, task);
    }
    match e
    case Submit(name, job) => AskedNow(ss, i, name, job);
    case Take =>
      SameItself(s.queue[0].job);
      RunTraced(ss, i, s.queue[0], s.queue[0].job);
      assert s.queue[0].(job := s.queue[0].job) == s.queue[0];
    case Operate(job) => RunTraced(ss, i, s.phase.task, job);
    case Throw(job, _) =>
      if s.phase.Copied? {
        RunTraced(ss, i, s.phase.task, job);
      } else {
        assert s.phase.task.(job := job) == s.phase.task;
      }
    case _ =>
  }

  // Whatever job is done, under way or waiting under a ticket is the one a client asked for
  // when it was given that ticket, on the same index, up to what is read when it runs.
  lemma {:induction false} JobsAreRequests(ss: seq<System>, i: nat)
    requires Execution(ss) && i < |ss|
    ensures AllTraced(ss, i)
  {
    hide Occurs, AllTraced;
    if i == 0 {
      NothingTraced(ss);
    } else {
      JobsAreRequests(ss, i - 1);
      var e :| Occurs(ss[i - 1], e, ss[i]);
      StepTraced(ss, i - 1, e);
    }
  }

  lemma NothingTraced(ss: seq<System>)
    requires Execution(ss)
    ensures AllTraced(ss, 0)
  {
    hide Next;
  }

  // ---- notes and terms ----

  // Did this job, in effect, write or remove the note?
  ghost predicate Writes(d: Done, name: string, topic: string) {
    d.task.name == name && d.ending != Threw(false) &&
    ((d.task.job.AddNote? && d.task.job.topic == topic) || (d.task.job.RmNote? && d.task.job.topic == topic))
  }

  ghost function LastWrite(log: seq<Done>, name: string, topic: string): (k: int)
    ensures -1 <= k < |log| && (k >= 0 ==> Writes(log[k], name, topic))
    ensures forall j :: k < j < |log| ==> !Writes(log[j], name, topic)
  {
    if log == [] then -1
    else if Writes(log[|log| - 1], name, topic) then |log| - 1
    else LastWrite(log[..|log| - 1], name, topic)
  }

  lemma NotesStored(t: Tables.Tables)
    ensures Tables.WithNotes(t, Tables.MemOf(t)).notes == t.notes
  {
    hide Separators.Join, Separators.Split;
    forall k | k in t.notes ensures Tables.NoteOf(Tables.MemOf(t)[k]) == t.notes[k] {
      Separators.JoinSplit(t.notes[k].sources, Tables.SEP);
    }
  }

  // A store write changes exactly its own note.
  lemma StoreWrites(job: Job, t: Tables.Tables, topic: string)
    ensures var t' := StoreEffect(job, t);
            if job.AddNote? && job.topic == topic then topic in t'.notes && t'.notes[topic] == Tables.NoteOf(job.entry)
            else if job.RmNote? && job.topic == topic then topic !in t'.notes
            else (topic in t'.notes <==> topic in t.notes) && (topic in t.notes ==> t'.notes[topic] == t.notes[topic])
  {
    hide Tables.NoteOf;
    NotesStored(t);
    assert Tables.MemOf(t).Keys == t.notes.Keys;
    assert forall k :: k in t.notes ==>
        Tables.WithNotes(t, Tables.MemOf(t)).notes[k] == Tables.NoteOf(Tables.MemOf(t)[k]);
  }

  ghost predicate NoteIs(t: Tables.Tables, topic: string, log: seq<Done>, k: int, t0: Tables.Tables)
    requires -1 <= k < |log|
  {
    if k < 0 then (topic in t.notes <==> topic in t0.notes) && (topic in t0.notes ==> t.notes[topic] == t0.notes[topic])
    else if log[k].task.job.AddNote? then topic in t.notes && t.notes[topic] == Tables.NoteOf(log[k].task.job.entry)
    else topic !in t.notes
  }

  // Notes are conserved: each is what the last job to write it left, or as at start; index
  // jobs, terms and files never touch one.
  lemma {:induction false} NotesAreLastWrites(c: Cell, log: seq<Done>, name: string, topic: string)
    ensures NoteIs(Fold(c, log, name).t, topic, log, LastWrite(log, name, topic), c.t)
  {
    hide StoreEffect, Applied, Tables.NoteOf;
    if log != [] {
      var n := |log| - 1;
      NotesAreLastWrites(c, log[..n], name, topic);
      StoreWrites(log[n].task.job, Fold(c, log[..n], name).t, topic);
      StoreNoop(log[n], Fold(c, log[..n], name));
    }
  }

  // A refused removal had nothing to remove.
  lemma StoreNoop(d: Done, a: Spec)
    ensures SpecStep(a, d).t == if d.ending == Threw(false) then a.t else StoreEffect(d.task.job, a.t)
  {
  }

  ghost predicate WritesTerm(d: Done, name: string, term: string) {
    d.task.name == name && d.ending != Threw(false) &&
    ((d.task.job.AddTerm? && d.task.job.term == term) || (d.task.job.RmTerm? && d.task.job.term == term))
  }

  lemma TermStep(c: Cell, log: seq<Done>, d: Done, name: string, term: string)
    ensures var g, g' := Fold(c, log, name).t.glossary, Fold(c, log + [d], name).t.glossary;
            if !WritesTerm(d, name, term) then (term in g' <==> term in g) && (term in g ==> g'[term] == g[term])
            else if d.task.job.AddTerm? then term in g' && g'[term] == d.task.job.expansion
            else term !in g'
  {
    hide Tables.WithNotes, Tables.MemOf, Applied, Fold;
    FoldOneMore(c, log, d, name);
    StoreNoop(d, Fold(c, log, name));
    GlossaryKept(d.task.job, Fold(c, log, name).t);
  }

  ghost function LastTermWrite(log: seq<Done>, name: string, term: string): (k: int)
    ensures -1 <= k < |log| && (k >= 0 ==> WritesTerm(log[k], name, term))
    ensures forall j :: k < j < |log| ==> !WritesTerm(log[j], name, term)
  {
    if log == [] then -1
    else if WritesTerm(log[|log| - 1], name, term) then |log| - 1
    else LastTermWrite(log[..|log| - 1], name, term)
  }

  ghost predicate TermIs(g: map<string, string>, term: string, log: seq<Done>, k: int, g0: map<string, string>)
    requires -1 <= k < |log|
  {
    if k < 0 then (term in g <==> term in g0) && (term in g0 ==> g[term] == g0[term])
    else if log[k].task.job.AddTerm? then term in g && g[term] == log[k].task.job.expansion
    else term !in g
  }

  // Terms likewise: each is what the last job to write it left, or as at start.
  lemma {:induction false} TermsAreLastWrites(c: Cell, log: seq<Done>, name: string, term: string)
    ensures TermIs(Fold(c, log, name).t.glossary, term, log, LastTermWrite(log, name, term), c.t.glossary)
  {
    hide WritesTerm;
    if log != [] {
      var n := |log| - 1;
      TermsAreLastWrites(c, log[..n], name, term);
      assert log == log[..n] + [log[n]];
      TermStep(c, log[..n], log[n], name, term);
    }
  }

  lemma GlossaryKept(job: Job, t: Tables.Tables)
    ensures !job.AddTerm? && !job.RmTerm? ==> StoreEffect(job, t).glossary == t.glossary
  {
  }

  // ---- entries of notes ----

  ghost function NoteEntries(index: Index, topic: string): seq<Entry> {
    Filter(EntriesOf(Note, topic), index.entries)
  }

  lemma ReplacedNotes(index: Index, m: Meta, vec: seq<word32>, dim: nat, topic: string)
    ensures NoteEntries(Replaced(index, m, vec, dim), topic) ==
            if m.proto == Note && m.path == topic then [Entry(m, vec)] else NoteEntries(index, topic)
  {
    hide Filter;
    var mine, others := EntriesOf(Note, topic), Others(m.proto, m.path);
    FilterAppend(mine, Filter(others, index.entries), [Entry(m, vec)]);
    FilterOne(mine, Entry(m, vec));
    if m.proto == Note && m.path == topic {
      FilterApart(mine, others, index.entries);
    } else {
      FilterInner(mine, others, index.entries);
    }
  }

  lemma RemovedNotes(index: Index, path: string, topic: string)
    ensures Filter(EntriesOf(Note, topic), Filter(Others(Note, path), index.entries)) ==
            if path == topic then [] else NoteEntries(index, topic)
  {
    hide Filter;
    if path == topic {
      FilterApart(EntriesOf(Note, topic), Others(Note, path), index.entries);
    } else {
      FilterInner(EntriesOf(Note, topic), Others(Note, path), index.entries);
    }
  }

  // A reindex that embeds this note again, and one whose embedding of it comes back empty.
  ghost predicate Rereads(job: Job, t: Tables.Tables, index: Index, topic: string) {
    job.Reindex? && job.scan.rooted && topic in t.notes &&
    NoteRescans(topic, Tables.MemOf(t)[topic], job.scan.force, LastHashes(index.entries, Note))
  }

  ghost predicate Fails(job: Job, t: Tables.Tables, topic: string)
    requires job.Reindex? && topic in t.notes
  {
    NoteFails(job.scan.x, topic, Tables.MemOf(t)[topic])
  }

  // The entry a client's addition makes, and the one a reindex makes of the stored note.
  ghost function AddedEntry(job: Job): seq<Entry>
    requires job.AddNote?
  {
    [Entry(Meta(Note, job.topic, job.topic, 0, 0, job.hash), job.vec)]
  }

  ghost function RereadEntry(x: Extract, topic: string, e: MemEntry): seq<Entry> {
    var vec := x.embed(topic + ". " + e.content);
    if vec == [] then [] else [Entry(Meta(Note, topic, topic, 0, 0, HashOf(e.timestamp)), vec)]
  }

  // What one job leaves of a note's entries.
  lemma NoteEntriesAfter(job: Job, t: Tables.Tables, index: Index, topic: string)
    requires Fits(job, t) && Applied(job, t, index).Changed?
    ensures var own, left := NoteEntries(index, topic), NoteEntries(Applied(job, t, index).index, topic);
            if job.AddNote? && job.topic == topic then left == AddedEntry(job)
            else if job.RmNote? && job.topic == topic then left == []
            else if job.Reindex? && job.scan.rooted && topic !in t.notes then left == []
            else if Rereads(job, t, index, topic) then
              && left == RereadEntry(job.scan.x, topic, Tables.MemOf(t)[topic])
              && (left == [] <==> Fails(job, t, topic))
            else left == own && (job.Reindex? && job.scan.rooted ==> own != [])
  {
    hide Filter, NewEntries, EntriesOf, Replaced, NoteRescans, LastHashes;
    match job
    case AddNote(path, _, hash, vec, dim) => ReplacedNotes(index, Meta(Note, path, path, 0, 0, hash), vec, dim, topic);
    case AddDoc(path, _, vec, dim) => ReplacedNotes(index, Meta(Doc, path, path, 1, 0, 0), vec, dim, topic);
    case RmNote(path) => RemovedNotes(index, path, topic);
    case Reindex(s) =>
      if s.rooted {
        assert topic in t.notes <==> topic in Tables.MemOf(t);
        NoteAfterRun(s.x, s.tree, s.r, s.force, index.entries, Tables.MemOf(t), t.glossary, topic);
      }
    case _ =>
  }

  // Every note entry has its stored note, and no topic has two.
  ghost predicate Backed(a: Spec) {
    forall topic: string :: |NoteEntries(a.index, topic)| <= 1 &&
        (NoteEntries(a.index, topic) != [] ==> topic in a.t.notes)
  }

  // How a job ended agrees with what it was to do.
  ghost predicate Sound(d: Done, a: Spec) {
    match d.ending
    case Published => Fits(d.task.job, a.t) && Applied(d.task.job, a.t, a.index).Changed?
    case Denied => Applied(d.task.job, a.t, a.index).Refused?
    case Threw(_) => true
  }

  // A removal that stored its change and then failed, leaving the entry published.
  ghost predicate Orphans(d: Done, a: Spec) {
    d.task.job.RmNote? && d.ending == Threw(true) && NoteEntries(a.index, d.task.job.topic) != []
  }

  lemma BackedAt(a: Spec, d: Done, topic: string)
    requires Backed(a) && Sound(d, a) && !Orphans(d, a)
    ensures var a' := SpecStep(a, d);
            |NoteEntries(a'.index, topic)| <= 1 && (NoteEntries(a'.index, topic) != [] ==> topic in a'.t.notes)
  {
    hide StoreEffect, Applied, NoteEntries, Fits, Rereads, Fails;
    StoreNoop(d, a);
    StoreWrites(d.task.job, a.t, topic);
    RefusedRemoval(d.task.job, a.t, a.index);
    if d.ending == Published {
      NoteEntriesAfter(d.task.job, a.t, a.index, topic);
      RereadsNote(d.task.job, a.t, a.index, topic);
    }
  }

  // Jobs keep every note entry backed, except one that leaves an orphan.
  lemma BackedStepIff(a: Spec, d: Done)
    requires Backed(a) && Sound(d, a)
    ensures Backed(SpecStep(a, d)) <==> !Orphans(d, a)
  {
    hide StoreEffect, Applied, NoteEntries, Fits;
    if Orphans(d, a) {
      var topic := d.task.job.topic;
      StoreWrites(d.task.job, a.t, topic);
      StoreNoop(d, a);
      assert NoteEntries(SpecStep(a, d).index, topic) != [];
    } else {
      forall topic: string
        ensures var a' := SpecStep(a, d);
                |NoteEntries(a'.index, topic)| <= 1 && (NoteEntries(a'.index, topic) != [] ==> topic in a'.t.notes)
      {
        BackedAt(a, d, topic);
      }
    }
  }

  // Whatever entries a reindex of a configured root starts from, every orphan goes; a stored
  // note has an entry afterwards exactly unless it was embedded again and that failed.
  lemma ReindexMatchesNotes(job: Job, t: Tables.Tables, index: Index, topic: string)
    requires job.Reindex? && job.scan.rooted && Fits(job, t)
    ensures NoteEntries(Applied(job, t, index).index, topic) != [] <==>
            topic in t.notes && !(Rereads(job, t, index, topic) && Fails(job, t, topic))
  {
    hide NewEntries, Fits, NoteEntries, NoteRescans, NoteFails;
    NoteEntriesAfter(job, t, index, topic);
  }

  lemma RefusedRemoval(job: Job, t: Tables.Tables, index: Index)
    ensures job.RmNote? && Applied(job, t, index).Refused? ==> job.topic !in t.notes
  {
  }

  // ---- every run ----

  ghost predicate LogSound(c: Cell, log: seq<Done>, name: string) {
    forall k :: 0 <= k < |log| && log[k].task.name == name ==> Sound(log[k], Fold(c, log[..k], name))
  }

  ghost predicate PhaseFits(c: Cell, s: System, name: string) {
    WorkingOn(s, name) && !s.phase.Copied? ==> Fits(s.phase.task.job, Fold(c, s.log, name).t)
  }

  lemma LogSoundOneMore(c: Cell, log: seq<Done>, d: Done, name: string)
    requires LogSound(c, log, name) && (d.task.name == name ==> Sound(d, Fold(c, log, name)))
    ensures LogSound(c, log + [d], name)
  {
    hide Sound, Fold;
    var l := log + [d];
    forall k | 0 <= k < |l| && l[k].task.name == name ensures Sound(l[k], Fold(c, l[..k], name)) {
      assert l[..k] == log[..k];
      if k == |log| {
        assert l[..k] == log;
      }
    }
  }

  lemma FitsAlone(job: Job, t: Tables.Tables, t': Tables.Tables)
    requires SameStore(t, t') && Fits(job, t)
    ensures Fits(job, t')
  {
    hide Enumerates;
    assert Tables.MemOf(t).Keys == Tables.MemOf(t').Keys;
  }

  lemma StepSound(c0: Cell, s: System, e: Event, s': System, name: string)
    requires Occurs(s, e, s') && name in s.cells && CellHolds(c0, s, name)
    requires LogSound(c0, s.log, name) && PhaseFits(c0, s, name)
    ensures LogSound(c0, s'.log, name) && PhaseFits(c0, s', name)
  {
    hide LogSound, StoreEffect, Applied, SavedAs, SameRequest, Fits, Fold, Tables.Aligned;
    var a := Fold(c0, s.log, name);
    if e.Operate? && s.phase.task.name == name {
      var t := s.cells[name].t;
      FitsAlone(e.job, t, a.t);
      StoreAlone(e.job, t, a.t, a.index);
    }
    if s'.log != s.log {
      LogSoundOneMore(c0, s.log, s'.log[|s.log|], name);
    }
  }

  lemma {:induction false} RunSound(ss: seq<System>, i: nat, name: string)
    requires Execution(ss) && i < |ss| && name in ss[i].cells
    ensures name in ss[0].cells && LogSound(ss[0].cells[name], ss[i].log, name) &&
        PhaseFits(ss[0].cells[name], ss[i], name)
  {
    hide Occurs, CellHolds, RowsHold, Sound, Fits, Fold;
    RunHolds(ss, i);
    if i > 0 {
      RunHolds(ss, i - 1);
      var e :| Occurs(ss[i - 1], e, ss[i]);
      RunSound(ss, i - 1, name);
      assert CellHolds(ss[0].cells[name], ss[i - 1], name);
      StepSound(ss[0].cells[name], ss[i - 1], e, ss[i], name);
    }
  }

  // No job of this index left an orphan.
  ghost predicate NoOrphans(c: Cell, log: seq<Done>, name: string) {
    forall k :: 0 <= k < |log| && log[k].task.name == name ==> !Orphans(log[k], Fold(c, log[..k], name))
  }

  lemma FoldNext(c: Cell, log: seq<Done>, n: nat, name: string)
    requires n < |log|
    ensures Fold(c, log[..n + 1], name)
         == if log[n].task.name == name then SpecStep(Fold(c, log[..n], name), log[n]) else Fold(c, log[..n], name)
  {
    assert log[..n + 1][..n] == log[..n];
  }

  lemma {:induction false} BackedUpTo(c: Cell, log: seq<Done>, name: string, n: nat)
    requires LogSound(c, log, name) && Backed(Fold(c, [], name)) && NoOrphans(c, log, name) && n <= |log|
    ensures Backed(Fold(c, log[..n], name))
  {
    hide Backed, Sound, SpecStep, Fold, Orphans;
    if n == 0 {
      assert log[..0] == [];
    } else {
      BackedUpTo(c, log, name, n - 1);
      FoldNext(c, log, n - 1, name);
      if log[n - 1].task.name == name {
        BackedStepIff(Fold(c, log[..n - 1], name), log[n - 1]);
      }
    }
  }

  // Along a log, notes are backed after every job exactly if no job orphans.
  lemma FoldBackedIff(c: Cell, log: seq<Done>, name: string)
    requires LogSound(c, log, name) && Backed(Fold(c, [], name))
    ensures (forall n :: 0 <= n <= |log| ==> Backed(Fold(c, log[..n], name))) <==> NoOrphans(c, log, name)
  {
    hide Backed, Sound, SpecStep, Fold, Orphans;
    if NoOrphans(c, log, name) {
      forall n | 0 <= n <= |log|
        ensures Backed(Fold(c, log[..n], name))
      {
        BackedUpTo(c, log, name, n);
      }
    } else {
      var k :| 0 <= k < |log| && log[k].task.name == name && Orphans(log[k], Fold(c, log[..k], name));
      FoldNext(c, log, k, name);
      if Backed(Fold(c, log[..k], name)) {
        BackedStepIff(Fold(c, log[..k], name), log[k]);
      }
      assert 0 <= k + 1 <= |log|;
    }
  }

  // The log grows by one job at a time, each ending with the writer idle, so each of its
  // prefixes was the log once while it was.
  lemma {:induction false} LogWas(ss: seq<System>, i: nat, n: nat) returns (j: nat)
    requires Execution(ss) && i < |ss| && n <= |ss[i].log|
    ensures j <= i && ss[j].log == ss[i].log[..n] && ss[j].phase.Idle?
  {
    hide Occurs;
    j := i;
    NothingLogged(ss);
    if i > 0 {
      var e :| Occurs(ss[i - 1], e, ss[i]);
      LogStep(ss[i - 1], e, ss[i]);
      if n <= |ss[i - 1].log| {
        j := LogWas(ss, i - 1, n);
        assert ss[i].log[..n] == ss[i - 1].log[..n];
      }
    }
    assert ss[i].log[..|ss[i].log|] == ss[i].log;
  }

  lemma LogStep(s: System, e: Event, s': System)
    requires Occurs(s, e, s')
    ensures |s.log| <= |s'.log| <= |s.log| + 1 && s'.log[..|s.log|] == s.log
    ensures |s'.log| > |s.log| ==> s'.phase.Idle?
  {
    hide StoreEffect, Applied, SavedAs, SameRequest, Fits;
  }

  // No job of the index is between its own store writes and its end.
  ghost predicate Settled(s: System, name: string) {
    !WorkingOn(s, name) || s.phase.Copied?
  }

  // The database has the note of each published note entry, and no topic has two entries.
  ghost predicate BackedNow(s: System, name: string) {
    name in s.cells && Backed(Spec(Latest(s.cells[name].pubs), s.cells[name].t))
  }

  lemma BackedIsFold(ss: seq<System>, j: nat, name: string)
    requires Execution(ss) && j < |ss| && name in ss[0].cells && Settled(ss[j], name)
    ensures BackedNow(ss[j], name) <==> Backed(Fold(ss[0].cells[name], ss[j].log, name))
  {
    hide Execution, Fold, NoteEntries, StoreEffect, Applied, RowsHold;
    CellsStay(ss, j, name);
    RunHolds(ss, j);
    assert CellHolds(ss[0].cells[name], ss[j], name);
  }

  // In every run that starts with an index's notes backed by its database, they are so at
  // every moment at which no job of it has store writes of its own pending, exactly if no job
  // of that index left an orphan.
  lemma PublishedNotesBacked(ss: seq<System>, i: nat, name: string)
    requires Execution(ss) && i < |ss| && name in ss[0].cells && BackedNow(ss[0], name)
    ensures (forall j :: 0 <= j <= i && Settled(ss[j], name) ==> BackedNow(ss[j], name)) <==>
            NoOrphans(ss[0].cells[name], ss[i].log, name)
  {
    hide Execution, Backed, LogSound, Fold, NoOrphans, BackedNow, Settled;
    CellsStay(ss, i, name);
    RunSound(ss, i, name);
    NothingLogged(ss);
    IdleSettled(ss[0], name);
    BackedIsFold(ss, 0, name);
    FoldBackedIff(ss[0].cells[name], ss[i].log, name);
    if forall j :: 0 <= j <= i && Settled(ss[j], name) ==> BackedNow(ss[j], name) {
      forall n | 0 <= n <= |ss[i].log|
        ensures Backed(Fold(ss[0].cells[name], ss[i].log[..n], name))
      {
        var j := LogWas(ss, i, n);
        IdleSettled(ss[j], name);
        BackedIsFold(ss, j, name);
      }
    } else {
      var j :| 0 <= j <= i && Settled(ss[j], name) && !BackedNow(ss[j], name);
      CellsStay(ss, j, name);
      BackedIsFold(ss, j, name);
      PublicationsGrow(ss, j, i, name);
      assert ss[i].log[..|ss[j].log|] == ss[j].log;
      assert !Backed(Fold(ss[0].cells[name], ss[i].log[..|ss[j].log|], name));
    }
  }

  lemma IdleSettled(s: System, name: string)
    ensures s.phase.Idle? ==> Settled(s, name)
  {
  }

  lemma NothingLogged(ss: seq<System>)
    requires Execution(ss)
    ensures ss[0].log == [] && ss[0].phase.Idle?
  {
    hide Next;
  }

  lemma CellsStay(ss: seq<System>, i: nat, name: string)
    requires Execution(ss) && i < |ss| && name in ss[0].cells
    ensures name in ss[i].cells
  {
    hide Execution, Next;
    PublicationsGrow(ss, 0, i, name);
  }

  // ---- a client's own write ----

  // Job m of the log is a reindex that embedded the note again.
  ghost predicate RereadAt(c: Cell, log: seq<Done>, name: string, topic: string, m: nat)
    requires m < |log|
  {
    var d, a := log[m], Fold(c, log[..m], name);
    d.task.name == name && d.ending == Published && Rereads(d.task.job, a.t, a.index, topic)
  }

  // The last such job between k and n, or k if there is none.
  ghost function LastReread(c: Cell, log: seq<Done>, name: string, topic: string, k: nat, n: nat): (m: nat)
    requires k < n <= |log|
    ensures k <= m < n && (m > k ==> RereadAt(c, log, name, topic, m) && log[m].task.job.Reindex?)
    ensures forall later :: m < later < n ==> !RereadAt(c, log, name, topic, later)
  {
    if n == k + 1 then k
    else if RereadAt(c, log, name, topic, n - 1) then n - 1
    else LastReread(c, log, name, topic, k, n - 1)
  }

  // What the entries of a topic are to be after n jobs, job k being the last to write it: none
  // if that removed it; else the entry it added, or the one the last reindex to embed the note
  // again made of it, if any.
  ghost function EntriesToBe(c: Cell, log: seq<Done>, name: string, topic: string, k: nat, n: nat): seq<Entry>
    requires k < n <= |log|
  {
    if !log[k].task.job.AddNote? then []
    else
      var m := LastReread(c, log, name, topic, k, n);
      if m == k then AddedEntry(log[k].task.job)
      else RereadEntry(log[m].task.job.scan.x, topic, log[k].task.job.entry)
  }

  lemma {:induction false} WriteStays(c: Cell, log: seq<Done>, k: nat, n: nat, name: string, topic: string)
    requires LogSound(c, log, name) && k < n <= |log| && log[k].ending == Published && Writes(log[k], name, topic)
    requires forall m :: k < m < n ==> !Writes(log[m], name, topic)
    ensures var a, added := Fold(c, log[..n], name), log[k].task.job.AddNote?;
            && (topic in a.t.notes <==> added)
            && (added ==> a.t.notes[topic] == Tables.NoteOf(log[k].task.job.entry))
            && NoteEntries(a.index, topic) == EntriesToBe(c, log, name, topic, k, n)
    decreases n
  {
    hide Sound, Fold, NoteEntries, Writes, Tables.NoteOf, AddedEntry, RereadEntry, RereadAt, SpecStep;
    FoldNext(c, log, n - 1, name);
    WritesNote(log[k], name, topic);
    if k < n - 1 {
      WriteStays(c, log, k, n - 1, name, topic);
      LaterStep(c, log, k, n - 1, name, topic);
    } else {
      WriteStep(Fold(c, log[..k], name), log[k], name, topic);
    }
  }

  lemma WritesNote(d: Done, name: string, topic: string)
    requires Writes(d, name, topic)
    ensures d.task.name == name && (d.task.job.AddNote? || d.task.job.RmNote?) && d.task.job.topic == topic
  {
  }

  // The publication of a write.
  lemma WriteStep(a: Spec, d: Done, name: string, topic: string)
    requires Sound(d, a) && Writes(d, name, topic) && d.ending == Published
    ensures var a', added := SpecStep(a, d), d.task.job.AddNote?;
            && (topic in a'.t.notes <==> added)
            && (added ==> a'.t.notes[topic] == Tables.NoteOf(d.task.job.entry))
            && NoteEntries(a'.index, topic) == if added then AddedEntry(d.task.job) else []
  {
    hide StoreEffect, Applied, NoteEntries, Fits, Tables.NoteOf;
    StoreNoop(d, a);
    StoreWrites(d.task.job, a.t, topic);
    NoteEntriesAfter(d.task.job, a.t, a.index, topic);
  }

  // Job n, after it, which writes another topic, or none.
  lemma LaterStep(c: Cell, log: seq<Done>, k: nat, n: nat, name: string, topic: string)
    requires k < n < |log| && (log[k].task.job.AddNote? || log[k].task.job.RmNote?)
    requires var a, added := Fold(c, log[..n], name), log[k].task.job.AddNote?;
             && (log[n].task.name == name ==> Sound(log[n], a))
             && !Writes(log[n], name, topic)
             && (topic in a.t.notes <==> added)
             && (added ==> a.t.notes[topic] == Tables.NoteOf(log[k].task.job.entry))
             && NoteEntries(a.index, topic) == EntriesToBe(c, log, name, topic, k, n)
    ensures var a, added := Fold(c, log[..n], name), log[k].task.job.AddNote?;
            var a' := if log[n].task.name == name then SpecStep(a, log[n]) else a;
            && (topic in a'.t.notes <==> added)
            && (added ==> a'.t.notes[topic] == Tables.NoteOf(log[k].task.job.entry))
            && NoteEntries(a'.index, topic) == EntriesToBe(c, log, name, topic, k, n + 1)
  {
    hide StoreEffect, Applied, NoteEntries, Fits, Tables.NoteOf, Fold, Rereads, Fails, AddedEntry, RereadEntry;
    var a, d := Fold(c, log[..n], name), log[n];
    if d.task.name == name {
      StoreNoop(d, a);
      StoreWrites(d.task.job, a.t, topic);
      if d.ending == Published {
        NoteEntriesAfter(d.task.job, a.t, a.index, topic);
        RereadsNote(d.task.job, a.t, a.index, topic);
        if Rereads(d.task.job, a.t, a.index, topic) {
          RereadOf(d.task.job.scan.x, a.t, topic, log[k].task.job.entry);
        }
      }
    }
  }

  lemma RereadsNote(job: Job, t: Tables.Tables, index: Index, topic: string)
    ensures Rereads(job, t, index, topic) ==> job.Reindex? && topic in t.notes
  {
    hide NoteRescans, LastHashes;
  }

  // What is embedded again is the note as it was added.
  lemma RereadOf(x: Extract, t: Tables.Tables, topic: string, e: MemEntry)
    requires topic in t.notes && t.notes[topic] == Tables.NoteOf(e)
    ensures RereadEntry(x, topic, Tables.MemOf(t)[topic]) == RereadEntry(x, topic, e)
  {
    hide Separators.Join, Separators.Split;
  }

  // Read your writes: once a client has been told that its note was removed, no later snapshot
  // has an entry for it and no later store the note, until another job writes the topic; once
  // told that it was added, the note is stored as given and its one entry is the one made
  // then, until a reindex embeds the note again; from then on it is the one made of the stored
  // note by the last reindex to do so, or none if that embedding is empty.
  lemma ReadYourWrites(ss: seq<System>, i: nat, j: nat, k: nat, name: string, topic: string)
    requires Execution(ss) && i <= j < |ss| && name in ss[i].cells && name in ss[j].cells
    requires k < |ss[i].log| <= |ss[j].log| && ss[i].log[k].ending == Published && Writes(ss[i].log[k], name, topic)
    requires forall m :: k < m < |ss[j].log| ==> !Writes(ss[j].log[m], name, topic)
    ensures name in ss[0].cells && ss[j].log[k] == ss[i].log[k]
    ensures NoteEntries(Latest(ss[j].cells[name].pubs), topic)
         == EntriesToBe(ss[0].cells[name], ss[j].log, name, topic, k, |ss[j].log|)
    ensures !WorkingOn(ss[j], name) ==>
              var notes, added := ss[j].cells[name].t.notes, ss[j].log[k].task.job.AddNote?;
              && (topic in notes <==> added)
              && (added ==> notes[topic] == Tables.NoteOf(ss[j].log[k].task.job.entry))
  {
    hide Execution, LogSound, Writes, NoteEntries, Fold, EntriesToBe, Tables.Aligned, Rewritten, Tables.NoteOf;
    PublicationsGrow(ss, i, j, name);
    RunSound(ss, j, name);
    NoLostUpdate(ss, j, name);
    WriteStays(ss[0].cells[name], ss[j].log, k, |ss[j].log|, name, topic);
    assert ss[j].log[..|ss[j].log|] == ss[j].log;
    if !WorkingOn(ss[j], name) {
      DatabaseAgrees(ss, j, name);
    }
  }

  // ---- a file added ----

  ghost function FileEntriesIn(index: Index, path: string): seq<Entry> {
    Filter(EntriesOf(Doc, path), index.entries)
  }

  // A job that replaces, or lets go of, the entries of a file.
  ghost predicate RenewsFile(d: Done, a: Spec, path: string) {
    d.ending == Published &&
    match d.task.job
    case AddDoc(p, written, vec, _) => p == path && written && vec != []
    case Reindex(s) =>
      s.rooted && (path !in s.tree || path in ChangedBy(s.x, s.tree, s.force, a.index.entries))
    case _ => false
  }

  lemma FileStep(a: Spec, d: Done, path: string)
    requires Sound(d, a)
    ensures !RenewsFile(d, a, path) ==>
              FileEntriesIn(SpecStep(a, d).index, path) == FileEntriesIn(a.index, path)
    ensures RenewsFile(d, a, path) && d.task.job.AddDoc? ==>
              FileEntriesIn(SpecStep(a, d).index, path) == [Entry(Meta(Doc, path, path, 1, 0, 0), d.task.job.vec)]
  {
    hide StoreEffect, Filter, NewEntries, ChangedBy, Replaced, Enumerates, EntriesOf, Others;
    if d.ending == Published {
      match d.task.job
      case AddNote(p, _, hash, vec, dim) => ReplacedFile(a.index, Meta(Note, p, p, 0, 0, hash), vec, dim, path);
      case AddDoc(p, _, vec, dim) => ReplacedFile(a.index, Meta(Doc, p, p, 1, 0, 0), vec, dim, path);
      case RmNote(p) => RemovedFile(a.index, p, path);
      case Reindex(s) =>
        if s.rooted {
          FileAfterRun(s.x, s.tree, s.r, s.force, a.index.entries, Tables.MemOf(a.t), a.t.glossary, path);
        }
      case _ =>
    }
  }

  lemma ReplacedFile(index: Index, m: Meta, vec: seq<word32>, dim: nat, path: string)
    ensures FileEntriesIn(Replaced(index, m, vec, dim), path) ==
            if m.proto == Doc && m.path == path then [Entry(m, vec)] else FileEntriesIn(index, path)
  {
    hide Filter;
    var mine, others := EntriesOf(Doc, path), Others(m.proto, m.path);
    FilterAppend(mine, Filter(others, index.entries), [Entry(m, vec)]);
    FilterOne(mine, Entry(m, vec));
    if m.proto == Doc && m.path == path {
      FilterApart(mine, others, index.entries);
    } else {
      FilterInner(mine, others, index.entries);
    }
  }

  lemma RemovedFile(index: Index, topic: string, path: string)
    ensures Filter(EntriesOf(Doc, path), Filter(Others(Note, topic), index.entries)) == FileEntriesIn(index, path)
  {
    hide Filter;
    FilterInner(EntriesOf(Doc, path), Others(Note, topic), index.entries);
  }

  lemma {:induction false} FileStays(c: Cell, log: seq<Done>, k: nat, n: nat, name: string, path: string)
    requires LogSound(c, log, name) && k < n <= |log| && log[k].task.name == name && log[k].task.job.AddDoc?
    requires RenewsFile(log[k], Fold(c, log[..k], name), path)
    requires forall m :: k < m < n && log[m].task.name == name ==> !RenewsFile(log[m], Fold(c, log[..m], name), path)
    ensures FileEntriesIn(Fold(c, log[..n], name).index, path)
         == [Entry(Meta(Doc, path, path, 1, 0, 0), log[k].task.job.vec)]
    decreases n
  {
    hide Sound, Fold, RenewsFile, FileEntriesIn, SpecStep;
    FoldNext(c, log, n - 1, name);
    if k < n - 1 {
      FileStays(c, log, k, n - 1, name, path);
    }
    if log[n - 1].task.name == name {
      FileStep(Fold(c, log[..n - 1], name), log[n - 1], path);
    }
  }

  // A file added through the daemon and embedded is in every later snapshot, with that
  // embedding, until it is added again or a reindex reads it again or no longer finds it.
  lemma ReadYourFiles(ss: seq<System>, j: nat, k: nat, name: string, path: string)
    requires Execution(ss) && j < |ss| && name in ss[j].cells && name in ss[0].cells
    requires var c, log := ss[0].cells[name], ss[j].log;
             && k < |log| && log[k].task.name == name && log[k].task.job.AddDoc?
             && RenewsFile(log[k], Fold(c, log[..k], name), path)
             && forall m :: k < m < |log| && log[m].task.name == name ==>
                  !RenewsFile(log[m], Fold(c, log[..m], name), path)
    ensures FileEntriesIn(Latest(ss[j].cells[name].pubs), path) ==
            [Entry(Meta(Doc, path, path, 1, 0, 0), ss[j].log[k].task.job.vec)]
  {
    hide Execution, LogSound, RenewsFile, FileEntriesIn, Fold;
    RunSound(ss, j, name);
    NoLostUpdate(ss, j, name);
    FileStays(ss[0].cells[name], ss[j].log, k, |ss[j].log|, name, path);
    assert ss[j].log[..|ss[j].log|] == ss[j].log;
  }

  // ---- search ----

  // The entries a search is given are the published ones.
  ghost predicate Shows(es: seq<Search.Entry>, entries: seq<Entry>) {
    |es| == |entries| && forall i :: 0 <= i < |es| ==>
      && es[i].proto == entries[i].meta.proto && es[i].path == entries[i].meta.path
      && es[i].line == entries[i].meta.line && es[i].chunk == entries[i].meta.chunk
  }

  // While none of the searched indexes has a job under way, each having been loaded at start or
  // had its rows written since: every keyword hit taken from their databases is the published
  // entry with the text the keyword table has for it, and is credited to that entry of its own
  // index only; so the score formula holds.
  lemma IdleSearchCreditsOwn(
      ss: seq<System>, i: nat, names: seq<string>, indexes: map<string, seq<Search.Entry>>,
      fts: map<string, Search.Provider>)
    requires Execution(ss) && i < |ss|
    requires forall n :: n in names && n in indexes ==>
               && n in ss[0].cells && n in ss[i].cells && !WorkingOn(ss[i], n)
               && (Tables.Aligned(ss[0].cells[n].t, Metas(Latest(ss[0].cells[n].pubs).entries)) ||
                   Rewritten(ss[i].log, n))
               && Shows(indexes[n], Latest(ss[i].cells[n].pubs).entries)
    requires forall n :: n in names && n in indexes && n in fts ==>
               && Search.DistinctHits(fts[n](|indexes[n]|))
               && forall h :: h in fts[n](|indexes[n]|) ==> h >= 0 && h + 1 in ss[i].cells[n].t.fts
    ensures forall n, h :: n in names && n in indexes && n in fts && h in fts[n](|indexes[n]|) ==>
              0 <= h < |indexes[n]| &&
              ss[i].cells[n].t.fts[h + 1] == (indexes[n][h].path, indexes[n][h].chunk)
    ensures Search.CreditsOwn(Search.Segments(names, indexes, fts)) && Search.WellAnswered(names, indexes, fts)
  {
    hide Execution, Latest, Tables.Aligned, Search.CreditsOwn, Search.Segments, Search.WellAnswered,
      Search.DistinctHits, WorkingOn, Fold, Rewritten;
    forall n, h | n in names && n in indexes && n in fts && h in fts[n](|indexes[n]|)
      ensures 0 <= h < |indexes[n]| && ss[i].cells[n].t.fts[h + 1] == (indexes[n][h].path, indexes[n][h].chunk)
    {
      DatabaseAgrees(ss, i, n);
      Keywords.HitDenotesEntry(ss[i].cells[n].t, Metas(Latest(ss[i].cells[n].pubs).entries), h);
    }
    Keywords.AlignedHitsCreditOwn(names, indexes, fts);
  }

  // ---- the code is the protocol ----

  ghost predicate Reaches(s: System, s': System) {
    exists ss: seq<System> ::
      ss != [] && ss[0] == s && ss[|ss| - 1] == s' && forall i :: 0 < i < |ss| ==> Next(ss[i - 1], ss[i])
  }

  ghost function EndingOf(r: Result, stored: bool): Ending {
    match r
    case Ok(_) => Published
    case Failed => Denied
    case Thrown => Threw(stored)
  }

  // A whole job as the writer's code runs it is a sequence of the protocol's steps: what the
  // method leaves in the database and publishes, the steps leave too.
  lemma JobIsSteps(s: System, job: Job, t': Tables.Tables, r: Result) returns (s': System)
    requires s.phase.Copied? && s.phase.task.name in s.cells && SameRequest(s.phase.task.job, job)
    requires !r.Thrown? ==> Fits(job, s.cells[s.phase.task.name].t)
    requires Ran(job, s.cells[s.phase.task.name].t, s.phase.copy, t', r)
    ensures var name := s.phase.task.name;
            && Reaches(s, s') && s'.phase.Idle? && s'.queue == s.queue
            && s'.cells == s.cells[name := Cell(t', s.cells[name].pubs + if r.Ok? then [r.index] else [])]
            && s'.log == s.log + [Done(s.phase.task.(job := job), EndingOf(r, t' != s.cells[name].t))]
  {
    hide Ran, Reaches, SameRequest, Fits;
    var c := s.cells[s.phase.task.name];
    assert c.pubs + [] == c.pubs;
    match r
    case Ok(_) => s' := PublishSteps(s, job, t', r);
    case Failed => s' := RefusalStep(s, job, t', r);
    case Thrown => s' := ThrowStep(s, job, t', r);
  }

  lemma PublishSteps(s: System, job: Job, t': Tables.Tables, r: Result) returns (s': System)
    requires s.phase.Copied? && s.phase.task.name in s.cells && SameRequest(s.phase.task.job, job)
    requires r.Ok? && Fits(job, s.cells[s.phase.task.name].t)
    requires Ran(job, s.cells[s.phase.task.name].t, s.phase.copy, t', r)
    ensures var name := s.phase.task.name;
            Reaches(s, s') && s' == s.(phase := Idle, log := s.log + [Done(s.phase.task.(job := job), Published)],
                cells := s.cells[name := Cell(t', s.cells[name].pubs + [r.index])])
  {
    hide StoreEffect, Applied, SavedAs, SameRequest, Fits, Reaches;
    var task, c := s.phase.task.(job := job), s.cells[s.phase.task.name];
    var s1 := s.(cells := SetTables(s, task.name, StoreEffect(job, c.t)),
        phase := Operated(task, s.phase.copy, r.index));
    var s2 := s1.(cells := SetTables(s1, task.name, t'), phase := Saved(task, r.index));
    s' := s2.(cells := s2.cells[task.name := Cell(t', c.pubs + [r.index])], phase := Idle,
        log := s.log + [Done(task, Published)]);
    assert Occurs(s, Operate(job), s1);
    assert Occurs(s1, Save(t'), s2);
    assert Occurs(s2, Publish, s');
    ReachesInThree(s, s1, s2, s');
  }

  lemma RefusalStep(s: System, job: Job, t': Tables.Tables, r: Result) returns (s': System)
    requires s.phase.Copied? && s.phase.task.name in s.cells && SameRequest(s.phase.task.job, job)
    requires r.Failed? && Fits(job, s.cells[s.phase.task.name].t)
    requires Ran(job, s.cells[s.phase.task.name].t, s.phase.copy, t', r)
    ensures Reaches(s, s') && s' == s.(cells := SetTables(s, s.phase.task.name, t'), phase := Idle,
                log := s.log + [Done(s.phase.task.(job := job), Denied)])
  {
    hide StoreEffect, Applied, SavedAs, SameRequest, Fits, Reaches;
    var task := s.phase.task.(job := job);
    s' := s.(cells := SetTables(s, task.name, t'), phase := Idle, log := s.log + [Done(task, Denied)]);
    assert Occurs(s, Operate(job), s');
    ReachesInOne(s, s');
  }

  lemma ThrowStep(s: System, job: Job, t': Tables.Tables, r: Result) returns (s': System)
    requires s.phase.Copied? && s.phase.task.name in s.cells && SameRequest(s.phase.task.job, job)
    requires r.Thrown? && Ran(job, s.cells[s.phase.task.name].t, s.phase.copy, t', r)
    ensures var b := t' != s.cells[s.phase.task.name].t;
            Reaches(s, s') && s' == s.(cells := SetTables(s, s.phase.task.name, t'), phase := Idle,
                log := s.log + [Done(s.phase.task.(job := job), Threw(b))])
  {
    hide StoreEffect, Applied, SavedAs, SameRequest, Fits, Reaches;
    var task, b := s.phase.task.(job := job), t' != s.cells[s.phase.task.name].t;
    s' := s.(cells := SetTables(s, task.name, t'), phase := Idle, log := s.log + [Done(task, Threw(b))]);
    assert Occurs(s, Throw(job, b), s');
    ReachesInOne(s, s');
  }

  lemma ReachesInOne(s: System, s': System)
    requires Next(s, s')
    ensures Reaches(s, s')
  {
    hide Next;
    assert [s, s'][0] == s && [s, s'][1] == s';
  }

  lemma ReachesInThree(s: System, s1: System, s2: System, s': System)
    requires Next(s, s1) && Next(s1, s2) && Next(s2, s')
    ensures Reaches(s, s')
  {
    hide Next;
    var ss := [s, s1, s2, s'];
    assert ss[0] == s && ss[3] == s';
  }

  // The published snapshots, and the database of one index, are those of a protocol state.
  ghost predicate Mirrors(d: DaemonState, db: Backend.Db, name: string, s: System)
    reads d, db
  {
    && name in s.cells && s.cells[name].t == db.durable
    && forall n :: n in s.cells ==> d.Published(n) == Latest(s.cells[n].pubs)
  }

  // The protocol state just after the writer took the job.
  ghost predicate Took(s: System, name: string, job: Job)
    requires name in s.cells
  {
    s.phase.Copied? && s.phase.task.name == name && s.phase.copy == Latest(s.cells[name].pubs) &&
    SameRequest(s.phase.task.job, job)
  }

  // The code simulates the protocol: from any protocol state that mirrors the daemon's, the
  // protocol's own steps lead to one that mirrors it after the job, with this very job logged,
  // as it ended, and no other.
  method RunAddOrRemove(d: DaemonState, name: string, job: Job, db: Backend.Db, ghost s: System)
    returns (r: Result, ghost s': System)
    requires !job.Reindex? && db.Idle() && Mirrors(d, db, name, s) && Took(s, name, job)
    modifies d, db
    ensures db.Idle() && Reaches(s, s') && s'.phase.Idle? && Mirrors(d, db, name, s')
    ensures s'.queue == s.queue && Ran(job, old(db.durable), old(d.Published(name)), db.durable, r)
    ensures s'.log == s.log + [Done(s.phase.task.(job := job), EndingOf(r, db.durable != old(db.durable)))]
  {
    hide Ran, Reaches;
    r := d.AddOrRemove(name, job, db);
    s' := JobIsSteps(s, job, db.durable, r);
  }

  method RunReindex(d: DaemonState, name: string, scan: Scan, batchSize: int, db: Backend.Db, ghost s: System)
    returns (r: Result, ghost done: Scan, ghost s': System)
    requires db.Idle() && Mirrors(d, db, name, s) && Enumerates(scan.r.files, scan.tree.Keys)
    requires Took(s, name, Reindex(scan))
    modifies d, db
    ensures db.Idle() && Reaches(s, s') && s'.phase.Idle? && Mirrors(d, db, name, s')
    ensures done == scan.(r := done.r)
    ensures s'.queue == s.queue && Ran(Reindex(done), old(db.durable), old(d.Published(name)), db.durable, r)
    ensures s'.log == s.log + [Done(s.phase.task.(job := Reindex(done)), EndingOf(r, db.durable != old(db.durable)))]
  {
    hide Ran, Reaches, Reindexed, Enumerates;
    r, done := d.RunIndexJob(name, scan, batchSize, db);
    s' := JobIsSteps(s, Reindex(done), db.durable, r);
  }

  // What the daemon's saves do to an index is what the histories of `Rebuild` are made of: a
  // reindex is a run, a file added and embedded is added whole, and no other job touches the
  // rows of any file.
  lemma JobIsAct(
      x: Extract, job: Job, t0: Tables.Tables, index: Index, t: Tables.Tables, next: Index, t': Tables.Tables)
    returns (act: Rebuild.Act)
    requires Applied(job, t0, index) == Operations.Changed(next) && SavedAs(job, index, t, next, t')
    requires job.Reindex? ==> job.scan.x == x
    ensures Rebuild.Performs(x, act, State(index.entries, t), State(next.entries, t')) && ActOf(job, t, act)
  {
    hide Filter, EntriesOf, Others, Replaced, NewEntries, Backend.Written, Backend.LoadedFrom, Assembles,
      Tables.MemOf, Reindexed;
    act := Rebuild.Touches;
    match job
    case AddNote(p, _, hash, vec, dim) => OtherFilesKept(index, Meta(Note, p, p, 0, 0, hash), vec, dim);
    case RmNote(p) =>
      forall path: string
        ensures Filter(EntriesOf(Doc, path), Filter(Others(Note, p), index.entries))
             == Filter(EntriesOf(Doc, path), index.entries)
      {
        RemovedFile(index, p, path);
      }
    case AddDoc(p, written, vec, dim) =>
      if written && vec != [] {
        act := Rebuild.Adds(p, vec);
        OtherFilesKept(index, Meta(Doc, p, p, 1, 0, 0), vec, dim);
      }
    case Reindex(s) =>
      if s.rooted {
        var run := ReindexIsRun(s, t, index, t', next);
        act := Rebuild.Reads(run, s.force);
      }
    case _ =>
  }

  // The act a job amounts to, on these tables.
  ghost predicate ActOf(job: Job, t: Tables.Tables, act: Rebuild.Act) {
    match job
    case Reindex(s) =>
      if s.rooted then
        act.Reads? && act.run.tree == s.tree && act.force == s.force && act.run.l.glossary == t.glossary
      else act.Touches?
    case AddDoc(path, written, vec, _) =>
      if written && vec != [] then act == Rebuild.Adds(path, vec) else act.Touches?
    case _ => act.Touches?
  }

  lemma OtherFilesKept(index: Index, m: Meta, vec: seq<word32>, dim: nat)
    ensures forall p: string :: Filter(EntriesOf(Doc, p), Replaced(index, m, vec, dim).entries) ==
              if m.proto == Doc && m.path == p then [Entry(m, vec)] else Filter(EntriesOf(Doc, p), index.entries)
  {
    hide Filter, Replaced;
    forall p: string
      ensures Filter(EntriesOf(Doc, p), Replaced(index, m, vec, dim).entries) ==
              if m.proto == Doc && m.path == p then [Entry(m, vec)] else Filter(EntriesOf(Doc, p), index.entries)
    {
      ReplacedFile(index, m, vec, dim, p);
    }
  }

  lemma ReindexIsRun(s: Scan, t: Tables.Tables, index: Index, t': Tables.Tables, next: Index) returns (run: Run)
    requires Reindexed(s, index, t, next, t')
    ensures run.tree == s.tree && run.l.glossary == t.glossary
    ensures Does(s.x, run, s.force, State(index.entries, t), State(next.entries, t'))
  {
    hide Assembles, Backend.LoadedFrom, Backend.Written, Backend.Walks;
    var l: IndexData, data: IndexData, o: Backend.Order :|
      Backend.LoadedFrom(l, t) && Assembles(s.x, s.tree, s.r, s.force, index.entries, l, data) &&
      data.index == next && Backend.Walks(o, data) && t' == Backend.Written(t, data, o);
    run := Run(s.tree, s.r, l, data, o);
    LoadedGlossary(l, t);
  }

  lemma LoadedGlossary(l: IndexData, t: Tables.Tables)
    requires Backend.LoadedFrom(l, t)
    ensures l.glossary == t.glossary
  {
    hide SameGroups, Group, Mapped, Tables.OfKind, Tables.IndexOf, Tables.MemOf;
  }

  // ---- runs of the daemon are histories ----

  // The entries and tables of an index: the published ones, or the next ones once saved.
  ghost function StateOf(s: System, name: string): State
    requires name in s.cells
  {
    var c := s.cells[name];
    State((if WorkingOn(s, name) && s.phase.Saved? then s.phase.next else Latest(c.pubs)).entries, c.t)
  }

  // Every reindex of the index up to moment i is by these chunkers, extractors and model.
  ghost predicate AllBy(ss: seq<System>, i: nat, name: string, x: Extract)
    requires i < |ss|
  {
    forall m :: 0 <= m <= i && ss[m].phase.Operated? && ss[m].phase.task.name == name ==>
      ss[m].phase.task.job.Reindex? ==> ss[m].phase.task.job.scan.x == x
  }

  // The step from moment m is the save of a job of this index.
  ghost predicate Saves(ss: seq<System>, m: nat, name: string)
    requires m + 1 < |ss|
  {
    WorkingOn(ss[m], name) && ss[m].phase.Operated? && ss[m + 1].phase.Saved?
  }

  // What the step from moment m does to the index: the act of the job whose save it is, and
  // otherwise nothing to any file.
  ghost predicate ActAt(ss: seq<System>, m: nat, name: string, act: Rebuild.Act)
    requires m + 1 < |ss|
  {
    if Saves(ss, m, name) then name in ss[m].cells && ActOf(ss[m].phase.task.job, ss[m].cells[name].t, act)
    else act.Touches?
  }

  // The acts of a run up to moment i, step by step: none left out, repeated or moved.
  ghost predicate ActsOfRun(ss: seq<System>, i: nat, name: string, acts: seq<Rebuild.Act>)
    requires i < |ss|
  {
    |acts| == i && forall m :: 0 <= m < i ==> ActAt(ss, m, name, acts[m])
  }

  // Each step performs its act.
  lemma StepIsAct(c0: Cell, ss: seq<System>, m: nat, name: string, x: Extract) returns (act: Rebuild.Act)
    requires m + 1 < |ss| && Next(ss[m], ss[m + 1]) && name in ss[m].cells && CellHolds(c0, ss[m], name)
    requires AllBy(ss, m, name, x)
    ensures name in ss[m + 1].cells && ActAt(ss, m, name, act)
    ensures Rebuild.Performs(x, act, StateOf(ss[m], name), StateOf(ss[m + 1], name))
  {
    hide Occurs, CellHolds, ActOf, Rebuild.Performs, StateOf;
    var e :| Occurs(ss[m], e, ss[m + 1]);
    SaveShows(ss[m], e, ss[m + 1]);
    ByAt(ss, m, name, x);
    if e.Save? && WorkingOn(ss[m], name) {
      act := SaveIsAct(c0, ss[m], e, ss[m + 1], x);
    } else {
      act := Rebuild.Touches;
      OtherTouches(ss[m], e, ss[m + 1], name, x);
    }
  }

  // A save is what leads from having operated to having saved.
  lemma SaveShows(s: System, e: Event, s': System)
    requires Occurs(s, e, s')
    ensures e.Save? <==> s.phase.Operated? && s'.phase.Saved?
  {
    hide StoreEffect, Applied, SavedAs, SameRequest, Fits;
  }

  lemma OtherTouches(s: System, e: Event, s': System, name: string, x: Extract)
    requires Occurs(s, e, s') && name in s.cells && !(e.Save? && WorkingOn(s, name))
    ensures name in s'.cells && Rebuild.Performs(x, Rebuild.Touches, StateOf(s, name), StateOf(s', name))
  {
    hide StoreEffect, Applied, SavedAs, Fold, SameRequest, Fits, SameStore, Filter, EntriesOf;
    match e
    case Operate(job) => EffectTouches(job, s.cells[s.phase.task.name].t);
    case Throw(job, _) => EffectTouches(job, s.cells[s.phase.task.name].t);
    case _ =>
  }

  lemma SaveIsAct(c0: Cell, s: System, e: Event, s': System, x: Extract) returns (act: Rebuild.Act)
    requires e.Save? && Occurs(s, e, s') && CellHolds(c0, s, s.phase.task.name)
    requires s.phase.task.job.Reindex? ==> s.phase.task.job.scan.x == x
    ensures var name := s.phase.task.name;
            && name in s.cells && name in s'.cells && ActOf(s.phase.task.job, s.cells[name].t, act)
            && Rebuild.Performs(x, act, StateOf(s, name), StateOf(s', name))
  {
    hide StoreEffect, Applied, SavedAs, Fold, ActOf, SameStore, Rebuild.Performs, Latest;
    var name := s.phase.task.name;
    act := JobIsAct(x, s.phase.task.job, Fold(c0, s.log, name).t, s.phase.copy, s.cells[name].t, s.phase.next, e.t);
  }

  lemma EffectTouches(job: Job, t: Tables.Tables)
    ensures StoreEffect(job, t).edges == t.edges && StoreEffect(job, t).metrics == t.metrics
  {
  }

  // What any run of the daemon does to an index is a history, step by step, whose acts are the
  // saves of its jobs.
  lemma {:induction false} ExecutionIsHistory(ss: seq<System>, i: nat, name: string, x: Extract)
    returns (acts: seq<Rebuild.Act>, states: seq<State>)
    requires Execution(ss) && i < |ss| && name in ss[0].cells && AllBy(ss, i, name, x)
    requires Rebuild.NothingStored(StateOf(ss[0], name))
    ensures name in ss[i].cells && ActsOfRun(ss, i, name, acts)
    ensures Rebuild.History(x, acts, states) && states[i] == StateOf(ss[i], name)
  {
    hide Next, CellHolds, RowsHold, StateOf, Rebuild.NothingStored, Rebuild.Performs, ActAt, Init;
    if i == 0 {
      acts, states := [], [StateOf(ss[0], name)];
    } else {
      var acts0, states0 := ExecutionIsHistory(ss, i - 1, name, x);
      RunHolds(ss, i - 1);
      assert Next(ss[i - 1], ss[i]);
      var act := StepIsAct(ss[0].cells[name], ss, i - 1, name, x);
      acts, states := acts0 + [act], states0 + [StateOf(ss[i], name)];
    }
  }

  // ---- the condition is one on the run ----

  // Two acts that the theorem on rebuilds cannot tell apart.
  ghost predicate Alike(a: Rebuild.Act, b: Rebuild.Act) {
    match a
    case Reads(run, force) =>
      b.Reads? && b.run.tree == run.tree && b.force == force && b.run.l.glossary == run.l.glossary
    case _ => b == a
  }

  ghost predicate AllAlike(acts: seq<Rebuild.Act>, acts': seq<Rebuild.Act>) {
    |acts'| == |acts| && forall k :: 0 <= k < |acts| ==> Alike(acts[k], acts'[k])
  }

  // All acts of one run are alike.
  lemma RunActsAlike(ss: seq<System>, i: nat, name: string, acts: seq<Rebuild.Act>, acts': seq<Rebuild.Act>)
    requires i < |ss| && ActsOfRun(ss, i, name, acts) && ActsOfRun(ss, i, name, acts')
    ensures AllAlike(acts, acts')
  {
    hide WorkingOn;
    forall k | 0 <= k < |acts| ensures Alike(acts[k], acts'[k]) {
      assert ActAt(ss, k, name, acts[k]) && ActAt(ss, k, name, acts'[k]);
    }
  }

  lemma AlikeHonest(acts: seq<Rebuild.Act>, acts': seq<Rebuild.Act>)
    requires AllAlike(acts, acts') && Rebuild.Honest(acts)
    ensures Rebuild.Honest(acts')
  {
    forall i, j, p | 0 <= i < |acts'| && 0 <= j < |acts'| && Rebuild.SeenTwice(acts'[i], acts'[j], p)
      ensures acts'[i].Reads? && acts'[j].Reads? && p in acts'[i].run.tree && p in acts'[j].run.tree
      ensures acts'[i].run.tree[p] == acts'[j].run.tree[p]
    {
      assert Alike(acts[i], acts'[i]) && Alike(acts[j], acts'[j]);
      assert Rebuild.SeenTwice(acts[i], acts[j], p);
    }
    forall i, j | 0 <= i < |acts'| && 0 <= j < |acts'|
      ensures !Rebuild.AddedAsZero(acts'[i], acts'[j])
    {
      assert Alike(acts[i], acts'[i]) && Alike(acts[j], acts'[j]);
      assert !Rebuild.AddedAsZero(acts[i], acts[j]);
    }
  }

  lemma AlikeGlossary(acts: seq<Rebuild.Act>, acts': seq<Rebuild.Act>, g: map<string, string>)
    requires AllAlike(acts, acts') && Rebuild.OneGlossary(acts, g)
    ensures Rebuild.OneGlossary(acts', g)
  {
    forall k | 0 <= k < |acts'| && acts'[k].Reads?
      ensures acts'[k].run.l.glossary == g
    {
      assert Alike(acts[k], acts'[k]);
    }
  }

  lemma AlikeLeftover(x: Extract, acts: seq<Rebuild.Act>, acts': seq<Rebuild.Act>, p: string)
    requires AllAlike(acts, acts') && Rebuild.Leftover(x, acts, p)
    ensures Rebuild.Leftover(x, acts', p)
  {
    hide Chunky, Pieces, Embedded;
    var i: nat :| Rebuild.LeftoverAt(x, acts, p, i);
    forall j | i <= j < |acts|
      ensures Rebuild.Yields(x, acts'[j], p) <==> Rebuild.Yields(x, acts[j], p)
      ensures Rebuild.Loses(acts'[j], p) <==> Rebuild.Loses(acts[j], p)
    {
      assert Alike(acts[j], acts'[j]);
    }
    assert Alike(acts[i], acts'[i]);
    assert Rebuild.LeftoverAt(x, acts', p, i);
  }

  lemma AlikeBack(acts: seq<Rebuild.Act>, acts': seq<Rebuild.Act>)
    requires AllAlike(acts, acts')
    ensures AllAlike(acts', acts)
  {
    forall k | 0 <= k < |acts| ensures Alike(acts'[k], acts[k]) {
      assert Alike(acts[k], acts'[k]);
    }
  }

  // So when the save of a reindex commits, in any run of the daemon that started with nothing
  // stored for the index, the entries of its files are those of a rebuild from scratch exactly
  // if the acts of this run leave no file entries of an earlier version while it yields no
  // chunk now.
  lemma DaemonIsRebuildIff(ss: seq<System>, i: nat, name: string, x: Extract, acts: seq<Rebuild.Act>,
                           rebuild: Run, clean: State, rebuilt: State)
    requires Execution(ss) && 0 < i < |ss| && name in ss[0].cells && name in ss[i].cells && AllBy(ss, i, name, x)
    requires Rebuild.NothingStored(StateOf(ss[0], name)) && ActsOfRun(ss, i, name, acts)
    requires Saves(ss, i - 1, name)
    requires ss[i - 1].phase.task.job.Reindex? && ss[i - 1].phase.task.job.scan.rooted
    requires Rebuild.NothingStored(clean) && Does(x, rebuild, true, clean, rebuilt)
    requires rebuild.tree == ss[i - 1].phase.task.job.scan.tree
    requires Rebuild.Honest(acts) && (Total(x) || Rebuild.OneGlossary(acts, rebuild.l.glossary))
    ensures Rebuild.SameMetas(StateOf(ss[i], name), rebuilt) <==> forall p: string :: !Rebuild.Leftover(x, acts, p)
  {
    hide Next, CellHolds, RowsHold, StateOf, Rebuild.NothingStored, Rebuild.Performs, Rebuild.Honest,
      Rebuild.SameMetas, Rebuild.Leftover, Rebuild.OneGlossary, Total, Does, AllBy, Init, AllAlike;
    var acts', states := ExecutionIsHistory(ss, i, name, x);
    RunActsAlike(ss, i, name, acts, acts');
    AlikeBack(acts, acts');
    AlikeHonest(acts, acts');
    if Rebuild.OneGlossary(acts, rebuild.l.glossary) {
      AlikeGlossary(acts, acts', rebuild.l.glossary);
    }
    forall p: string
      ensures Rebuild.Leftover(x, acts, p) <==> Rebuild.Leftover(x, acts', p)
    {
      if Rebuild.Leftover(x, acts, p) {
        AlikeLeftover(x, acts, acts', p);
      }
      if Rebuild.Leftover(x, acts', p) {
        AlikeLeftover(x, acts', acts, p);
      }
    }
    assert ActAt(ss, i - 1, name, acts'[i - 1]);
    Rebuild.IncrementalIsRebuildIff(x, acts', states, rebuild, clean, rebuilt);
  }

  lemma ByAt(ss: seq<System>, j: nat, name: string, x: Extract)
    requires j < |ss| && AllBy(ss, j, name, x)
    ensures WorkingOn(ss[j], name) && ss[j].phase.Operated? && ss[j].phase.task.job.Reindex? ==>
              ss[j].phase.task.job.scan.x == x
  {
  }

  // ---- the failures named above do arise ----

  // A removal that stores its change and then fails to save: a run of five states, at the end
  // of which an entry is published for a note that is not stored.
  lemma OrphanArises() returns (ss: seq<System>)
    ensures Execution(ss) && |ss| == 5 && "n" in ss[0].cells && "n" in ss[4].cells
    ensures Backed(Spec(Latest(ss[0].cells["n"].pubs), ss[0].cells["n"].t))
    ensures NoteEntries(Latest(ss[4].cells["n"].pubs), "t") != [] && "t" !in ss[4].cells["n"].t.notes
  {
    hide Tables.Aligned, Tables.WithIndex, Backed, NoteEntries, StoreEffect;
    var index := Index(1, F32, [Entry(Meta(Note, "t", "t", 0, 0, 0), [0])]);
    var bare := Tables.Tables(0, F32, map[], map[], map["t" := Tables.NoteRow("", 0, "")], map[], [], [], []);
    var t := Tables.WithIndex(bare, index);
    IndexSaveAligns(bare, index);
    StoreWrites(RmNote("t"), t, "t");
    OneNote(index, t);
    ss := RemovalThrows(index, t);
  }

  lemma RemovalThrows(index: Index, t: Tables.Tables) returns (ss: seq<System>)
    requires Tables.Aligned(t, Metas(index.entries)) && "t" in t.notes
    ensures Execution(ss) && |ss| == 5
    ensures ss[0].cells == map["n" := Cell(t, [index])]
    ensures ss[4].cells == map["n" := Cell(StoreEffect(RmNote("t"), t), [index])]
  {
    hide Next, Tables.Aligned, StoreEffect;
    var c := Cell(t, [index]);
    var s0 := System(map["n" := c], [], Idle, [], 0);
    var s1, s2 := Accepted(s0, "n", RmNote("t"));
    var s3, s4 := FailsToSave(s2, index);
    ss := [s0, s1, s2, s3, s4];
  }

  // A job submitted while nothing else is under way is taken at once.
  lemma Accepted(s: System, name: string, job: Job) returns (s1: System, s2: System)
    requires s.phase.Idle? && s.queue == [] && name in s.cells
    ensures Next(s, s1) && Next(s1, s2)
    ensures s2 == s.(tickets := s.tickets + 1,
                     phase := Copied(Task(s.tickets, name, job), Latest(s.cells[name].pubs)))
  {
    hide Occurs;
    var task := Task(s.tickets, name, job);
    s1 := s.(queue := s.queue + [task], tickets := s.tickets + 1);
    s2 := s1.(queue := [], phase := Copied(task, Latest(s.cells[name].pubs)));
    SubmitOccurs(s, name, job);
    TakeOccurs(s1);
  }

  lemma SubmitOccurs(s: System, name: string, job: Job)
    requires name in s.cells
    ensures Occurs(s, Submit(name, job),
        s.(queue := s.queue + [Task(s.tickets, name, job)], tickets := s.tickets + 1))
  {
    hide StoreEffect, Applied, SavedAs, SameRequest, Fits;
  }

  lemma TakeOccurs(s: System)
    requires s.phase.Idle? && |s.queue| == 1 && s.queue[0].name in s.cells
    ensures Occurs(s, Take,
        s.(queue := [], phase := Copied(s.queue[0], Latest(s.cells[s.queue[0].name].pubs))))
  {
    hide StoreEffect, Applied, SavedAs, SameRequest, Fits, Latest;
    assert s.queue[1..] == [];
  }

  // A removal that has stored its change and then cannot save.
  lemma FailsToSave(s: System, index: Index) returns (s1: System, s2: System)
    requires s.phase.Copied? && s.phase.copy == index && s.phase.task.name in s.cells && s.phase.task.job.RmNote?
    requires s.phase.task.job.topic in s.cells[s.phase.task.name].t.notes
    ensures Next(s, s1) && Next(s1, s2)
    ensures var task, t := s.phase.task, s.cells[s.phase.task.name].t;
            s2 == s.(cells := SetTables(s, task.name, StoreEffect(task.job, t)), phase := Idle,
                     log := s.log + [Done(task, Threw(true))])
  {
    hide StoreEffect, SavedAs, Filter;
    var task, t := s.phase.task, s.cells[s.phase.task.name].t;
    var next := index.(entries := Filter(Others(Note, task.job.topic), index.entries));
    s1 := s.(cells := SetTables(s, task.name, StoreEffect(task.job, t)), phase := Operated(task, index, next));
    s2 := s1.(phase := Idle, log := s.log + [Done(task, Threw(true))]);
    assert s.phase.task.(job := task.job) == task;
    assert Occurs(s, Operate(task.job), s1);
    assert Occurs(s1, Throw(task.job, true), s2);
  }

  lemma OneNote(index: Index, t: Tables.Tables)
    requires |index.entries| == 1 && index.entries[0].meta.proto == Note && index.entries[0].meta.path == "t"
    requires "t" in t.notes
    ensures Backed(Spec(index, t)) && NoteEntries(index, "t") != []
  {
    forall topic: string
      ensures NoteEntries(index, topic) == if topic == "t" then index.entries else []
    {
      assert index.entries == [index.entries[0]];
      FilterOne(EntriesOf(Note, topic), index.entries[0]);
    }
  }

  // ---- any job can run ----

  lemma AddRuns(job: Job, t: Tables.Tables, index: Index) returns (next: Index, t': Tables.Tables)
    requires job.AddNote? && job.vec != []
    ensures Ran(job, t, index, t', Ok(next))
  {
    hide StoreEffect, Replaced, Backend.Reattached, Tables.WithEntries;
    next := Applied(job, t, index).index;
    var rows := Backend.ReattachExists(StoreEffect(job, t).entries, Metas(next.entries));
    t' := Tables.WithEntries(StoreEffect(job, t), next.dim, next.precision, rows);
  }

  lemma ReindexRuns(x: Extract, tree: Tree, force: bool, t: Tables.Tables, index: Index)
    returns (scan: Scan, next: Index, t': Tables.Tables)
    ensures scan.x == x && scan.tree == tree && scan.force == force && scan.rooted
    ensures Fits(Reindex(scan), t) && Ran(Reindex(scan), t, index, t', Ok(next))
  {
    hide NewEntries, ChangedBy, Filter, Concat, PushedAll, Erased, Backend.Written, Backend.Walks, Tables.MemOf,
      Tables.IndexOf, SameGroups, Mapped, Group, Enumerates;
    var run, s' := Rebuild.RunExists(x, tree, force, State(index.entries, t));
    next, t' := run.data.index, s'.t;
    scan := Scan(x, tree, run.r, force, true, next.dim, next.precision);
    assert Reindexed(scan, index, t, next, t');
  }

  lemma {:induction false} ReachedByRun(s: System, s': System) returns (ss: seq<System>)
    requires Init(s) && Reaches(s, s')
    ensures Execution(ss) && ss[0] == s && ss[|ss| - 1] == s'
  {
    hide Next, Init;
    ss :| ss != [] && ss[0] == s && ss[|ss| - 1] == s' && forall i :: 0 < i < |ss| ==> Next(ss[i - 1], ss[i]);
  }

  lemma ReachesOn(s: System, s1: System, s2: System)
    requires Reaches(s, s1) && Reaches(s1, s2)
    ensures Reaches(s, s2)
  {
    hide Next;
    var a: seq<System> :| a != [] && a[0] == s && a[|a| - 1] == s1 && forall i :: 0 < i < |a| ==> Next(a[i - 1], a[i]);
    var b: seq<System> :| b != [] && b[0] == s1 && b[|b| - 1] == s2 && forall i :: 0 < i < |b| ==> Next(b[i - 1], b[i]);
    var c := a + b[1..];
    assert c[0] == s && c[|c| - 1] == s2;
    forall i | 0 < i < |c|
      ensures Next(c[i - 1], c[i])
    {
      if i < |a| {
        assert Next(a[i - 1], a[i]);
      } else {
        assert c[i] == b[i - |a| + 1] && c[i - 1] == b[i - |a|];
      }
    }
  }

  // A job submitted to an idle daemon, from its submission to its publication.
  lemma WholeJob(s: System, name: string, job: Job, next: Index, t': Tables.Tables) returns (s': System)
    requires s.phase.Idle? && s.queue == [] && name in s.cells
    requires SameRequest(job, job) && Fits(job, s.cells[name].t)
    requires Ran(job, s.cells[name].t, Latest(s.cells[name].pubs), t', Ok(next))
    ensures Reaches(s, s') && s'.phase.Idle? && s'.queue == []
    ensures s'.cells == s.cells[name := Cell(t', s.cells[name].pubs + [next])]
    ensures s'.log == s.log + [Done(Task(s.tickets, name, job), Published)]
  {
    hide Next, SameRequest, Fits, Ran, Latest;
    var s1, s2 := Accepted(s, name, job);
    ReachesInOne(s, s1);
    ReachesInOne(s1, s2);
    ReachesOn(s, s1, s2);
    s' := JobIsSteps(s2, job, t', Ok(next));
    ReachesOn(s, s2, s');
  }

  // A forced reindex with an embedding model that fails drops the entry of a note just added:
  // a run at whose end the note is stored and no entry published.
  lemma ReindexMayDrop(t: Tables.Tables, topic: string) returns (ss: seq<System>, last: System)
    ensures Execution(ss) && ss[0].cells == map["n" := Cell(t, [])] && ss[|ss| - 1] == last && "n" in last.cells
    ensures |last.log| == 2 && last.log[0].ending == last.log[1].ending == Published
    ensures last.log[0].task.job.AddNote? && last.log[0].task.job.topic == topic && last.log[1].task.job.Reindex?
    ensures topic in last.cells["n"].t.notes && NoteEntries(Latest(last.cells["n"].pubs), topic) == []
  {
    hide Ran, NoteEntries, Fits, Plain, Reaches, Execution, Applied, StoreEffect;
    var s := System(map["n" := Cell(t, [])], [], Idle, [], 0);
    var add := AddNote(topic, MemEntry("", [], 0), 0, [0], 1);
    var next, t1 := AddRuns(add, t, Latest([]));
    AddFits(add, t);
    var s1 := WholeJob(s, "n", add, next, t1);
    var scan, next', t2 := ReindexRuns(Plain([]), map[], true, t1, next);
    var s2 := WholeJob(s1, "n", Reindex(scan), next', t2);
    ReachesOn(s, s1, s2);
    ss := ReachedByRun(s, s2);
    last := s2;
    RanStores(add, t, Latest([]), t1, next);
    RanStores(Reindex(scan), t1, next, t2, next');
    StoreWrites(add, t, topic);
    StoreWrites(Reindex(scan), t1, topic);
    DropsAll(scan, t1, next, topic, next');
  }

  lemma AddFits(job: Job, t: Tables.Tables)
    requires job.AddNote?
    ensures Fits(job, t)
  {
  }

  lemma RanStores(job: Job, t: Tables.Tables, index: Index, t': Tables.Tables, next: Index)
    requires Ran(job, t, index, t', Ok(next))
    ensures SameStore(StoreEffect(job, t), t') && Applied(job, t, index) == Operations.Changed(next)
  {
    hide StoreEffect, Applied, SavedAs;
    SaveAligns(job, index, StoreEffect(job, t), next, t');
  }

  lemma DropsAll(scan: Scan, t: Tables.Tables, index: Index, topic: string, next: Index)
    requires scan.x == Plain([]) && scan.force && scan.rooted && Fits(Reindex(scan), t) && topic in t.notes
    requires Applied(Reindex(scan), t, index) == Operations.Changed(next)
    ensures NoteEntries(next, topic) == []
  {
    hide NewEntries, Fits, NoteEntries, LastHashes, Tables.MemOf;
    ReindexMatchesNotes(Reindex(scan), t, index, topic);
  }
}
