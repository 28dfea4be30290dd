// The daemon's threads: their queues, the registry of connection handlers, and the order
// in which shutdown waits for them.

module Threads {

  datatype Next<T> = Item(item: T) | Wait | Leave

  // The queue of a worker thread: the writer's and the embedder's are both of this kind.
  class WorkQueue<T> {
    var queue: seq<T>
    var stop: bool

    constructor ()
      ensures queue == [] && !stop
    {
      queue, stop := [], false;
    }

    // submit: enqueue and return.
    method Push(item: T)
      modifies this`queue
      ensures queue == old(queue) + [item]
    {
      queue := queue + [item];
    }

    // The destructor's first step.
    method RequestStop()
      modifies this`stop
      ensures stop
    {
      stop := true;
    }

    // The worker's critical section: the oldest item, or wait for one; it leaves only when
    // told to stop and nothing is queued, so stopping drains the queue first.
    method TakeNext() returns (r: Next<T>)
      modifies this`queue
      ensures old(queue) == [] ==> queue == [] && r == (if stop then Leave else Wait)
      ensures old(queue) != [] ==> r == Item(old(queue)[0]) && queue == old(queue)[1..]
    {
      if stop && queue == [] {
        r := Leave;
      } else if queue == [] {
        r := Wait;
      } else {
        r := Item(queue[0]);
        queue := queue[1..];
      }
    }
  }

  // The registry of connection handlers.  Only the accept thread joins.
  class HandlerRegistry {
    var handlers: map<nat, bool> // by id: has the thread set its done flag?
    var nextId: nat
    ghost var joined: seq<nat>

    // Every id given out is either still registered or was joined, once.
    ghost predicate Valid()
      reads this
    {
      && nextId >= 1
      && (forall i, j :: 0 <= i < j < |joined| ==> joined[i] != joined[j])
      && (forall id :: id in joined ==> id !in handlers)
      && (forall id: nat :: 1 <= id < nextId <==> id in joined || id in handlers)
    }

    constructor ()
      ensures Valid() && handlers == map[] && joined == []
    {
      handlers, nextId, joined := map[], 1, [];
    }

    method Spawn() returns (id: nat)
      requires Valid()
      modifies this
      ensures Valid() && id == old(nextId) && id !in old(handlers)
      ensures handlers == old(handlers)[id := false] && joined == old(joined) && nextId == id + 1
    {
      id := nextId;
      assert nextId !in joined && nextId !in handlers;
      nextId := nextId + 1;
      handlers := handlers[id := false];
    }

    // Joins exactly the finished ones, in the order of their ids.
    method Reap()
      requires Valid()
      modifies this
      ensures Valid() && nextId == old(nextId)
      ensures handlers == Unfinished(old(handlers))
      ensures joined == old(joined) + Finished(old(handlers), nextId)
    {
      for id := 0 to nextId
        invariant Valid() && nextId == old(nextId)
        invariant handlers == map k | k in old(handlers) && (k >= id || !old(handlers)[k]) :: old(handlers)[k]
        invariant joined == old(joined) + Finished(old(handlers), id)
      {
        if id in handlers && handlers[id] {
          handlers := handlers - {id};
          joined := joined + [id];
        }
      }
    }

    // Joins all that are left.
    method ShutdownAll()
      requires Valid()
      modifies this
      ensures Valid() && handlers == map[] && nextId == old(nextId)
      ensures joined == old(joined) + Registered(old(handlers), nextId)
      ensures forall id: nat :: 1 <= id < nextId <==> id in joined
    {
      for id := 0 to nextId
        invariant Valid() && nextId == old(nextId)
        invariant handlers == map k | k in old(handlers) && k >= id :: old(handlers)[k]
        invariant joined == old(joined) + Registered(old(handlers), id)
      {
        if id in handlers {
          handlers := handlers - {id};
          joined := joined + [id];
        }
      }
    }
  }

  ghost function Unfinished(handlers: map<nat, bool>): map<nat, bool> {
    map id | id in handlers && !handlers[id] :: false
  }

  // The finished handlers with ids below n, and all of them, in order.
  ghost function Finished(handlers: map<nat, bool>, n: nat): seq<nat> {
    if n == 0 then [] else Finished(handlers, n - 1) + if n - 1 in handlers && handlers[n - 1] then [n - 1] else []
  }

  ghost function Registered(handlers: map<nat, bool>, n: nat): seq<nat> {
    if n == 0 then [] else Registered(handlers, n - 1) + if n - 1 in handlers then [n - 1] else []
  }
}

// Every thread of the daemon as a state machine, from the shutdown flag to the end.
module Shutdown {

  // What a request makes a handler do: embed a text and wait, submit a job, or submit one and
  // wait for it.  A job makes some number of blocking embed calls.
  datatype Action = Embed | Submit(embeds: nat) | SubmitWait(embeds: nat)

  datatype HandlerPc = Reading | Busy(todo: seq<Action>) | OnEmbed(todo: seq<Action>) | OnJob(todo: seq<Action>)
      | Exited

  datatype Handler = Handler(pc: HandlerPc, shut: bool, joined: bool)

  // A queued job, with the handler waiting for it, if any.
  datatype Task = Task(ticket: nat, embeds: nat, waiter: int)

  datatype WriterPc = WIdle | WRun(task: Task, left: nat) | WEmbed(task: Task, left: nat) | WExited

  datatype EmbedPc = EIdle | EWork(who: int) | EExited

  datatype WatchPc = Loop | Scan | Stopped

  datatype MainPc = Check | Select | Tcp | StopWatch | JoinWatch | Shut | Joining(k: nat) | StopQueue | JoinWriter
      | StopEmbed | JoinEmbed | Final

  datatype State = State(
    flag: bool, main: MainPc,
    watching: bool, watcher: WatchPc,
    hs: seq<Handler>, joins: seq<nat>,
    wq: seq<Task>, wstop: bool, writer: WriterPc, submitted: nat, executed: seq<nat>,
    eq: seq<int>, estop: bool, embed: EmbedPc)

  // The writer's place in the embed queue; handlers are known by their index.
  const WRITER: int := -1

  const NOBODY: int := -1

  datatype Event =
    | SetFlag
    | MainStep(accept: bool)
    | Reap(id: nat)
    | WatchCheck | WatchScan(jobs: seq<nat>)
    | Read(id: nat, todo: seq<Action>) | Eof(id: nat) | Act(id: nat) | Fail(id: nat) | Done(id: nat)
    | WriterTake | WriterEmbed | WriterFinish | WriterExit
    | EmbedTake | EmbedDone | EmbedExit

  ghost function At(s: State, id: nat, pc: HandlerPc): State
    requires id < |s.hs|
  {
    s.(hs := s.hs[id := s.hs[id].(pc := pc)])
  }

  ghost function Enqueue(s: State, embeds: nat, waiter: int): State {
    s.(wq := s.wq + [Task(s.submitted, embeds, waiter)], submitted := s.submitted + 1)
  }

  ghost function EnqueueAll(s: State, jobs: seq<nat>): State
    decreases |jobs|
  {
    if jobs == [] then s else EnqueueAll(Enqueue(s, jobs[0], NOBODY), jobs[1..])
  }

  ghost function Join(s: State, id: nat): State
    requires id < |s.hs|
  {
    if s.hs[id].joined then s
    else s.(hs := s.hs[id := s.hs[id].(joined := true)], joins := s.joins + [id])
  }

  ghost function ShutAll(hs: seq<Handler>): seq<Handler> {
    seq(|hs|, i requires 0 <= i < |hs| => hs[i].(shut := true))
  }

  ghost function Accepted(s: State): State {
    s.(hs := s.hs + [Handler(Reading, false, false)])
  }

  // The accept loop, then each wait of the shutdown, in order.
  ghost predicate MainMoves(s: State, accept: bool, s': State) {
    match s.main
    case Check => s' == s.(main := if s.flag then StopWatch else Select)
    case Select => s' == (if accept then Accepted(s) else s).(main := Tcp)
    case Tcp => s' == (if accept then Accepted(s) else s).(main := Check)
    case StopWatch => s' == s.(watching := false, main := JoinWatch)
    case JoinWatch => s.watcher.Stopped? && s' == s.(main := Shut)
    case Shut => s' == s.(hs := ShutAll(s.hs), main := Joining(0))
    case Joining(k) =>
      if k < |s.hs| then s.hs[k].pc.Exited? && s' == Join(s, k).(main := Joining(k + 1))
      else s' == s.(main := StopQueue)
    case StopQueue => s' == s.(wstop := true, main := JoinWriter)
    case JoinWriter => s.writer.WExited? && s' == s.(main := StopEmbed)
    case StopEmbed => s' == s.(estop := true, main := JoinEmbed)
    case JoinEmbed => s.embed.EExited? && s' == s.(main := Final)
    case Final => false
  }

  // A handler's next action.
  ghost predicate Acts(s: State, id: nat, s': State)
    requires id < |s.hs| && s.hs[id].pc.Busy? && s.hs[id].pc.todo != []
  {
    var todo := s.hs[id].pc.todo;
    match todo[0]
    case Embed => s' == At(s, id, OnEmbed(todo[1..])).(eq := s.eq + [id])
    case Submit(n) => s' == Enqueue(At(s, id, Busy(todo[1..])), n, NOBODY)
    case SubmitWait(n) => s' == Enqueue(At(s, id, OnJob(todo[1..])), n, id)
  }

  // The end of a job: the waiting handler resumes.
  ghost function Resume(s: State, waiter: int): State {
    if 0 <= waiter < |s.hs| && s.hs[waiter].pc.OnJob? then At(s, waiter, Busy(s.hs[waiter].pc.todo)) else s
  }

  // The end of an embed call: whoever made it resumes.
  ghost function Answer(s: State, who: int): State {
    if who == WRITER && s.writer.WEmbed? then s.(writer := WRun(s.writer.task, s.writer.left))
    else if 0 <= who < |s.hs| && s.hs[who].pc.OnEmbed? then At(s, who, Busy(s.hs[who].pc.todo))
    else s
  }

  ghost predicate Occurs(s: State, e: Event, s': State) {
    match e
    case SetFlag => !s.flag && s' == s.(flag := true)
    case MainStep(accept) => MainMoves(s, accept, s')
    case Reap(id) => s.main.Select? && id < |s.hs| && s.hs[id].pc.Exited? && !s.hs[id].joined && s' == Join(s, id)
    case WatchCheck => s.watcher.Loop? && s' == s.(watcher := if s.watching then Scan else Stopped)
    case WatchScan(jobs) => s.watcher.Scan? && s' == EnqueueAll(s, jobs).(watcher := Loop)
    case Read(id, todo) => id < |s.hs| && s.hs[id].pc.Reading? && s' == At(s, id, Busy(todo))
    case Eof(id) => id < |s.hs| && s.hs[id].pc.Reading? && s' == At(s, id, Exited)
    case Act(id) => id < |s.hs| && s.hs[id].pc.Busy? && s.hs[id].pc.todo != [] && Acts(s, id, s')
    case Fail(id) => id < |s.hs| && s.hs[id].pc.Busy? && s.hs[id].pc.todo != [] && s' == At(s, id, Busy([]))
    case Done(id) => id < |s.hs| && s.hs[id].pc == Busy([]) && s' == At(s, id, if s.flag then Exited else Reading)
    case WriterTake => s.writer.WIdle? && s.wq != [] &&
        s' == s.(writer := WRun(s.wq[0], s.wq[0].embeds), wq := s.wq[1..])
    case WriterEmbed =>
      s.writer.WRun? && s.writer.left > 0 &&
          s' == s.(writer := WEmbed(s.writer.task, s.writer.left - 1), eq := s.eq + [WRITER])
    case WriterFinish =>
      s.writer.WRun? &&
      s' == Resume(s, s.writer.task.waiter).(writer := WIdle, executed := s.executed + [s.writer.task.ticket])
    case WriterExit => s.writer.WIdle? && s.wstop && s.wq == [] && s' == s.(writer := WExited)
    case EmbedTake => s.embed.EIdle? && s.eq != [] && s' == s.(embed := EWork(s.eq[0]), eq := s.eq[1..])
    case EmbedDone => s.embed.EWork? && s' == Answer(s, s.embed.who).(embed := EIdle)
    case EmbedExit => s.embed.EIdle? && s.estop && s.eq == [] && s' == s.(embed := EExited)
  }

  ghost predicate Init(s: State) {
    s == State(false, Check, s.watching, if s.watching then Loop else Stopped,
               [], [], [], false, WIdle, 0, [], [], false, EIdle)
  }

  ghost predicate Next(s: State, s': State) {
    exists e :: Occurs(s, e, s')
  }

  ghost predicate Execution(ss: seq<State>) {
    ss != [] && Init(ss[0]) && forall i :: 0 < i < |ss| ==> Next(ss[i - 1], ss[i])
  }

  // ---- who waits for whom ----

  // Embed calls not answered yet: the one being worked on, then those queued.
  ghost function CallsOf(embed: EmbedPc, queue: seq<int>): seq<int> {
    (if embed.EWork? then [embed.who] else []) + queue
  }

  ghost function Calls(s: State): seq<int> {
    CallsOf(s.embed, s.eq)
  }

  // Jobs not finished yet: the one being run, then those queued.
  ghost function JobsOf(writer: WriterPc, queue: seq<Task>): seq<Task> {
    (if writer.WRun? || writer.WEmbed? then [writer.task] else []) + queue
  }

  ghost function Jobs(s: State): seq<Task> {
    JobsOf(s.writer, s.wq)
  }

  // Every thread blocked in an embed call has one call outstanding, and nobody else has any.
  ghost predicate CallsHold(s: State) {
    && (forall i, j :: 0 <= i < j < |Calls(s)| ==> Calls(s)[i] != Calls(s)[j])
    && (forall i :: 0 <= i < |Calls(s)| ==> -1 <= Calls(s)[i] < |s.hs|)
    && (forall id :: 0 <= id < |s.hs| ==> (s.hs[id].pc.OnEmbed? <==> id in Calls(s)))
    && (WRITER in Calls(s) <==> s.writer.WEmbed?)
  }

  // Every handler blocked on a job has one unfinished job, and no job is waited for otherwise.
  ghost predicate JobsHold(s: State) {
    && (forall i, j :: 0 <= i < j < |Jobs(s)| && Jobs(s)[i].waiter >= 0 ==> Jobs(s)[i].waiter != Jobs(s)[j].waiter)
    && (forall i :: 0 <= i < |Jobs(s)| ==> -1 <= Jobs(s)[i].waiter < |s.hs|)
    && (forall id :: 0 <= id < |s.hs| ==> (s.hs[id].pc.OnJob? <==> Awaited(Jobs(s), id)))
  }

  ghost predicate Awaited(jobs: seq<Task>, id: int) {
    exists i :: 0 <= i < |jobs| && jobs[i].waiter == id
  }

  lemma PostKeepsCalls(s: State, who: int, s': State)
    requires CallsHold(s) && who !in Calls(s) && -1 <= who < |s.hs|
    requires |s'.hs| == |s.hs| && Calls(s') == Calls(s) + [who]
    requires forall id :: 0 <= id < |s.hs| && id != who ==> (s'.hs[id].pc.OnEmbed? <==> s.hs[id].pc.OnEmbed?)
    requires who >= 0 ==> s'.hs[who].pc.OnEmbed?
    requires s'.writer.WEmbed? <==> s.writer.WEmbed? || who == WRITER
    ensures CallsHold(s')
  {
    hide Calls;
  }

  lemma AnswerKeepsCalls(s: State, s': State)
    requires CallsHold(s) && Calls(s) != [] && |s'.hs| == |s.hs| && Calls(s') == Calls(s)[1..]
    requires forall id :: 0 <= id < |s.hs| && id != Calls(s)[0] ==> (s'.hs[id].pc.OnEmbed? <==> s.hs[id].pc.OnEmbed?)
    requires Calls(s)[0] >= 0 ==> !s'.hs[Calls(s)[0]].pc.OnEmbed?
    requires s'.writer.WEmbed? <==> s.writer.WEmbed? && Calls(s)[0] != WRITER
    ensures CallsHold(s')
  {
    hide Calls;
    assert Calls(s) == [Calls(s)[0]] + Calls(s)[1..];
    assert forall w :: w in Calls(s') <==> w in Calls(s) && w != Calls(s)[0];
  }

  lemma SameKeepsCalls(s: State, s': State)
    requires CallsHold(s) && |s'.hs| >= |s.hs| && Calls(s') == Calls(s)
    requires forall id :: 0 <= id < |s.hs| ==> (s'.hs[id].pc.OnEmbed? <==> s.hs[id].pc.OnEmbed?)
    requires forall id :: |s.hs| <= id < |s'.hs| ==> !s'.hs[id].pc.OnEmbed?
    requires s'.writer.WEmbed? <==> s.writer.WEmbed?
    ensures CallsHold(s')
  {
    hide Calls;
    forall id | |s.hs| <= id < |s'.hs| ensures id !in Calls(s') {
    }
  }

  // Only the queue of jobs grows.
  lemma {:induction false} EnqueueAllAdds(s: State, jobs: seq<nat>)
    ensures var s' := EnqueueAll(s, jobs);
            && s' == s.(wq := s'.wq, submitted := s'.submitted)
            && |s'.wq| == |s.wq| + |jobs| && s'.wq[..|s.wq|] == s.wq && s'.submitted == s.submitted + |jobs|
            && forall i :: 0 <= i < |jobs| ==> s'.wq[|s.wq| + i] == Task(s.submitted + i, jobs[i], NOBODY)
    decreases |jobs|
  {
    if jobs != [] {
      var s1 := Enqueue(s, jobs[0], NOBODY);
      EnqueueAllAdds(s1, jobs[1..]);
      var s' := EnqueueAll(s, jobs);
      assert s'.wq[..|s.wq|] == s'.wq[..|s1.wq|][..|s.wq|] == s.wq;
      assert s'.wq[|s.wq|] == s'.wq[..|s1.wq|][|s.wq|];
    }
  }

  lemma CallStepKeepsCalls(s: State, id: nat, todo: seq<Action>, s': State)
    requires id < |s.hs| && s.hs[id].pc.Busy? && CallsHold(s)
    requires s' == At(s, id, OnEmbed(todo)).(eq := s.eq + [id])
    ensures CallsHold(s')
  {
    hide CallsHold;
    NotCalling(s, id);
    assert Calls(s') == Calls(s) + [id];
    PostKeepsCalls(s, id, s');
  }

  lemma ActKeepsCalls(s: State, id: nat, s': State)
    requires id < |s.hs| && s.hs[id].pc.Busy? && s.hs[id].pc.todo != [] && Acts(s, id, s') && CallsHold(s)
    ensures CallsHold(s')
  {
    hide CallsHold, CallsOf;
    if s.hs[id].pc.todo[0].Embed? {
      CallStepKeepsCalls(s, id, s.hs[id].pc.todo[1..], s');
    } else {
      SameKeepsCalls(s, s');
    }
  }

  lemma AnswerStepKeepsCalls(s: State, s': State)
    requires Occurs(s, EmbedDone, s') && CallsHold(s)
    ensures CallsHold(s')
  {
    hide CallsHold, MainMoves, EnqueueAll, Acts, Resume, Join;
    assert Calls(s') == Calls(s)[1..];
    assert s.embed.who in Calls(s);
    Calling(s, s.embed.who);
    AnswerKeepsCalls(s, s');
  }

  // Same handlers at the same points, perhaps with new ones that have read nothing yet.
  ghost predicate SamePcs(a: seq<Handler>, b: seq<Handler>) {
    && |b| >= |a|
    && (forall id :: 0 <= id < |a| ==> b[id].pc == a[id].pc)
    && (forall id :: |a| <= id < |b| ==> b[id].pc.Reading?)
  }

  lemma SamePcsThemselves(hs: seq<Handler>)
    ensures SamePcs(hs, hs)
  {
  }

  lemma ShutPcs(hs: seq<Handler>)
    ensures SamePcs(hs, ShutAll(hs))
  {
  }

  lemma AcceptedPcs(s: State)
    ensures Accepted(s) == s.(hs := Accepted(s).hs) && SamePcs(s.hs, Accepted(s).hs)
  {
  }

  lemma JoinPcs(s: State, id: nat)
    requires id < |s.hs|
    ensures Join(s, id) == s.(hs := Join(s, id).hs, joins := Join(s, id).joins) && SamePcs(s.hs, Join(s, id).hs)
  {
  }

  // What the main thread and the reaper leave to the other threads.
  ghost predicate OthersAlone(s: State, s': State) {
    && SamePcs(s.hs, s'.hs) && s'.writer == s.writer && s'.wq == s.wq && s'.embed == s.embed && s'.eq == s.eq
    && s'.submitted == s.submitted && s'.executed == s.executed
  }

  lemma AcceptMovesNoOne(s: State, accept: bool, s': State)
    requires MainMoves(s, accept, s') && (s.main.Check? || s.main.Select? || s.main.Tcp?)
    ensures OthersAlone(s, s')
  {
    hide Accepted, Join, ShutAll, SamePcs;
    SamePcsThemselves(s.hs);
    AcceptedPcs(s);
  }

  lemma JoinMovesNoOne(s: State, accept: bool, s': State)
    requires MainMoves(s, accept, s') && s.main.Joining?
    ensures OthersAlone(s, s')
  {
    hide Accepted, Join, ShutAll, SamePcs;
    SamePcsThemselves(s.hs);
    if s.main.k < |s.hs| {
      JoinPcs(s, s.main.k);
    }
  }

  lemma MainMovesNoOne(s: State, accept: bool, s': State)
    requires MainMoves(s, accept, s')
    ensures OthersAlone(s, s')
  {
    hide Accepted, Join, ShutAll, SamePcs;
    SamePcsThemselves(s.hs);
    ShutPcs(s.hs);
    if s.main.Check? || s.main.Select? || s.main.Tcp? {
      AcceptMovesNoOne(s, accept, s');
    } else if s.main.Joining? {
      JoinMovesNoOne(s, accept, s');
    }
  }

  lemma MainKeepsCalls(s: State, accept: bool, s': State)
    requires MainMoves(s, accept, s') && CallsHold(s)
    ensures CallsHold(s')
  {
    hide CallsHold, MainMoves, CallsOf;
    MainMovesNoOne(s, accept, s');
    SameKeepsCalls(s, s');
  }

  lemma WriterKeepsCalls(s: State, s': State)
    requires CallsHold(s) && s.writer.WRun? && s.writer.left > 0
    requires s' == s.(writer := WEmbed(s.writer.task, s.writer.left - 1), eq := s.eq + [WRITER])
    ensures CallsHold(s')
  {
    hide CallsHold;
    NotCalling(s, WRITER);
    assert Calls(s') == Calls(s) + [WRITER];
    PostKeepsCalls(s, WRITER, s');
  }

  lemma IdleCalls(queue: seq<int>)
    ensures CallsOf(EIdle, queue) == CallsOf(EExited, queue)
  {
  }

  // A handler moves elsewhere than into or out of an embed call.
  lemma AtKeepsCalls(s: State, id: nat, pc: HandlerPc)
    requires CallsHold(s) && id < |s.hs| && !s.hs[id].pc.OnEmbed? && !pc.OnEmbed?
    ensures CallsHold(At(s, id, pc))
  {
    hide CallsHold, CallsOf;
    SameKeepsCalls(s, At(s, id, pc));
  }

  lemma SameThreadsKeepCalls(s: State, s': State)
    requires CallsHold(s) && s'.hs == s.hs && Calls(s') == Calls(s) && (s'.writer.WEmbed? <==> s.writer.WEmbed?)
    ensures CallsHold(s')
  {
    hide CallsHold, CallsOf;
    SameKeepsCalls(s, s');
  }

  lemma TakenCall(queue: seq<int>)
    requires queue != []
    ensures CallsOf(EWork(queue[0]), queue[1..]) == CallsOf(EIdle, queue)
  {
  }

  lemma StepKeepsCalls(s: State, e: Event, s': State)
    requires Occurs(s, e, s') && CallsHold(s)
    ensures CallsHold(s')
  {
    hide EnqueueAll, CallsHold, CallsOf, MainMoves, Acts, Answer, Resume, Join, ShutAll, At;
    match e
    case MainStep(accept) => MainKeepsCalls(s, accept, s');
    case WatchScan(jobs) => EnqueueAllAdds(s, jobs); SameThreadsKeepCalls(s, s');
    case Act(id) => ActKeepsCalls(s, id, s');
    case Read(id, todo) => AtKeepsCalls(s, id, Busy(todo));
    case Eof(id) => AtKeepsCalls(s, id, Exited);
    case Fail(id) => AtKeepsCalls(s, id, Busy([]));
    case Done(id) => AtKeepsCalls(s, id, if s.flag then Exited else Reading);
    case WriterEmbed => WriterKeepsCalls(s, s');
    case WriterFinish => FinishKeepsCalls(s, s');
    case EmbedTake => TakenCall(s.eq); SameThreadsKeepCalls(s, s');
    case EmbedDone => AnswerStepKeepsCalls(s, s');
    case EmbedExit => IdleCalls(s.eq); SameThreadsKeepCalls(s, s');
    case Reap(id) => JoinPcs(s, id); SameKeepsCalls(s, s');
    case _ => SameThreadsKeepCalls(s, s');
  }

  lemma FinishKeepsCalls(s: State, s': State)
    requires Occurs(s, WriterFinish, s') && CallsHold(s)
    ensures CallsHold(s')
  {
    hide CallsHold, CallsOf, MainMoves, EnqueueAll, Acts, Answer, Join;
    SameKeepsCalls(s, s');
  }

  lemma NotCalling(s: State, who: int)
    requires CallsHold(s) && -1 <= who < |s.hs|
    requires if who == WRITER then !s.writer.WEmbed? else !s.hs[who].pc.OnEmbed?
    ensures who !in Calls(s)
  {
    hide Calls;
  }

  lemma Calling(s: State, who: int)
    requires CallsHold(s) && who in Calls(s)
    ensures -1 <= who < |s.hs|
    ensures if who == WRITER then s.writer.WEmbed? else s.hs[who].pc.OnEmbed?
  {
    hide Calls;
  }

  // ---- jobs ----

  lemma SubmitKeepsJobs(s: State, waiter: int, task: Task, s': State)
    requires JobsHold(s) && task.waiter == waiter && -1 <= waiter < |s.hs|
    requires waiter >= 0 ==> !Awaited(Jobs(s), waiter)
    requires |s'.hs| == |s.hs| && Jobs(s') == Jobs(s) + [task]
    requires forall id :: 0 <= id < |s.hs| && id != waiter ==> (s'.hs[id].pc.OnJob? <==> s.hs[id].pc.OnJob?)
    requires waiter >= 0 ==> s'.hs[waiter].pc.OnJob?
    ensures JobsHold(s')
  {
    hide Jobs;
    var js, js' := Jobs(s), Jobs(s');
    forall id: int ensures Awaited(js', id) <==> Awaited(js, id) || id == waiter {
      if i :| 0 <= i < |js| && js[i].waiter == id {
        assert js'[i].waiter == id;
      }
      assert js'[|js|].waiter == waiter;
    }
  }

  lemma FinishKeepsJobs(s: State, s': State)
    requires JobsHold(s) && Jobs(s) != [] && |s'.hs| == |s.hs| && Jobs(s') == Jobs(s)[1..]
    requires forall id :: 0 <= id < |s.hs| && id != Jobs(s)[0].waiter ==> (s'.hs[id].pc.OnJob? <==> s.hs[id].pc.OnJob?)
    requires Jobs(s)[0].waiter >= 0 ==> !s'.hs[Jobs(s)[0].waiter].pc.OnJob?
    ensures JobsHold(s')
  {
    hide Jobs;
    var js, js' := Jobs(s), Jobs(s');
    forall id: int | id >= 0 ensures Awaited(js', id) <==> Awaited(js, id) && id != js[0].waiter {
      if i :| 0 <= i < |js| && js[i].waiter == id {
        if i > 0 {
          assert js'[i - 1].waiter == id;
        }
      }
      if i :| 0 <= i < |js'| && js'[i].waiter == id {
        assert js[i + 1].waiter == id;
      }
    }
  }

  lemma SameKeepsJobs(s: State, s': State)
    requires JobsHold(s) && |s'.hs| >= |s.hs| && Jobs(s') == Jobs(s)
    requires forall id :: 0 <= id < |s.hs| ==> (s'.hs[id].pc.OnJob? <==> s.hs[id].pc.OnJob?)
    requires forall id :: |s.hs| <= id < |s'.hs| ==> !s'.hs[id].pc.OnJob?
    ensures JobsHold(s')
  {
    hide Jobs;
    forall id | |s.hs| <= id < |s'.hs| ensures !Awaited(Jobs(s'), id) {
    }
  }

  lemma {:induction false} ScanKeepsJobs(s: State, jobs: seq<nat>)
    requires JobsHold(s)
    ensures JobsHold(EnqueueAll(s, jobs))
    decreases |jobs|
  {
    hide JobsHold;
    if jobs != [] {
      var s1 := Enqueue(s, jobs[0], NOBODY);
      assert Jobs(s1) == Jobs(s) + [Task(s.submitted, jobs[0], NOBODY)];
      SubmitKeepsJobs(s, NOBODY, Task(s.submitted, jobs[0], NOBODY), s1);
      ScanKeepsJobs(s1, jobs[1..]);
    }
  }

  lemma EnqueueAt(s: State, id: nat, pc: HandlerPc, n: nat, waiter: int)
    requires id < |s.hs|
    ensures Enqueue(At(s, id, pc), n, waiter) == Enqueue(s, n, waiter).(hs := At(s, id, pc).hs)
  {
  }

  lemma SubmitStepKeepsJobs(s: State, id: nat, n: nat, s': State)
    requires id < |s.hs| && s.hs[id].pc.Busy? && JobsHold(s)
    requires s' == Enqueue(s, n, NOBODY).(hs := s'.hs)
    requires |s'.hs| == |s.hs| && forall j :: 0 <= j < |s.hs| ==> (s'.hs[j].pc.OnJob? <==> s.hs[j].pc.OnJob?)
    ensures JobsHold(s')
  {
    hide JobsHold;
    assert Jobs(s') == Jobs(s) + [Task(s.submitted, n, NOBODY)];
    SubmitKeepsJobs(s, NOBODY, Task(s.submitted, n, NOBODY), s');
  }

  lemma WaitStepKeepsJobs(s: State, id: nat, todo: seq<Action>, n: nat, s': State)
    requires id < |s.hs| && s.hs[id].pc.Busy? && JobsHold(s)
    requires s' == Enqueue(At(s, id, OnJob(todo)), n, id)
    ensures JobsHold(s')
  {
    hide JobsHold;
    assert Jobs(s') == Jobs(s) + [Task(s.submitted, n, id)];
    NotAwaited(s, id);
    SubmitKeepsJobs(s, id, Task(s.submitted, n, id), s');
  }

  lemma ActKeepsJobs(s: State, id: nat, s': State)
    requires id < |s.hs| && s.hs[id].pc.Busy? && s.hs[id].pc.todo != [] && Acts(s, id, s') && JobsHold(s)
    ensures JobsHold(s')
  {
    hide JobsHold, JobsOf, Enqueue;
    match s.hs[id].pc.todo[0]
    case Embed => SameKeepsJobs(s, s');
    case Submit(n) =>
      EnqueueAt(s, id, Busy(s.hs[id].pc.todo[1..]), n, NOBODY);
      SubmitStepKeepsJobs(s, id, n, s');
    case SubmitWait(n) => WaitStepKeepsJobs(s, id, s.hs[id].pc.todo[1..], n, s');
  }

  lemma NotAwaited(s: State, id: nat)
    requires JobsHold(s) && id < |s.hs| && !s.hs[id].pc.OnJob?
    ensures !Awaited(Jobs(s), id)
  {
    hide Jobs, Awaited;
  }

  lemma FirstWaiter(s: State)
    requires JobsHold(s) && Jobs(s) != []
    ensures -1 <= Jobs(s)[0].waiter < |s.hs|
    ensures Jobs(s)[0].waiter >= 0 ==> s.hs[Jobs(s)[0].waiter].pc.OnJob?
  {
    hide Jobs;
    assert Awaited(Jobs(s), Jobs(s)[0].waiter);
  }

  lemma FinishStepKeepsJobs(s: State, s': State)
    requires Occurs(s, WriterFinish, s') && JobsHold(s)
    ensures JobsHold(s')
  {
    hide JobsHold, MainMoves, EnqueueAll, Acts, Answer, Join;
    assert Jobs(s') == Jobs(s)[1..];
    FirstWaiter(s);
    FinishKeepsJobs(s, s');
  }

  lemma MainKeepsJobs(s: State, accept: bool, s': State)
    requires MainMoves(s, accept, s') && JobsHold(s)
    ensures JobsHold(s')
  {
    hide JobsHold, MainMoves, JobsOf;
    MainMovesNoOne(s, accept, s');
    SameKeepsJobs(s, s');
  }

  lemma AnswerKeepsJobs(s: State, s': State)
    requires Occurs(s, EmbedDone, s') && JobsHold(s)
    ensures JobsHold(s')
  {
    hide JobsHold, MainMoves, EnqueueAll, Acts, Resume, Join;
    SameKeepsJobs(s, s');
  }

  lemma StepKeepsJobs(s: State, e: Event, s': State)
    requires Occurs(s, e, s') && JobsHold(s)
    ensures JobsHold(s')
  {
    hide EnqueueAll, JobsHold, MainMoves, Acts, Answer, Resume;
    match e
    case MainStep(accept) => MainKeepsJobs(s, accept, s');
    case WatchScan(jobs) =>
      ScanKeepsJobs(s, jobs);
      SameKeepsJobs(EnqueueAll(s, jobs), s');
    case Act(id) => ActKeepsJobs(s, id, s');
    case WriterTake =>
      assert Jobs(s') == Jobs(s);
      SameKeepsJobs(s, s');
    case WriterFinish => FinishStepKeepsJobs(s, s');
    case EmbedDone => AnswerKeepsJobs(s, s');
    case _ => SameKeepsJobs(s, s');
  }

  // ---- order ----

  ghost function Tickets(jobs: seq<Task>): seq<nat> {
    seq(|jobs|, i requires 0 <= i < |jobs| => jobs[i].ticket)
  }

  // Jobs finished, then the one running, then those queued: tickets 0, 1, 2, ...
  ghost predicate InOrder(s: State) {
    var all := s.executed + Tickets(Jobs(s));
    |all| == s.submitted && forall i :: 0 <= i < |all| ==> all[i] == i
  }

  lemma SubmitKeepsOrder(s: State, task: Task, s': State)
    requires InOrder(s) && task.ticket == s.submitted
    requires Jobs(s') == Jobs(s) + [task] && s'.submitted == s.submitted + 1 && s'.executed == s.executed
    ensures InOrder(s')
  {
    hide JobsOf;
    assert Tickets(Jobs(s')) == Tickets(Jobs(s)) + [task.ticket];
    assert s'.executed + Tickets(Jobs(s')) == (s.executed + Tickets(Jobs(s))) + [task.ticket];
  }

  lemma FinishKeepsOrder(s: State, s': State)
    requires InOrder(s) && Jobs(s) != []
    requires Jobs(s') == Jobs(s)[1..] && s'.submitted == s.submitted && s'.executed == s.executed + [Jobs(s)[0].ticket]
    ensures InOrder(s')
  {
    hide JobsOf;
    assert Tickets(Jobs(s)) == [Jobs(s)[0].ticket] + Tickets(Jobs(s)[1..]);
    assert s'.executed + Tickets(Jobs(s')) == s.executed + Tickets(Jobs(s));
  }

  lemma {:induction false} ScanKeepsOrder(s: State, jobs: seq<nat>)
    requires InOrder(s)
    ensures InOrder(EnqueueAll(s, jobs))
    decreases |jobs|
  {
    hide InOrder;
    if jobs != [] {
      var s1 := Enqueue(s, jobs[0], NOBODY);
      assert Jobs(s1) == Jobs(s) + [Task(s.submitted, jobs[0], NOBODY)];
      SubmitKeepsOrder(s, Task(s.submitted, jobs[0], NOBODY), s1);
      ScanKeepsOrder(s1, jobs[1..]);
    }
  }

  lemma EnqueueKeepsOrder(s: State, n: nat, waiter: int, s': State)
    requires InOrder(s) && s' == Enqueue(s, n, waiter).(hs := s'.hs)
    ensures InOrder(s')
  {
    hide InOrder;
    assert Jobs(s') == Jobs(s) + [Task(s.submitted, n, waiter)];
    SubmitKeepsOrder(s, Task(s.submitted, n, waiter), s');
  }

  lemma ActKeepsOrder(s: State, id: nat, s': State)
    requires id < |s.hs| && s.hs[id].pc.Busy? && s.hs[id].pc.todo != [] && Acts(s, id, s') && InOrder(s)
    ensures InOrder(s')
  {
    hide InOrder, JobsOf, Enqueue, Tickets;
    var todo := s.hs[id].pc.todo;
    match todo[0]
    case Embed => SameOrder(s, s');
    case Submit(n) =>
      EnqueueAt(s, id, Busy(todo[1..]), n, NOBODY);
      EnqueueKeepsOrder(s, n, NOBODY, s');
    case SubmitWait(n) =>
      EnqueueAt(s, id, OnJob(todo[1..]), n, id);
      EnqueueKeepsOrder(s, n, id, s');
  }

  lemma FinishStepKeepsOrder(s: State, s': State)
    requires Occurs(s, WriterFinish, s') && InOrder(s)
    ensures InOrder(s')
  {
    hide EnqueueAll, InOrder, MainMoves, Acts, Resume, Join, Answer;
    ResumeAlone(s, s.writer.task.waiter);
    assert Jobs(s') == Jobs(s)[1..];
    FinishKeepsOrder(s, s');
  }

  lemma SameOrder(s: State, s': State)
    requires InOrder(s) && Jobs(s') == Jobs(s) && s'.submitted == s.submitted && s'.executed == s.executed
    ensures InOrder(s')
  {
  }

  lemma StepKeepsOrder(s: State, e: Event, s': State)
    requires Occurs(s, e, s') && InOrder(s)
    ensures InOrder(s')
  {
    hide EnqueueAll, InOrder, MainMoves, Acts, Resume, Answer, Join, ShutAll, Tickets;
    match e
    case MainStep(accept) => MainMovesNoOne(s, accept, s'); SameOrder(s, s');
    case Reap(id) => JoinPcs(s, id); SameOrder(s, s');
    case WatchScan(jobs) => ScanKeepsOrder(s, jobs); SameOrder(EnqueueAll(s, jobs), s');
    case Act(id) => ActKeepsOrder(s, id, s');
    case WriterTake =>
      assert Jobs(s') == Jobs(s);
      SameOrder(s, s');
    case WriterFinish => FinishStepKeepsOrder(s, s');
    case EmbedDone => AnswerAlone(s, s.embed.who); SameOrder(s, s');
    case _ => SameOrder(s, s');
  }

  lemma AnswerAlone(s: State, who: int)
    ensures var s' := Answer(s, who);
            Jobs(s') == Jobs(s) && s'.submitted == s.submitted && s'.executed == s.executed
  {
  }

  lemma ResumeAlone(s: State, waiter: int)
    ensures Resume(s, waiter) == s.(hs := Resume(s, waiter).hs) && |Resume(s, waiter).hs| == |s.hs|
  {
  }

  // ---- stages of the shutdown ----

  // How many waits lie ahead.
  ghost function Ahead(m: MainPc): nat {
    match m
    case Select => 12
    case Tcp => 11
    case Check => 10
    case StopWatch => 9
    case JoinWatch => 8
    case Shut => 7
    case Joining(_) => 6
    case StopQueue => 5
    case JoinWriter => 4
    case StopEmbed => 3
    case JoinEmbed => 2
    case Final => 1
  }

  ghost predicate AllJoined(hs: seq<Handler>) {
    forall id :: 0 <= id < |hs| ==> hs[id].joined
  }

  ghost predicate JoinedExited(hs: seq<Handler>) {
    forall id :: 0 <= id < |hs| ==> (hs[id].joined ==> hs[id].pc.Exited?)
  }

  ghost predicate AllShut(hs: seq<Handler>) {
    forall id :: 0 <= id < |hs| ==> hs[id].shut
  }

  ghost predicate JoinedUpTo(hs: seq<Handler>, k: nat) {
    k <= |hs| && forall id :: 0 <= id < k ==> hs[id].joined
  }

  // What each wait has established.
  ghost predicate Staged(s: State) {
    var m := Ahead(s.main);
    && JoinedExited(s.hs)
    && (m <= 9 ==> s.flag) && (m <= 8 ==> !s.watching) && (s.watcher.Stopped? ==> !s.watching)
    && (m <= 7 ==> s.watcher.Stopped?)
    && (m <= 6 ==> AllShut(s.hs))
    && (s.main.Joining? ==> JoinedUpTo(s.hs, s.main.k))
    && (m <= 5 ==> AllJoined(s.hs))
    && (s.wstop <==> m <= 4) && (s.writer.WExited? ==> s.wstop && s.wq == [])
    && (m <= 3 ==> s.writer.WExited?)
    && (s.estop <==> m <= 2) && (s.embed.EExited? ==> s.estop && s.eq == [])
    && (m <= 1 ==> s.embed.EExited?)
  }

  lemma JoinStages(s: State, id: nat)
    requires id < |s.hs| && s.hs[id].pc.Exited?
    ensures var hs := Join(s, id).hs;
            && |hs| == |s.hs| && hs[id].joined && (JoinedExited(s.hs) ==> JoinedExited(hs)) &&
                (AllShut(s.hs) ==> AllShut(hs))
            && (forall k: nat :: JoinedUpTo(s.hs, k) ==> JoinedUpTo(hs, k)) &&
                (JoinedUpTo(s.hs, id) ==> JoinedUpTo(hs, id + 1))
  {
  }

  lemma MainKeepsStages(s: State, accept: bool, s': State)
    requires MainMoves(s, accept, s') && Staged(s)
    ensures Staged(s')
  {
    hide Join, SamePcs;
    if s.main.Joining? && s.main.k < |s.hs| {
      JoinStages(s, s.main.k);
      JoinPcs(s, s.main.k);
    }
  }

  // Moving one live handler.
  lemma AtStages(s: State, id: nat, pc: HandlerPc)
    requires id < |s.hs| && JoinedExited(s.hs) && !s.hs[id].pc.Exited?
    ensures var hs := At(s, id, pc).hs;
            && !s.hs[id].joined && !AllJoined(s.hs) && JoinedExited(hs) && (AllShut(s.hs) ==> AllShut(hs))
            && forall k: nat :: JoinedUpTo(s.hs, k) ==> JoinedUpTo(hs, k)
  {
  }

  lemma ActKeepsStages(s: State, id: nat, s': State)
    requires id < |s.hs| && s.hs[id].pc.Busy? && s.hs[id].pc.todo != [] && Acts(s, id, s') && Staged(s)
    ensures Staged(s')
  {
    hide AllJoined, JoinedExited, AllShut, JoinedUpTo;
    var todo := s.hs[id].pc.todo;
    AtStages(s, id, OnEmbed(todo[1..]));
    AtStages(s, id, Busy(todo[1..]));
    AtStages(s, id, OnJob(todo[1..]));
  }

  lemma AnswerKeepsStages(s: State, s': State)
    requires Occurs(s, EmbedDone, s') && Staged(s)
    ensures Staged(s')
  {
    hide AllJoined, JoinedExited, AllShut, JoinedUpTo, MainMoves, EnqueueAll, Acts, Join, Resume;
    var who := s.embed.who;
    if 0 <= who < |s.hs| && s.hs[who].pc.OnEmbed? {
      AtStages(s, who, Busy(s.hs[who].pc.todo));
    }
  }

  lemma FinishKeepsStages(s: State, s': State)
    requires Occurs(s, WriterFinish, s') && Staged(s)
    ensures Staged(s')
  {
    hide AllJoined, JoinedExited, AllShut, JoinedUpTo, MainMoves, EnqueueAll, Acts, Join, Answer;
    var who := s.writer.task.waiter;
    if 0 <= who < |s.hs| && s.hs[who].pc.OnJob? {
      AtStages(s, who, Busy(s.hs[who].pc.todo));
    }
  }

  lemma StepKeepsStages(s: State, e: Event, s': State)
    requires Occurs(s, e, s') && Staged(s)
    ensures Staged(s')
  {
    hide AllJoined, JoinedExited, AllShut, JoinedUpTo, MainMoves, EnqueueAll, Acts, Join, Answer, Resume, ShutAll;
    match e
    case MainStep(accept) => MainKeepsStages(s, accept, s');
    case Reap(id) => JoinStages(s, id); JoinPcs(s, id);
    case WatchScan(jobs) => EnqueueAllAdds(s, jobs);
    case Read(id, todo) => AtStages(s, id, Busy(todo));
    case Eof(id) => AtStages(s, id, Exited);
    case Act(id) => ActKeepsStages(s, id, s');
    case Fail(id) => AtStages(s, id, Busy([]));
    case Done(id) => AtStages(s, id, Exited); AtStages(s, id, Reading);
    case WriterFinish => FinishKeepsStages(s, s');
    case EmbedDone => AnswerKeepsStages(s, s');
    case _ =>
  }

  // ---- each handler joined once ----

  ghost predicate JoinedOnce(s: State) {
    && (forall i, j :: 0 <= i < j < |s.joins| ==> s.joins[i] != s.joins[j])
    && (forall i :: 0 <= i < |s.joins| ==> s.joins[i] < |s.hs| && s.hs[s.joins[i]].joined)
    && (forall id: nat :: id < |s.hs| && s.hs[id].joined ==> id in s.joins)
  }

  lemma JoinKeepsOnce(s: State, id: nat)
    requires id < |s.hs| && JoinedOnce(s)
    ensures JoinedOnce(Join(s, id))
  {
    if !s.hs[id].joined {
      assert id !in s.joins;
    }
  }

  // Nobody joined in between; new handlers are not joined.
  ghost predicate SameJoined(a: seq<Handler>, b: seq<Handler>) {
    && |b| >= |a|
    && (forall id :: 0 <= id < |a| ==> b[id].joined == a[id].joined)
    && (forall id :: |a| <= id < |b| ==> !b[id].joined)
  }

  lemma SameOnce(s: State, s': State)
    requires JoinedOnce(s) && s'.joins == s.joins && SameJoined(s.hs, s'.hs)
    ensures JoinedOnce(s')
  {
  }

  lemma JoinedThemselves(hs: seq<Handler>)
    ensures SameJoined(hs, hs) && SameJoined(hs, ShutAll(hs))
  {
  }

  lemma AcceptedJoined(s: State)
    ensures Accepted(s) == s.(hs := Accepted(s).hs) && SameJoined(s.hs, Accepted(s).hs)
  {
  }

  lemma AtJoined(s: State, id: nat, pc: HandlerPc)
    requires id < |s.hs|
    ensures SameJoined(s.hs, At(s, id, pc).hs)
  {
  }

  lemma ResumedJoined(s: State, who: int)
    ensures SameJoined(s.hs, Answer(s, who).hs) && SameJoined(s.hs, Resume(s, who).hs)
    ensures Answer(s, who).joins == s.joins && Resume(s, who).joins == s.joins
  {
  }

  lemma ActJoined(s: State, id: nat, s': State)
    requires id < |s.hs| && s.hs[id].pc.Busy? && s.hs[id].pc.todo != [] && Acts(s, id, s')
    ensures SameJoined(s.hs, s'.hs) && s'.joins == s.joins
  {
    hide SameJoined;
    var todo := s.hs[id].pc.todo;
    AtJoined(s, id, OnEmbed(todo[1..]));
    AtJoined(s, id, Busy(todo[1..]));
    AtJoined(s, id, OnJob(todo[1..]));
  }

  lemma JoiningKeepsOnce(s: State, accept: bool, s': State)
    requires MainMoves(s, accept, s') && JoinedOnce(s) && s.main.Joining? && s.main.k < |s.hs|
    ensures JoinedOnce(s')
  {
    hide JoinedOnce, Join, SameJoined;
    JoinKeepsOnce(s, s.main.k);
    JoinedThemselves(s'.hs);
    SameOnce(Join(s, s.main.k), s');
  }

  lemma MainKeepsOnce(s: State, accept: bool, s': State)
    requires MainMoves(s, accept, s') && JoinedOnce(s)
    ensures JoinedOnce(s')
  {
    hide JoinedOnce, Join, SameJoined, ShutAll, Accepted;
    JoinedThemselves(s.hs);
    AcceptedJoined(s);
    if s.main.Joining? && s.main.k < |s.hs| {
      JoiningKeepsOnce(s, accept, s');
    } else {
      SameOnce(s, s');
    }
  }

  lemma StepKeepsOnce(s: State, e: Event, s': State)
    requires Occurs(s, e, s') && JoinedOnce(s)
    ensures JoinedOnce(s')
  {
    hide JoinedOnce, MainMoves, EnqueueAll, Join, ShutAll, SameJoined, Acts, Answer, Resume;
    JoinedThemselves(s.hs);
    match e
    case MainStep(accept) => MainKeepsOnce(s, accept, s');
    case Reap(id) => JoinKeepsOnce(s, id);
    case WatchScan(jobs) => EnqueueAllAdds(s, jobs); SameOnce(s, s');
    case Read(id, todo) => AtJoined(s, id, Busy(todo)); SameOnce(s, s');
    case Eof(id) => AtJoined(s, id, Exited); SameOnce(s, s');
    case Act(id) => ActJoined(s, id, s'); SameOnce(s, s');
    case Fail(id) => AtJoined(s, id, Busy([])); SameOnce(s, s');
    case Done(id) => AtJoined(s, id, if s.flag then Exited else Reading); SameOnce(s, s');
    case WriterFinish => ResumedJoined(s, s.writer.task.waiter); SameOnce(s, s');
    case EmbedDone => ResumedJoined(s, s.embed.who); SameOnce(s, s');
    case _ => SameOnce(s, s');
  }

  ghost predicate Inv(s: State) {
    CallsHold(s) && JobsHold(s) && InOrder(s) && Staged(s) && JoinedOnce(s)
  }

  lemma InitHolds(s: State)
    requires Init(s)
    ensures Inv(s)
  {
  }

  lemma StepKeeps(s: State, s': State)
    requires Next(s, s') && Inv(s)
    ensures Inv(s')
  {
    hide Occurs, CallsHold, JobsHold, InOrder, Staged, JoinedOnce;
    var e :| Occurs(s, e, s');
    StepKeepsCalls(s, e, s');
    StepKeepsJobs(s, e, s');
    StepKeepsOrder(s, e, s');
    StepKeepsStages(s, e, s');
    StepKeepsOnce(s, e, s');
  }

  lemma {:induction false} ExecutionHolds(ss: seq<State>, i: nat)
    requires Execution(ss) && i < |ss|
    ensures Inv(ss[i])
  {
    hide Init, Next, Inv;
    if i == 0 {
      InitHolds(ss[0]);
    } else {
      ExecutionHolds(ss, i - 1);
      StepKeeps(ss[i - 1], ss[i]);
    }
  }

  // ---- no deadlock ----

  // Does a step wait for something outside the daemon: a signal, or a client to write or hang up?
  ghost predicate Outside(s: State, e: Event) {
    e.SetFlag? || e.Read? || (e.Eof? && e.id < |s.hs| && !s.hs[e.id].shut)
  }

  ghost predicate CanMove(s: State) {
    exists e, s' :: Occurs(s, e, s') && !Outside(s, e)
  }

  lemma Moves(s: State, e: Event, s': State)
    requires Occurs(s, e, s') && !Outside(s, e)
    ensures CanMove(s)
  {
  }

  // While a call is outstanding the embed worker has work.
  lemma EmbedderMoves(s: State)
    requires Inv(s) && Calls(s) != []
    ensures CanMove(s)
  {
    hide CallsHold, JobsHold, InOrder, JoinedOnce, CanMove, MainMoves, EnqueueAll, Acts, Join, Resume;
    if s.embed.EWork? {
      Moves(s, EmbedDone, Answer(s, s.embed.who).(embed := EIdle));
    } else {
      Moves(s, EmbedTake, s.(embed := EWork(s.eq[0]), eq := s.eq[1..]));
    }
  }

  // While a job is unfinished the writer, or the embed worker it waits for, has work.
  lemma WriterMoves(s: State)
    requires Inv(s) && Jobs(s) != []
    ensures CanMove(s)
  {
    hide JobsHold, InOrder, JoinedOnce, CanMove, MainMoves, EnqueueAll, Acts, Join, Answer;
    if s.writer.WEmbed? {
      EmbedderMoves(s);
    } else if s.writer.WRun? {
      Moves(s, WriterFinish, Resume(s, s.writer.task.waiter).(writer := WIdle,
          executed := s.executed + [s.writer.task.ticket]));
    } else {
      Moves(s, WriterTake, s.(writer := WRun(s.wq[0], s.wq[0].embeds), wq := s.wq[1..]));
    }
  }

  ghost function ActTo(s: State, id: nat): State
    requires id < |s.hs| && s.hs[id].pc.Busy? && s.hs[id].pc.todo != []
    ensures Acts(s, id, ActTo(s, id))
  {
    var todo := s.hs[id].pc.todo;
    match todo[0]
    case Embed => At(s, id, OnEmbed(todo[1..])).(eq := s.eq + [id])
    case Submit(n) => Enqueue(At(s, id, Busy(todo[1..])), n, NOBODY)
    case SubmitWait(n) => Enqueue(At(s, id, OnJob(todo[1..])), n, id)
  }

  // A live handler moves, or a thread it waits for does.
  lemma HandlerMoves(s: State, id: nat)
    requires Inv(s) && id < |s.hs| && !s.hs[id].pc.Exited? && s.hs[id].shut
    ensures CanMove(s)
  {
    hide InOrder, JoinedOnce, Staged, CanMove, MainMoves, EnqueueAll, Acts, Join, Answer, Resume, CallsOf, JobsOf;
    match s.hs[id].pc
    case Reading => Moves(s, Eof(id), At(s, id, Exited));
    case Busy(todo) =>
      if todo == [] {
        Moves(s, Done(id), At(s, id, if s.flag then Exited else Reading));
      } else {
        Moves(s, Act(id), ActTo(s, id));
      }
    case OnEmbed(_) =>
      assert id in Calls(s);
      EmbedderMoves(s);
    case OnJob(_) =>
      assert Awaited(Jobs(s), id);
      WriterMoves(s);
  }

  lemma MainStepMoves(s: State, s': State)
    requires MainMoves(s, false, s')
    ensures CanMove(s)
  {
    hide MainMoves, CanMove, EnqueueAll, Acts, Join, Answer, Resume;
    Moves(s, MainStep(false), s');
  }

  // Shutdown cannot deadlock: once the flag is set some thread can move, without help from
  // outside, until the main thread has finished.
  lemma NoDeadlock(s: State)
    requires Inv(s) && s.flag && !s.main.Final?
    ensures CanMove(s)
  {
    hide CallsHold, JobsHold, InOrder, JoinedOnce, CanMove, Occurs, ShutAll, Join;
    match s.main
    case Check => MainStepMoves(s, s.(main := StopWatch));
    case Select => MainStepMoves(s, s.(main := Tcp));
    case Tcp => MainStepMoves(s, s.(main := Check));
    case StopWatch => MainStepMoves(s, s.(watching := false, main := JoinWatch));
    case JoinWatch => WatcherMoves(s);
    case Shut => MainStepMoves(s, s.(hs := ShutAll(s.hs), main := Joining(0)));
    case Joining(k) =>
      if k == |s.hs| {
        MainStepMoves(s, s.(main := StopQueue));
      } else if s.hs[k].pc.Exited? {
        MainStepMoves(s, Join(s, k).(main := Joining(k + 1)));
      } else {
        HandlerMoves(s, k);
      }
    case StopQueue => MainStepMoves(s, s.(wstop := true, main := JoinWriter));
    case JoinWriter => WriterLeaves(s);
    case StopEmbed => MainStepMoves(s, s.(estop := true, main := JoinEmbed));
    case JoinEmbed => EmbedderLeaves(s);
  }

  lemma WatcherMoves(s: State)
    requires s.main.JoinWatch?
    ensures CanMove(s)
  {
    hide CanMove, Acts, Join, Answer, Resume;
    match s.watcher
    case Loop => Moves(s, WatchCheck, s.(watcher := if s.watching then Scan else Stopped));
    case Scan => Moves(s, WatchScan([]), s.(watcher := Loop));
    case Stopped => MainStepMoves(s, s.(main := Shut));
  }

  lemma WriterLeaves(s: State)
    requires Inv(s) && s.main.JoinWriter?
    ensures CanMove(s)
  {
    hide CallsHold, JobsHold, InOrder, JoinedOnce, CanMove, Acts, Join, Answer, Resume, EnqueueAll;
    if Jobs(s) != [] {
      WriterMoves(s);
    } else if s.writer.WIdle? {
      Moves(s, WriterExit, s.(writer := WExited));
    } else {
      MainStepMoves(s, s.(main := StopEmbed));
    }
  }

  lemma EmbedderLeaves(s: State)
    requires Inv(s) && s.main.JoinEmbed?
    ensures CanMove(s)
  {
    hide CallsHold, JobsHold, InOrder, JoinedOnce, CanMove, Acts, Join, Answer, Resume, EnqueueAll;
    if Calls(s) != [] {
      EmbedderMoves(s);
    } else if s.embed.EIdle? {
      Moves(s, EmbedExit, s.(embed := EExited));
    } else {
      MainStepMoves(s, s.(main := Final));
    }
  }

  // What has happened by the end: every job submitted ran once, in order; every handler was
  // joined once; and no thread is left, so no blocking call is outstanding.
  lemma EndState(s: State)
    requires Inv(s) && s.main.Final?
    ensures |s.executed| == s.submitted && forall i :: 0 <= i < |s.executed| ==> s.executed[i] == i
    ensures |s.joins| == |s.hs| && forall id: nat :: id < |s.hs| ==> id in s.joins && s.hs[id].pc.Exited?
    ensures s.watcher.Stopped? && s.writer.WExited? && s.embed.EExited? && s.wq == [] && s.eq == []
  {
    hide CallsHold, JobsHold;
    assert Jobs(s) == [];
    assert s.executed + Tickets(Jobs(s)) == s.executed;
    DistinctCount(s.joins, |s.hs|);
  }

  // No handler is live from the moment the daemon state starts to be destroyed.
  lemma NoHandlerOutlivesState(ss: seq<State>, i: nat, id: nat)
    requires Execution(ss) && i < |ss| && Ahead(ss[i].main) <= 5 && id < |ss[i].hs|
    ensures ss[i].hs[id].joined && ss[i].hs[id].pc.Exited? && ss[i].watcher.Stopped?
  {
    hide Execution, CallsHold, JobsHold, InOrder, JoinedOnce;
    ExecutionHolds(ss, i);
  }

  // As many as there are below n, if all of those and no others occur once each.
  lemma {:induction false} DistinctCount(js: seq<nat>, n: nat)
    requires forall i, j :: 0 <= i < j < |js| ==> js[i] != js[j]
    requires forall i :: 0 <= i < |js| ==> js[i] < n
    requires forall id: nat :: id < n ==> id in js
    ensures |js| == n
  {
    if n == 0 {
      assert js == [];
    } else {
      var last: nat := n - 1;
      assert last in js;
      var k :| 0 <= k < |js| && js[k] == last;
      var rest := js[..k] + js[k + 1..];
      forall i | 0 <= i < |rest| ensures rest[i] < n - 1 {
        assert rest[i] == js[if i < k then i else i + 1];
      }
      forall id: nat | id < n - 1 ensures id in rest {
        assert id in js;
        var i :| 0 <= i < |js| && js[i] == id;
        assert rest[if i < k then i else i - 1] == id;
      }
      DistinctCount(rest, n - 1);
    }
  }

  // ---- termination ----

  ghost function ActionCost(a: Action): nat {
    match a
    case Embed => 4
    case Submit(n) => 4 * n + 4
    case SubmitWait(n) => 4 * n + 4
  }

  ghost function TodoCost(todo: seq<Action>): nat {
    if todo == [] then 0 else ActionCost(todo[0]) + TodoCost(todo[1..])
  }

  // What a handler that has read its last request still has to do.
  ghost function HandlerCost(h: Handler): nat {
    match h.pc
    case Reading => 0
    case Busy(todo) => 2 + TodoCost(todo)
    case OnEmbed(todo) => 2 + TodoCost(todo)
    case OnJob(todo) => 2 + TodoCost(todo)
    case Exited => if h.joined then 0 else 1
  }

  ghost function HandlersCost(hs: seq<Handler>): nat {
    if hs == [] then 0 else HandlersCost(hs[..|hs| - 1]) + HandlerCost(hs[|hs| - 1])
  }

  ghost function Readers(hs: seq<Handler>): nat {
    if hs == [] then 0 else Readers(hs[..|hs| - 1]) + if hs[|hs| - 1].pc.Reading? then 1 else 0
  }

  ghost function QueueCost(q: seq<Task>): nat {
    if q == [] then 0 else 4 * q[0].embeds + 3 + QueueCost(q[1..])
  }

  ghost function WriterCost(w: WriterPc): nat {
    match w
    case WIdle => 1
    case WRun(_, left) => 4 * left + 3
    case WEmbed(_, left) => 4 * left + 3
    case WExited => 0
  }

  ghost function EmbedCost(e: EmbedPc): nat {
    match e
    case EIdle => 1
    case EWork(_) => 3
    case EExited => 0
  }

  ghost function Work(s: State): nat {
    HandlersCost(s.hs) + QueueCost(s.wq) + WriterCost(s.writer) + 3 * |s.eq| + EmbedCost(s.embed)
  }

  // Compared lexicographically.
  datatype Measure = Measure(ahead: nat, sub: nat, watch: nat, readers: nat, work: nat)

  ghost function MeasureOf(s: State): Measure {
    Measure(Ahead(s.main), if s.main.Joining? && s.main.k <= |s.hs| then |s.hs| - s.main.k else 0,
            if s.watching then 0 else if s.watcher.Scan? then 2 else if s.watcher.Loop? then 1 else 0,
            Readers(s.hs), Work(s))
  }

  ghost predicate Less(a: Measure, b: Measure) {
    a.ahead < b.ahead || (a.ahead == b.ahead && (a.sub < b.sub || (a.sub == b.sub && (a.watch < b.watch ||
      (a.watch == b.watch && (a.readers < b.readers || (a.readers == b.readers && a.work < b.work)))))))
  }

  lemma {:induction false} CostUpdate(hs: seq<Handler>, id: nat, h: Handler)
    requires id < |hs|
    ensures HandlersCost(hs[id := h]) + HandlerCost(hs[id]) == HandlersCost(hs) + HandlerCost(h)
    ensures Readers(hs[id := h]) + (if hs[id].pc.Reading? then 1 else 0) ==
        Readers(hs) + (if h.pc.Reading? then 1 else 0)
  {
    hide HandlerCost;
    var n := |hs| - 1;
    if id < n {
      CostUpdate(hs[..n], id, h);
      assert hs[id := h][..n] == hs[..n][id := h];
    } else {
      assert hs[id := h][..n] == hs[..n];
    }
  }

  lemma {:induction false} QueueCostAdds(q: seq<Task>, t: Task)
    ensures QueueCost(q + [t]) == QueueCost(q) + 4 * t.embeds + 3
  {
    if q == [] {
      assert q + [t] == [t] && [t][1..] == [];
    } else {
      QueueCostAdds(q[1..], t);
      assert (q + [t])[1..] == q[1..] + [t];
    }
  }

  ghost predicate SameControl(s: State, s': State) {
    |s'.hs| == |s.hs| && s'.main == s.main && s'.watching == s.watching && s'.watcher == s.watcher && s'.flag == s.flag
  }

  lemma CallDescends(s: State, id: nat, todo: seq<Action>, s': State)
    requires id < |s.hs| && s.hs[id].pc == Busy([Embed] + todo) && s' == At(s, id, OnEmbed(todo)).(eq := s.eq + [id])
    ensures Work(s') < Work(s) && Readers(s'.hs) == Readers(s.hs) && SameControl(s, s')
  {
    hide HandlersCost, Readers, QueueCost;
    CostUpdate(s.hs, id, s'.hs[id]);
    assert ([Embed] + todo)[1..] == todo;
  }

  lemma SubmitDescends(s: State, id: nat, a: Action, todo: seq<Action>, pc: HandlerPc, waiter: int, s': State)
    requires id < |s.hs| && s.hs[id].pc == Busy([a] + todo) && !a.Embed? && (pc == Busy(todo) || pc == OnJob(todo))
    requires s' == Enqueue(At(s, id, pc), a.embeds, waiter)
    ensures Work(s') < Work(s) && Readers(s'.hs) == Readers(s.hs) && SameControl(s, s')
  {
    hide HandlersCost, Readers, QueueCost;
    CostUpdate(s.hs, id, s'.hs[id]);
    QueueCostAdds(s.wq, Task(s.submitted, a.embeds, waiter));
    assert ([a] + todo)[1..] == todo;
  }

  lemma ActDescends(s: State, id: nat, s': State)
    requires id < |s.hs| && s.hs[id].pc.Busy? && s.hs[id].pc.todo != [] && Acts(s, id, s')
    ensures Work(s') < Work(s) && Readers(s'.hs) == Readers(s.hs) && SameControl(s, s')
  {
    hide Work, Readers, SameControl;
    var todo := s.hs[id].pc.todo;
    assert todo == [todo[0]] + todo[1..];
    match todo[0]
    case Embed => CallDescends(s, id, todo[1..], s');
    case Submit(_) => SubmitDescends(s, id, todo[0], todo[1..], Busy(todo[1..]), NOBODY, s');
    case SubmitWait(_) => SubmitDescends(s, id, todo[0], todo[1..], OnJob(todo[1..]), id, s');
  }

  lemma AnswerDescends(s: State, s': State)
    requires Occurs(s, EmbedDone, s')
    ensures Work(s') < Work(s) && Readers(s'.hs) == Readers(s.hs) && |s'.hs| == |s.hs|
    ensures s'.main == s.main && s'.watching == s.watching && s'.watcher == s.watcher
  {
    hide HandlersCost, Readers, QueueCost, TodoCost, MainMoves, EnqueueAll, Acts, Join, Resume;
    var who := s.embed.who;
    if 0 <= who < |s.hs| {
      CostUpdate(s.hs, who, s'.hs[who]);
    }
  }

  lemma FinishDescends(s: State, s': State)
    requires Occurs(s, WriterFinish, s')
    ensures Work(s') < Work(s) && Readers(s'.hs) == Readers(s.hs) && |s'.hs| == |s.hs|
    ensures s'.main == s.main && s'.watching == s.watching && s'.watcher == s.watcher
  {
    hide HandlersCost, Readers, QueueCost, TodoCost, MainMoves, EnqueueAll, Acts, Join, Answer;
    var who := s.writer.task.waiter;
    if 0 <= who < |s.hs| {
      CostUpdate(s.hs, who, s'.hs[who]);
    }
  }

  // A handler's other steps.
  lemma HandlerDescends(s: State, e: Event, s': State)
    requires Occurs(s, e, s') && s.flag && (e.Read? || e.Eof? || e.Fail? || e.Done? || e.Reap?)
    requires JoinedExited(s.hs)
    ensures Readers(s'.hs) < Readers(s.hs) || (Readers(s'.hs) == Readers(s.hs) && Work(s') < Work(s))
    ensures |s'.hs| == |s.hs| && s'.main == s.main && s'.watching == s.watching && s'.watcher == s.watcher
  {
    hide HandlersCost, Readers, QueueCost, MainMoves, EnqueueAll, Acts, Answer, Resume;
    CostUpdate(s.hs, e.id, s'.hs[e.id]);
  }

  lemma MainDescends(s: State, accept: bool, s': State)
    requires MainMoves(s, accept, s') && s.flag && Staged(s)
    ensures Less(MeasureOf(s'), MeasureOf(s))
  {
    hide Readers, Work, AllJoined, AllShut, JoinedExited;
  }

  lemma WorkerDescends(s: State, e: Event, s': State)
    requires Occurs(s, e, s') && (e.WriterTake? || e.WriterEmbed? || e.WriterExit? || e.EmbedTake? || e.EmbedExit?)
    ensures Work(s') < Work(s) && s'.hs == s.hs
    ensures s'.main == s.main && s'.watching == s.watching && s'.watcher == s.watcher
  {
    hide HandlersCost, MainMoves, EnqueueAll, Acts, Answer, Resume, Join;
  }

  // Once the flag is set and the watcher told to stop, every step whatever, even a client's,
  // brings the end nearer.
  lemma StepDescends(s: State, e: Event, s': State)
    requires Occurs(s, e, s') && Inv(s) && s.flag && !s.watching
    ensures Less(MeasureOf(s'), MeasureOf(s)) && s'.flag && !s'.watching
  {
    hide CallsHold, JobsHold, InOrder, JoinedOnce, Work, Readers, MainMoves, EnqueueAll, Acts, Answer, Resume, Join,
      AllJoined, AllShut, JoinedExited, JoinedUpTo;
    match e
    case SetFlag => assert false;
    case MainStep(accept) => MainDescends(s, accept, s'); FlagStays(s, accept, s');
    case WatchCheck =>
    case WatchScan(jobs) => EnqueueAllAdds(s, jobs);
    case Act(id) => ActDescends(s, id, s');
    case WriterFinish => FinishDescends(s, s'); ResumeAlone(s, s.writer.task.waiter);
    case EmbedDone => AnswerDescends(s, s'); AnswerFlag(s, s.embed.who);
    case Reap(id) => HandlerDescends(s, e, s'); JoinPcs(s, id);
    case Read(_, _) => HandlerDescends(s, e, s');
    case Eof(_) => HandlerDescends(s, e, s');
    case Fail(_) => HandlerDescends(s, e, s');
    case Done(_) => HandlerDescends(s, e, s');
    case _ => WorkerDescends(s, e, s');
  }

  lemma FlagStays(s: State, accept: bool, s': State)
    requires MainMoves(s, accept, s')
    ensures s'.flag == s.flag && (!s.watching ==> !s'.watching)
  {
    hide ShutAll, Join, Accepted, SamePcs;
    AcceptedPcs(s);
    if s.main.Joining? && s.main.k < |s.hs| {
      JoinPcs(s, s.main.k);
    }
  }

  lemma AnswerFlag(s: State, who: int)
    ensures Answer(s, who).flag == s.flag && Answer(s, who).main == s.main
  {
  }

  // One moment of a maximal run: a step is taken, unless no thread can move.
  ghost predicate Runs(f: nat -> State, j: nat) {
    Next(f(j), f(j + 1)) || (f(j + 1) == f(j) && !CanMove(f(j)))
  }

  // Shutdown terminates: whatever the schedule and whatever clients still send, a run that
  // goes on while it can reaches the end.
  lemma {:induction false} ShutdownCompletes(f: nat -> State, i: nat)
    requires Inv(f(i)) && f(i).flag && !f(i).watching
    requires forall j: nat :: j >= i ==> Runs(f, j)
    ensures exists j: nat :: j >= i && f(j).main.Final?
    decreases MeasureOf(f(i)).ahead, MeasureOf(f(i)).sub, MeasureOf(f(i)).watch, MeasureOf(f(i)).readers,
        MeasureOf(f(i)).work
  {
    hide Inv, Occurs, CanMove, MeasureOf;
    if !f(i).main.Final? {
      assert Runs(f, i);
      NoDeadlock(f(i));
      var e :| Occurs(f(i), e, f(i + 1));
      StepDescends(f(i), e, f(i + 1));
      StepKeeps(f(i), f(i + 1));
      ShutdownCompletes(f, i + 1);
    }
  }

  // ---- from the flag on ----

  // The main thread takes a step at moment j.
  ghost predicate MainSteps(f: nat -> State, j: nat) {
    exists accept :: Occurs(f(j), MainStep(accept), f(j + 1))
  }

  // Until it waits for another thread, the main thread goes on being scheduled.
  ghost predicate MainScheduled(f: nat -> State, i: nat) {
    forall j: nat :: j >= i && Ahead(f(j).main) >= 9 ==> exists k: nat :: k >= j && MainSteps(f, k)
  }

  // Only its own steps move the main thread.
  lemma OthersLeaveMain(s: State, e: Event, s': State)
    requires Occurs(s, e, s') && !e.MainStep?
    ensures s'.main == s.main && (s.flag ==> s'.flag)
  {
    hide MainMoves, EnqueueAll, Answer, Resume, Join, Acts;
    match e
    case WatchScan(jobs) => EnqueueAllAdds(s, jobs);
    case Act(id) => ActLeavesMain(s, id, s');
    case WriterFinish => ResumeAlone(s, s.writer.task.waiter);
    case EmbedDone => AnswerAlone(s, s.embed.who); AnswerFlag(s, s.embed.who);
    case Reap(id) => JoinPcs(s, id);
    case _ =>
  }

  lemma ActLeavesMain(s: State, id: nat, s': State)
    requires id < |s.hs| && s.hs[id].pc.Busy? && s.hs[id].pc.todo != [] && Acts(s, id, s')
    ensures s'.main == s.main && s'.flag == s.flag
  {
  }

  lemma NotMain(f: nat -> State, j: nat, e: Event)
    requires Occurs(f(j), e, f(j + 1)) && !MainSteps(f, j)
    ensures !e.MainStep?
  {
    hide Occurs;
    match e
    case MainStep(_) => assert false;
    case _ =>
  }

  // The first step of the main thread from moment j on, which finds it where it was.
  lemma {:induction false} NextMainStep(f: nat -> State, j: nat, k: nat) returns (m: nat)
    requires Inv(f(j)) && f(j).flag && j <= k && MainSteps(f, k)
    requires forall n: nat :: n >= j ==> Runs(f, n)
    ensures j <= m && MainSteps(f, m) && f(m).main == f(j).main && Inv(f(m)) && f(m).flag
    decreases k - j
  {
    hide Inv, Occurs, CanMove;
    if MainSteps(f, j) {
      m := j;
    } else {
      assert Runs(f, j);
      if Next(f(j), f(j + 1)) {
        var e :| Occurs(f(j), e, f(j + 1));
        NotMain(f, j, e);
        OthersLeaveMain(f(j), e, f(j + 1));
        StepKeeps(f(j), f(j + 1));
      }
      m := NextMainStep(f, j + 1, k);
    }
  }

  // Within four of its steps the main thread tells the watcher to stop.
  lemma {:induction false} WatcherIsTold(f: nat -> State, i: nat) returns (j: nat)
    requires Inv(f(i)) && f(i).flag && MainScheduled(f, i)
    requires forall n: nat :: n >= i ==> Runs(f, n)
    ensures j >= i && Inv(f(j)) && f(j).flag && !f(j).watching
    decreases Ahead(f(i).main)
  {
    hide CallsHold, JobsHold, InOrder, JoinedOnce, CanMove, Occurs, MainSteps, Runs;
    if !f(i).watching {
      j := i;
    } else {
      assert Ahead(f(i).main) >= 9;
      var k: nat :| k >= i && MainSteps(f, k);
      var m := NextMainStep(f, i, k);
      MainNears(f, m);
      j := WatcherIsTold(f, m + 1);
    }
  }

  lemma MainNears(f: nat -> State, m: nat)
    requires Inv(f(m)) && f(m).flag && Ahead(f(m).main) >= 9 && MainSteps(f, m)
    ensures Inv(f(m + 1)) && f(m + 1).flag && Ahead(f(m + 1).main) < Ahead(f(m).main)
  {
    hide Inv, Acts, EnqueueAll, Join, ShutAll, Answer, Resume;
    var accept :| Occurs(f(m), MainStep(accept), f(m + 1));
    StepKeeps(f(m), f(m + 1));
  }

  // Shutdown completes from the moment the flag is set, if the main thread goes on being
  // scheduled until it waits; all else is as the schedule and the clients will have it.
  lemma ShutdownFromFlag(f: nat -> State, i: nat)
    requires Inv(f(i)) && f(i).flag && MainScheduled(f, i)
    requires forall j: nat :: j >= i ==> Runs(f, j)
    ensures exists j: nat :: j >= i && f(j).main.Final?
  {
    hide Inv, Runs, MainScheduled;
    var j := WatcherIsTold(f, i);
    ShutdownCompletes(f, j);
  }

  lemma {:induction false} RunKeeps(f: nat -> State, i: nat, j: nat)
    requires Inv(f(i)) && i <= j && forall n: nat :: n >= i ==> Runs(f, n)
    ensures Inv(f(j))
    decreases j - i
  {
    hide Inv, Next, CanMove;
    if i < j {
      RunKeeps(f, i, j - 1);
      assert Runs(f, j - 1);
      if Next(f(j - 1), f(j)) {
        StepKeeps(f(j - 1), f(j));
      }
    }
  }

  // A run that goes on while it can reaches the end exactly if it ever tells the watcher to stop.
  lemma EndsIffWatcherTold(f: nat -> State, i: nat)
    requires Inv(f(i)) && f(i).flag && forall j: nat :: j >= i ==> Runs(f, j)
    ensures (exists j: nat :: j >= i && f(j).main.Final?) <==> (exists j: nat :: j >= i && !f(j).watching)
  {
    hide Runs;
    if j: nat :| j >= i && f(j).main.Final? {
      RunKeeps(f, i, j);
      assert !f(j).watching by {
        FinalToldWatcher(f(j));
      }
    }
    if j: nat :| j >= i && !f(j).watching {
      RunKeeps(f, i, j);
      FlagKept(f, i, j);
      ShutdownCompletes(f, j);
    }
  }

  lemma FinalToldWatcher(s: State)
    requires Inv(s) && s.main.Final?
    ensures !s.watching
  {
    hide CallsHold, JobsHold, InOrder, JoinedOnce;
  }

  lemma {:induction false} FlagKept(f: nat -> State, i: nat, j: nat)
    requires f(i).flag && i <= j && forall n: nat :: n >= i ==> Runs(f, n)
    ensures f(j).flag
    decreases j - i
  {
    hide Occurs, CanMove;
    if i < j {
      FlagKept(f, i, j - 1);
      assert Runs(f, j - 1);
      if Next(f(j - 1), f(j)) {
        var e :| Occurs(f(j - 1), e, f(j));
        match e
        case MainStep(accept) => MainKeepsFlag(f(j - 1), accept, f(j));
        case _ => OthersLeaveMain(f(j - 1), e, f(j));
      }
    }
  }

  lemma MainKeepsFlag(s: State, accept: bool, s': State)
    requires Occurs(s, MainStep(accept), s')
    ensures s'.flag == s.flag
  {
    hide EnqueueAll, Acts, Answer, Resume, MainMoves;
    FlagStays(s, accept, s');
  }

  // Without the main thread being scheduled it may not: a run in which only the watcher is.
  ghost function OnlyWatcher(j: nat): State {
    State(true, Check, true, if j % 2 == 0 then Loop else Scan, [], [], [], false, WIdle, 0, [], [], false, EIdle)
  }

  lemma OnlyWatcherNeverEnds(j: nat)
    ensures Inv(OnlyWatcher(j)) && OnlyWatcher(j).flag && !OnlyWatcher(j).main.Final?
    ensures Next(OnlyWatcher(j), OnlyWatcher(j + 1))
  {
    hide CallsHold, JobsHold, InOrder, Staged, JoinedOnce, MainMoves, Acts, Answer, Resume, Join;
    var s, s' := OnlyWatcher(j), OnlyWatcher(j + 1);
    NothingYet(s);
    if j % 2 == 0 {
      assert Occurs(s, WatchCheck, s');
    } else {
      assert Occurs(s, WatchScan([]), s');
    }
  }

  lemma NothingYet(s: State)
    requires s == State(true, Check, true, s.watcher, [], [], [], false, WIdle, 0, [], [], false, EIdle)
    requires !s.watcher.Stopped?
    ensures Inv(s)
  {
  }
}
