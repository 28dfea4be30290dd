// The queues and the registry take the steps of the state machine.

module ThreadSteps {
  import opened Shutdown
  import opened Threads

  ghost predicate Reaches(s: State, s': State) {
    exists ss: seq<State> ::
      ss != [] && ss[0] == s && ss[|ss| - 1] == s' &&
      forall i :: 0 < i < |ss| ==> Shutdown.Next(ss[i - 1], ss[i])
  }

  lemma ReachesItself(s: State)
    ensures Reaches(s, s)
  {
    assert [s][0] == s;
  }

  lemma ReachesOneMore(s: State, s1: State, s2: State)
    requires Reaches(s, s1) && Shutdown.Next(s1, s2)
    ensures Reaches(s, s2)
  {
    hide Shutdown.Next;
    var ss: seq<State> :|
      ss != [] && ss[0] == s && ss[|ss| - 1] == s1 && forall i :: 0 < i < |ss| ==> Shutdown.Next(ss[i - 1], ss[i]);
    var more := ss + [s2];
    assert more[0] == s && more[|more| - 1] == s2;
    forall i | 0 < i < |more|
      ensures Shutdown.Next(more[i - 1], more[i])
    {
      assert more[i - 1] == ss[i - 1];
    }
  }

  // ---- the two worker queues ----

  // The writer's queue, and the embedder's, as the state has them.
  ghost predicate HoldsJobs(q: WorkQueue<Task>, s: State)
    reads q
  {
    q.queue == s.wq && q.stop == s.wstop
  }

  ghost predicate HoldsCalls(q: WorkQueue<int>, s: State)
    reads q
  {
    q.queue == s.eq && q.stop == s.estop
  }

  // A handler submits a job, waiting for it or not.
  method HandlerSubmits(q: WorkQueue<Task>, task: Task, ghost s: State, ghost id: nat) returns (ghost s': State)
    requires HoldsJobs(q, s) && id < |s.hs| && s.hs[id].pc.Busy? && s.hs[id].pc.todo != []
    requires var a := s.hs[id].pc.todo[0];
             && task.ticket == s.submitted && !a.Embed? && a.embeds == task.embeds
             && task.waiter == if a.SubmitWait? then id else NOBODY
    modifies q
    ensures HoldsJobs(q, s') && Occurs(s, Act(id), s')
  {
    s' := ActTo(s, id);
    q.Push(task);
  }

  // A handler asks for an embedding.
  method HandlerEmbeds(q: WorkQueue<int>, who: int, ghost s: State) returns (ghost s': State)
    requires HoldsCalls(q, s) && 0 <= who < |s.hs| && s.hs[who].pc.Busy?
    requires s.hs[who].pc.todo != [] && s.hs[who].pc.todo[0].Embed?
    modifies q
    ensures HoldsCalls(q, s') && Occurs(s, Act(who), s')
  {
    s' := ActTo(s, who);
    q.Push(who);
  }

  // So does the writer, from inside a job.
  method WriterEmbeds(q: WorkQueue<int>, ghost s: State) returns (ghost s': State)
    requires HoldsCalls(q, s) && s.writer.WRun? && s.writer.left > 0
    modifies q
    ensures HoldsCalls(q, s') && Occurs(s, WriterEmbed, s')
  {
    s' := s.(writer := WEmbed(s.writer.task, s.writer.left - 1), eq := s.eq + [WRITER]);
    q.Push(WRITER);
  }

  // The writer's wait: it takes the oldest job, leaves, or has no step to take.
  method WriterTakes(q: WorkQueue<Task>, ghost s: State) returns (r: Threads.Next<Task>, ghost s': State)
    requires HoldsJobs(q, s) && s.writer.WIdle?
    modifies q
    ensures HoldsJobs(q, s')
    ensures match r
            case Item(task) => Occurs(s, WriterTake, s') && s'.writer == WRun(task, task.embeds)
            case Leave => Occurs(s, WriterExit, s')
            case Wait => s' == s && forall s1 :: !Occurs(s, WriterTake, s1) && !Occurs(s, WriterExit, s1)
  {
    s' := if s.wq != [] then s.(writer := WRun(s.wq[0], s.wq[0].embeds), wq := s.wq[1..])
          else if s.wstop then s.(writer := WExited) else s;
    r := q.TakeNext();
  }

  // The embedder's.
  method EmbedderTakes(q: WorkQueue<int>, ghost s: State) returns (r: Threads.Next<int>, ghost s': State)
    requires HoldsCalls(q, s) && s.embed.EIdle?
    modifies q
    ensures HoldsCalls(q, s')
    ensures match r
            case Item(who) => Occurs(s, EmbedTake, s') && s'.embed == EWork(who)
            case Leave => Occurs(s, EmbedExit, s')
            case Wait => s' == s && forall s1 :: !Occurs(s, EmbedTake, s1) && !Occurs(s, EmbedExit, s1)
  {
    s' := if s.eq != [] then s.(embed := EWork(s.eq[0]), eq := s.eq[1..])
          else if s.estop then s.(embed := EExited) else s;
    r := q.TakeNext();
  }

  // The destructors' first steps.
  method StopWriter(q: WorkQueue<Task>, ghost s: State) returns (ghost s': State)
    requires HoldsJobs(q, s) && s.main.StopQueue?
    modifies q
    ensures HoldsJobs(q, s') && Occurs(s, MainStep(false), s')
  {
    s' := s.(wstop := true, main := JoinWriter);
    q.RequestStop();
  }

  method StopEmbedder(q: WorkQueue<int>, ghost s: State) returns (ghost s': State)
    requires HoldsCalls(q, s) && s.main.StopEmbed?
    modifies q
    ensures HoldsCalls(q, s') && Occurs(s, MainStep(false), s')
  {
    s' := s.(estop := true, main := JoinEmbed);
    q.RequestStop();
  }

  // ---- the registry ----

  ghost function Ids(joins: seq<nat>): seq<nat> {
    seq(|joins|, i requires 0 <= i < |joins| => joins[i] + 1)
  }

  // Handler id of the registry is handler id - 1 of the state.
  ghost predicate Registers(handlers: map<nat, bool>, nextId: nat, joined: seq<nat>, s: State) {
    && nextId == |s.hs| + 1 && joined == Ids(s.joins)
    && (forall id :: id in handlers ==> 1 <= id < nextId)
    && forall id: nat :: 1 <= id < nextId ==> Agree(handlers, s.hs, id)
  }

  ghost predicate Agree(handlers: map<nat, bool>, hs: seq<Handler>, id: nat)
    requires 1 <= id <= |hs|
  {
    && (id in handlers <==> !hs[id - 1].joined)
    && (id in handlers ==> (handlers[id] <==> hs[id - 1].pc.Exited?))
  }

  // The accept loop registers a handler for each connection.
  method Accepts(r: HandlerRegistry, ghost s: State) returns (ghost s': State)
    requires r.Valid() && Registers(r.handlers, r.nextId, r.joined, s) && (s.main.Select? || s.main.Tcp?)
    modifies r
    ensures r.Valid() && Registers(r.handlers, r.nextId, r.joined, s') && Occurs(s, MainStep(true), s')
  {
    s' := Accepted(s).(main := if s.main.Select? then Tcp else Check);
    AcceptRegisters(r.handlers, r.nextId, r.joined, s, s');
    var id := r.Spawn();
  }

  lemma AcceptRegisters(handlers: map<nat, bool>, nextId: nat, joined: seq<nat>, s: State, s': State)
    requires Registers(handlers, nextId, joined, s) && s'.hs == Accepted(s).hs && s'.joins == s.joins
    ensures Registers(handlers[nextId := false], nextId + 1, joined, s')
  {
    var more := handlers[nextId := false];
    forall id: nat | 1 <= id < nextId + 1
      ensures Agree(more, s'.hs, id)
    {
      assert id < nextId ==> Agree(handlers, s.hs, id);
    }
  }

  ghost function WithoutFinished(handlers: map<nat, bool>, n: nat): map<nat, bool> {
    map id | id in handlers && (id >= n || !handlers[id]) :: handlers[id]
  }

  ghost function From(handlers: map<nat, bool>, n: nat): map<nat, bool> {
    map id | id in handlers && id >= n :: handlers[id]
  }

  lemma RegisteredAt(handlers: map<nat, bool>, nextId: nat, joined: seq<nat>, s: State, id: nat)
    requires Registers(handlers, nextId, joined, s) && (id in handlers || 1 <= id <= |s.hs|)
    ensures 1 <= id <= |s.hs| && Agree(handlers, s.hs, id)
  {
  }

  lemma JoinRegisters(handlers: map<nat, bool>, nextId: nat, joined: seq<nat>, s: State, id: nat, s': State)
    requires Registers(handlers, nextId, joined, s) && id in handlers && 1 <= id <= |s.hs|
    requires s'.hs == Join(s, id - 1).hs && s'.joins == Join(s, id - 1).joins
    ensures Registers(handlers - {id}, nextId, joined + [id], s')
  {
    assert Agree(handlers, s.hs, id);
    assert Ids(s'.joins) == Ids(s.joins) + [id];
    forall k: nat | 1 <= k < nextId
      ensures Agree(handlers - {id}, s'.hs, k)
    {
      assert Agree(handlers, s.hs, k);
    }
  }

  // The finished handlers, joined one after the other.
  lemma {:induction false} ReapsUpTo(
      handlers: map<nat, bool>, nextId: nat, joined: seq<nat>, s: State, n: nat)
    returns (s': State)
    requires Registers(handlers, nextId, joined, s) && s.main.Select? && n <= nextId
    ensures Reaches(s, s') && s'.main == s.main
    ensures Registers(WithoutFinished(handlers, n), nextId, joined + Finished(handlers, n), s')
  {
    hide Registers, Reaches, Occurs;
    if n == 0 {
      ReachesItself(s);
      assert WithoutFinished(handlers, 0) == handlers && joined + [] == joined;
      s' := s;
    } else {
      var id := n - 1;
      var s1 := ReapsUpTo(handlers, nextId, joined, s, id);
      var held, before := WithoutFinished(handlers, id), joined + Finished(handlers, id);
      if id in handlers && handlers[id] {
        s' := ReapsOne(held, nextId, before, s1, id);
        ReachesOneMore(s, s1, s');
        assert WithoutFinished(handlers, n) == held - {id};
        assert joined + Finished(handlers, n) == before + [id];
      } else {
        assert WithoutFinished(handlers, n) == held;
        assert joined + Finished(handlers, n) == before;
        s' := s1;
      }
    }
  }

  lemma ReapsOne(handlers: map<nat, bool>, nextId: nat, joined: seq<nat>, s: State, id: nat) returns (s': State)
    requires Registers(handlers, nextId, joined, s) && s.main.Select? && id in handlers && handlers[id]
    ensures Shutdown.Next(s, s') && s'.main == s.main
    ensures Registers(handlers - {id}, nextId, joined + [id], s')
  {
    hide Registers;
    RegisteredAt(handlers, nextId, joined, s, id);
    s' := Join(s, id - 1);
    JoinRegisters(handlers, nextId, joined, s, id, s');
    assert Occurs(s, Reap(id - 1), s');
  }

  // One tick of the reaper is so many steps of the state machine.
  method Reaps(r: HandlerRegistry, ghost s: State) returns (ghost s': State)
    requires r.Valid() && Registers(r.handlers, r.nextId, r.joined, s) && s.main.Select?
    modifies r
    ensures r.Valid() && Registers(r.handlers, r.nextId, r.joined, s') && Reaches(s, s') && s'.main == s.main
    ensures forall k :: 0 <= k < |s'.hs| && s'.hs[k].pc.Exited? ==> s'.hs[k].joined
  {
    hide Registers, Reaches;
    s' := ReapsUpTo(r.handlers, r.nextId, r.joined, s, r.nextId);
    RegisteredIn(r.handlers, r.nextId, r.joined, s);
    assert WithoutFinished(r.handlers, r.nextId) == Unfinished(r.handlers);
    r.Reap();
    NoneLeft(r.handlers, r.nextId, r.joined, s');
  }

  // With no finished handler registered, every handler that has exited has been joined.
  lemma NoneLeft(handlers: map<nat, bool>, nextId: nat, joined: seq<nat>, s: State)
    requires Registers(handlers, nextId, joined, s) && forall id :: id in handlers ==> !handlers[id]
    ensures forall k :: 0 <= k < |s.hs| && s.hs[k].pc.Exited? ==> s.hs[k].joined
    ensures handlers == map[] ==> forall k :: 0 <= k < |s.hs| ==> s.hs[k].joined
  {
    forall k | 0 <= k < |s.hs|
      ensures s.hs[k].pc.Exited? ==> s.hs[k].joined
      ensures handlers == map[] ==> s.hs[k].joined
    {
      assert Agree(handlers, s.hs, k + 1);
    }
  }

  lemma RegisteredIn(handlers: map<nat, bool>, nextId: nat, joined: seq<nat>, s: State)
    requires Registers(handlers, nextId, joined, s)
    ensures nextId == |s.hs| + 1 && forall id :: id in handlers ==> 1 <= id < nextId
  {
  }

  // The handlers left, joined one after the other, once each has finished.
  lemma {:induction false} JoinsUpTo(
      handlers: map<nat, bool>, nextId: nat, joined: seq<nat>, s: State, n: nat)
    returns (s': State)
    requires Registers(handlers, nextId, joined, s) && s.main == Joining(0) && n <= |s.hs|
    requires forall id :: 0 <= id < |s.hs| ==> s.hs[id].pc.Exited?
    ensures Reaches(s, s') && s'.main == Joining(n) && |s'.hs| == |s.hs|
    ensures forall id :: 0 <= id < |s'.hs| ==> s'.hs[id].pc.Exited?
    ensures Registers(From(handlers, n + 1), nextId, joined + Registered(handlers, n + 1), s')
  {
    hide Registers, Reaches, Occurs;
    RegisteredIn(handlers, nextId, joined, s);
    if n == 0 {
      ReachesItself(s);
      assert From(handlers, 1) == handlers && Registered(handlers, 1) == [] && joined + [] == joined;
      s' := s;
    } else {
      var s1 := JoinsUpTo(handlers, nextId, joined, s, n - 1);
      var held, before := From(handlers, n), joined + Registered(handlers, n);
      s' := JoinsOne(held, nextId, before, s1, n);
      ReachesOneMore(s, s1, s');
      assert From(handlers, n + 1) == held - {n};
      assert joined + Registered(handlers, n + 1) == before + if n in held then [n] else [];
    }
  }

  lemma JoinsOne(handlers: map<nat, bool>, nextId: nat, joined: seq<nat>, s: State, id: nat) returns (s': State)
    requires Registers(handlers, nextId, joined, s) && id >= 1 && s.main == Joining(id - 1)
    requires id <= |s.hs| && s.hs[id - 1].pc.Exited?
    ensures Shutdown.Next(s, s') && s'.main == Joining(id) && |s'.hs| == |s.hs|
    ensures forall k :: 0 <= k < |s.hs| ==> s'.hs[k].pc == s.hs[k].pc
    ensures Registers(handlers - {id}, nextId, joined + if id in handlers then [id] else [], s')
  {
    hide Registers;
    s' := Join(s, id - 1).(main := Joining(id));
    assert Occurs(s, MainStep(false), s');
    if id in handlers {
      JoinRegisters(handlers, nextId, joined, s, id, s');
    } else {
      RegisteredAt(handlers, nextId, joined, s, id);
      RegistersAlone(handlers, nextId, joined, s, s');
      assert handlers - {id} == handlers && joined + [] == joined;
    }
  }

  lemma RegistersAlone(handlers: map<nat, bool>, nextId: nat, joined: seq<nat>, s: State, s': State)
    requires Registers(handlers, nextId, joined, s) && s'.hs == s.hs && s'.joins == s.joins
    ensures Registers(handlers, nextId, joined, s')
  {
  }

  // The last join, once the handlers have finished, is the rest of the joining stage.
  method JoinsAll(r: HandlerRegistry, ghost s: State) returns (ghost s': State)
    requires r.Valid() && Registers(r.handlers, r.nextId, r.joined, s) && s.main == Joining(0)
    requires forall id :: 0 <= id < |s.hs| ==> s.hs[id].pc.Exited?
    modifies r
    ensures r.Valid() && Registers(r.handlers, r.nextId, r.joined, s')
    ensures Reaches(s, s') && s'.main == Joining(|s'.hs|) && forall k :: 0 <= k < |s'.hs| ==> s'.hs[k].joined
  {
    hide Registers, Reaches;
    RegisteredIn(r.handlers, r.nextId, r.joined, s);
    s' := JoinsUpTo(r.handlers, r.nextId, r.joined, s, |s.hs|);
    assert From(r.handlers, r.nextId) == map[];
    r.ShutdownAll();
    NoneLeft(r.handlers, r.nextId, r.joined, s');
  }
}
