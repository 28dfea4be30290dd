// The debounce of file events: an index is reindexed once its events have settled.

module Debounce {
  import opened Options

  const NANOS_PER_MILLI := 1_000_000

  // Division of a duration truncates toward zero.
  function ElapsedMillis(now: int, mark: int): int {
    if now >= mark then (now - mark) / NANOS_PER_MILLI else -((mark - now) / NANOS_PER_MILLI)
  }

  predicate Settled(now: int, mark: int, debounceMs: int) {
    ElapsedMillis(now, mark) >= debounceMs
  }

  // For a positive debounce the mark is at least that old.  For a debounce of zero or
  // less, truncation also admits a mark up to a millisecond after the clock sample.
  lemma SettledIff(now: int, mark: int, debounceMs: int)
    ensures Settled(now, mark, debounceMs) <==>
            if debounceMs > 0 then now - mark >= debounceMs * NANOS_PER_MILLI
            else now - mark > (debounceMs - 1) * NANOS_PER_MILLI
  {
  }

  // The debounce settings: one for all indexes, and overrides.
  datatype Settings = Settings(global: int, perIndex: map<string, int>)

  function DebounceOf(c: Settings, idx: string): int {
    if idx in c.perIndex then c.perIndex[idx] else c.global
  }

  // The indexes a scan at clock sample `now` collects.
  function Collected(c: Settings, pending: map<string, int>, now: int): set<string> {
    set idx | idx in pending && Settled(now, pending[idx], DebounceOf(c, idx))
  }

  // The age of a mark that a scan requires, by the index's own debounce if it has one.
  ghost predicate Due(c: Settings, mark: int, now: int, idx: string) {
    var ms := if idx in c.perIndex then c.perIndex[idx] else c.global;
    if ms > 0 then now - mark >= ms * NANOS_PER_MILLI else now - mark > (ms - 1) * NANOS_PER_MILLI
  }

  lemma CollectedIs(c: Settings, pending: map<string, int>, now: int)
    ensures forall idx :: idx in Collected(c, pending, now) <==>
                          idx in pending && Settled(now, pending[idx], DebounceOf(c, idx))
    ensures forall idx :: idx in Collected(c, pending, now) <==> idx in pending && Due(c, pending[idx], now, idx)
  {
    forall idx | idx in pending
      ensures Settled(now, pending[idx], DebounceOf(c, idx)) <==> Due(c, pending[idx], now, idx)
    {
      SettledIff(now, pending[idx], DebounceOf(c, idx));
    }
  }

  // Which file names of a directory count as a change.
  predicate Relevant(filename: string, exts: map<string, set<string>>, idx: string) {
    if filename == "" || idx !in exts then true
    else
      var dot := LastDot(filename, |filename|);
      filename[0] != '.' && dot >= 0 && filename[dot + 1..] in exts[idx]
  }

  function LastDot(s: string, bound: nat): (r: int)
    requires bound <= |s|
    ensures -1 <= r < bound
  {
    if bound == 0 then -1 else if s[bound - 1] == '.' then bound - 1 else LastDot(s, bound - 1)
  }

  lemma {:induction false} LastDotIs(s: string, bound: nat)
    requires bound <= |s|
    ensures var r := LastDot(s, bound); (r >= 0 ==> s[r] == '.') && forall k :: r < k < bound ==> s[k] != '.'
  {
    if bound > 0 && s[bound - 1] != '.' {
      LastDotIs(s, bound - 1);
    }
  }

  // What follows the last dot of the name is one of these extensions.
  ghost predicate HasExtension(filename: string, exts: set<string>) {
    exists d :: 0 <= d < |filename| && filename[d] == '.' && filename[d + 1..] in exts &&
      forall k :: d < k < |filename| ==> filename[k] != '.'
  }

  lemma ExtensionAt(filename: string, exts: set<string>)
    ensures var dot := LastDot(filename, |filename|);
            HasExtension(filename, exts) <==> dot >= 0 && filename[dot + 1..] in exts
  {
    LastDotIs(filename, |filename|);
  }

  // A change counts if no name is known or the index watches all files, and otherwise exactly if
  // the file is not hidden and has one of the index's extensions.
  lemma RelevantIff(filename: string, exts: map<string, set<string>>, idx: string)
    ensures Relevant(filename, exts, idx) <==>
            filename == "" || idx !in exts || (filename[0] != '.' && HasExtension(filename, exts[idx]))
  {
    hide LastDot, HasExtension;
    if idx in exts {
      ExtensionAt(filename, exts[idx]);
    }
  }

  class Watcher {
    const settings: Settings
    const dirToIndex: map<string, string>
    const indexExts: map<string, set<string>>
    var pending: map<string, int>

    constructor (settings: Settings, dirToIndex: map<string, string>, indexExts: map<string, set<string>>)
      ensures this.settings == settings && this.dirToIndex == dirToIndex && this.indexExts == indexExts
      ensures pending == map[]
    {
      this.settings, this.dirToIndex, this.indexExts, pending := settings, dirToIndex, indexExts, map[];
    }

    // mark_changed; the clock is read under the lock.
    method MarkChanged(dir: string, filename: string, now: int)
      modifies this
      ensures pending ==
              if dir in dirToIndex && Relevant(filename, indexExts, dirToIndex[dir])
              then old(pending)[dirToIndex[dir] := now] else old(pending)
    {
      if dir !in dirToIndex {
        return;
      }
      var idx := dirToIndex[dir];
      if filename != "" && idx in indexExts {
        if filename[0] == '.' {
          return;
        }
        var dot := LastDot(filename, |filename|);
        if dot >= 0 {
          if filename[dot + 1..] !in indexExts[idx] {
            return;
          }
        } else {
          return;
        }
      }
      pending := pending[idx := now];
    }

    // The locked part of one round of debounce_loop.
    method Scan(now: int) returns (ready: seq<string>)
      modifies this
      ensures forall idx :: idx in ready <==> idx in Collected(settings, old(pending), now)
      ensures forall idx :: idx in ready <==> idx in old(pending) && Due(settings, old(pending)[idx], now, idx)
      ensures |ready| == |Collected(settings, old(pending), now)|
      ensures pending == old(pending) - Collected(settings, old(pending), now)
    {
      hide Settled, DebounceOf, Collected, Due;
      ghost var before := pending;
      ghost var collected := Collected(settings, before, now);
      CollectedIs(settings, before, now);
      ready := [];
      var todo := pending.Keys;
      ghost var taken: set<string> := {};
      while todo != {}
        invariant todo <= pending.Keys && todo !! taken
        invariant forall x :: x in taken <==> x in collected && x !in todo
        invariant |ready| == |taken|
        invariant forall x :: x in ready <==> x in taken
        invariant pending == before - taken
        decreases |todo|
      {
        var idx :| idx in todo;
        todo := todo - {idx};
        var settled := IsSettled(now, pending[idx], idx);
        if settled {
          ready := ready + [idx];
          taken := taken + {idx};
          pending := pending - {idx};
          assert pending == before - taken;
        }
      }
      assert taken == collected;
    }

    method IsSettled(now: int, mark: int, idx: string) returns (settled: bool)
      ensures settled <==> Settled(now, mark, DebounceOf(settings, idx))
    {
      var elapsed := ElapsedMillis(now, mark);
      var debounce := settings.global;
      if idx in settings.perIndex {
        debounce := settings.perIndex[idx];
      }
      settled := elapsed >= debounce;
    }
  }

  // ---- Runs: marks interleave with every part of a debounce round ----

  datatype Event =
    | Mark(idx: string, at: int)   // an event recorded for an index
    | Sample(now: int)             // the clock read before taking the lock
    | Scan                         // the locked pass over the pending marks
    | Fire(idx: string)            // the callback, after the lock is released

  // Where a round stands: between clock sample and scan, or firing what was collected
  // (and, once nothing is left, sleeping).
  datatype Phase = Sampled(now: int) | Firing(ready: set<string>)

  datatype State = State(pending: map<string, int>, phase: Phase, clock: int)

  predicate Ready(s: State, idx: string) {
    s.phase.Firing? && idx in s.phase.ready
  }

  predicate Enabled(s: State, e: Event) {
    match e
    case Mark(_, at) => at >= s.clock
    case Sample(now) => now >= s.clock && s.phase == Firing({})
    case Scan => s.phase.Sampled?
    case Fire(idx) => Ready(s, idx)
  }

  function Next(c: Settings, s: State, e: Event): State
    requires Enabled(s, e)
  {
    match e
    case Mark(idx, at) => s.(pending := s.pending[idx := at], clock := at)
    case Sample(now) => s.(phase := Sampled(now), clock := now)
    case Scan =>
      var taken := Collected(c, s.pending, s.phase.now);
      s.(pending := s.pending - taken, phase := Firing(taken))
    case Fire(idx) => s.(phase := Firing(s.phase.ready - {idx}))
  }

  // The events of a run, one possible after the other, from s on.
  predicate Run(c: Settings, s: State, es: seq<Event>)
    decreases |es|
  {
    es != [] ==> Enabled(s, es[0]) && Run(c, Next(c, s, es[0]), es[1..])
  }

  function After(c: Settings, s: State, es: seq<Event>): State
    requires Run(c, s, es)
    decreases |es|
  {
    if es == [] then s else After(c, Next(c, s, es[0]), es[1..])
  }

  const Idle := State(map[], Firing({}), 0)

  // A recorded mark is never lost: at the end of any run in which it is not yet followed
  // by a fire, the index is still pending, with this mark or a later one, or about to fire.
  lemma {:induction false} MarkNotLost(c: Settings, s: State, es: seq<Event>, idx: string, t: int)
    requires Run(c, s, es)
    requires Ready(s, idx) || (idx in s.pending && t <= s.pending[idx])
    requires t <= s.clock && Fire(idx) !in es
    ensures var r := After(c, s, es); Ready(r, idx) || (idx in r.pending && t <= r.pending[idx])
    decreases |es|
  {
    if es != [] {
      var e := es[0];
      assert e in es && forall x :: x in es[1..] ==> x in es;
      MarkNotLost(c, Next(c, s, e), es[1..], idx, t);
    }
  }

  ghost predicate Quiet(es: seq<Event>, idx: string) {
    forall k :: 0 <= k < |es| ==> !(es[k].Mark? && es[k].idx == idx)
  }

  // Once the marks of an index stop, it fires: a clock sample old enough and one more
  // round of the loop are all it takes.
  lemma {:induction false} FiresWhenQuiet(
      c: Settings, s: State, es: seq<Event>, idx: string, t: int, j: nat, k: nat)
    requires Run(c, s, es) && Quiet(es, idx)
    requires Ready(s, idx) || (idx in s.pending && s.pending[idx] == t)
    requires j < k < |es| && es[j].Sample? && es[k].Sample?
    requires Settled(es[j].now, t, DebounceOf(c, idx))
    ensures Fire(idx) in es
    decreases |es|
  {
    var e := es[0];
    var n := Next(c, s, e);
    if e == Fire(idx) {
    } else if j > 0 {
      QuietTail(es, idx);
      FiresWhenQuiet(c, n, es[1..], idx, t, j - 1, k - 1);
    } else {
      QuietTail(es, idx);
      FiresFrom(c, n, es[1..], idx, t, k - 1);
    }
  }

  lemma QuietTail(es: seq<Event>, idx: string)
    requires es != [] && Quiet(es, idx)
    ensures Quiet(es[1..], idx) && !(es[0].Mark? && es[0].idx == idx)
    ensures forall x :: x in es[1..] ==> x in es
  {
    forall k | 0 <= k < |es| - 1
      ensures !(es[1..][k].Mark? && es[1..][k].idx == idx)
    {
      assert es[1..][k] == es[k + 1];
    }
  }

  // From a sample that the mark is old enough for, or once collected, the index fires
  // before the next sample.
  lemma {:induction false} FiresFrom(c: Settings, s: State, es: seq<Event>, idx: string, t: int, k: nat)
    requires Run(c, s, es) && Quiet(es, idx)
    requires k < |es| && es[k].Sample?
    requires Ready(s, idx) || (s.phase.Sampled? && idx in s.pending && s.pending[idx] == t
                               && Settled(s.phase.now, t, DebounceOf(c, idx)))
    ensures Fire(idx) in es
    decreases |es|
  {
    var e := es[0];
    if e != Fire(idx) {
      QuietTail(es, idx);
      assert k > 0;
      FiresFrom(c, Next(c, s, e), es[1..], idx, t, k - 1);
    }
  }

  // The last mark of an index in a run.
  ghost function LastMark(es: seq<Event>, idx: string): Option<int> {
    if es == [] then None
    else
      var e := es[|es| - 1];
      if e.Mark? && e.idx == idx then Some(e.at) else LastMark(es[..|es| - 1], idx)
  }

  lemma {:induction false} RunPrefix(c: Settings, s: State, es: seq<Event>, n: nat)
    requires Run(c, s, es) && n < |es|
    ensures Run(c, s, es[..n]) && Enabled(After(c, s, es[..n]), es[n])
    ensures Run(c, s, es[..n + 1])
    ensures After(c, s, es[..n + 1]) == Next(c, After(c, s, es[..n]), es[n])
    decreases |es|
  {
    if n > 0 {
      RunPrefix(c, Next(c, s, es[0]), es[1..], n - 1);
      assert es[..n][1..] == es[1..][..n - 1];
      assert es[..n + 1][1..] == es[1..][..n];
    } else {
      assert es[..1][1..] == [];
    }
  }

  // What is pending is always the last mark recorded.
  lemma {:induction false} PendingIsLastMark(c: Settings, es: seq<Event>, idx: string)
    requires Run(c, Idle, es)
    ensures idx in After(c, Idle, es).pending ==> LastMark(es, idx) == Some(After(c, Idle, es).pending[idx])
  {
    if es != [] {
      var n := |es| - 1;
      RunPrefix(c, Idle, es, n);
      assert es[..n + 1] == es;
      PendingIsLastMark(c, es[..n], idx);
    }
  }

  // The scan at position j, with its clock sample, found the last mark of idx settled.
  ghost predicate CollectedAt(c: Settings, es: seq<Event>, j: nat, idx: string) {
    && j < |es| && es[j].Scan?
    && Run(c, Idle, es[..j])
    && After(c, Idle, es[..j]).phase.Sampled?
    && LastMark(es[..j], idx).Some?
    && Settled(After(c, Idle, es[..j]).phase.now, LastMark(es[..j], idx).value, DebounceOf(c, idx))
  }

  // Whatever is ready to fire was collected by the latest scan.
  lemma {:induction false} ReadyWasCollected(c: Settings, es: seq<Event>, idx: string) returns (j: nat)
    requires Run(c, Idle, es) && Ready(After(c, Idle, es), idx)
    ensures CollectedAt(c, es, j, idx)
    ensures Fire(idx) !in es[j..]
  {
    var n := |es| - 1;
    RunPrefix(c, Idle, es, n);
    assert es[..n + 1] == es;
    if es[n].Scan? {
      j := n;
      PendingIsLastMark(c, es[..n], idx);
    } else {
      j := ReadyWasCollected(c, es[..n], idx);
      assert es[..n][..j] == es[..j];
      assert es[j..] == es[..n][j..] + [es[n]];
    }
  }

  // A reindex fires only for an index whose last mark, at the scan that decided it, was
  // settled; each scan's decision fires at most once.
  lemma FireIsDue(c: Settings, es: seq<Event>, k: nat, idx: string) returns (j: nat)
    requires Run(c, Idle, es) && k < |es| && es[k] == Fire(idx)
    ensures j < k && CollectedAt(c, es, j, idx)
    ensures Fire(idx) !in es[j..k]
  {
    RunPrefix(c, Idle, es, k);
    j := ReadyWasCollected(c, es[..k], idx);
    assert es[..k][..j] == es[..j];
    assert es[..k][j..] == es[j..k];
  }
}
