// Batched embedding: tokenised texts are packed, in order, into batches that fit
// the model's context, and each text gets the vector of its own tokens.

module Packing {
  import opened Options

  type Token = int
  type Vec = seq<real>

  // One position of a batch handed to the model.
  datatype Slot = Slot(token: Token, pos: nat, seqId: nat)

  const MAX_SEQS := 8

  function Total(seqs: seq<seq<Token>>, lo: nat, hi: nat): nat
    requires lo <= hi <= |seqs|
  {
    if lo == hi then 0 else Total(seqs, lo, hi - 1) + |seqs[hi - 1]|
  }

  // seqs[lo..hi] may form one batch.
  predicate Fits(seqs: seq<seq<Token>>, nCtx: nat, lo: nat, hi: nat)
    requires lo <= hi <= |seqs|
  {
    hi - lo <= MAX_SEQS && Total(seqs, lo, hi) <= nCtx
  }

  lemma {:induction false} TotalSplit(seqs: seq<seq<Token>>, lo: nat, mid: nat, hi: nat)
    requires lo <= mid <= hi <= |seqs|
    ensures Total(seqs, lo, hi) == Total(seqs, lo, mid) + Total(seqs, mid, hi)
  {
    if mid < hi {
      TotalSplit(seqs, lo, mid, hi - 1);
    }
  }

  lemma FitsInside(seqs: seq<seq<Token>>, nCtx: nat, lo: nat, a: nat, b: nat, hi: nat)
    requires lo <= a <= b <= hi <= |seqs| && Fits(seqs, nCtx, lo, hi)
    ensures Fits(seqs, nCtx, a, b)
  {
    TotalSplit(seqs, lo, a, hi);
    TotalSplit(seqs, a, b, hi);
  }

  // A text that no batch can hold.
  predicate Oversize(seqs: seq<seq<Token>>, nCtx: nat, i: nat)
    requires i < |seqs|
  {
    |seqs[i]| > nCtx
  }

  // A way to cut the texts from `from` on into consecutive pieces, given by their ends:
  // every piece is a batch that fits, or one oversize text that is skipped.
  ghost predicate Cut(seqs: seq<seq<Token>>, nCtx: nat, from: nat, ends: seq<nat>)
    requires from <= |seqs|
    decreases |ends|
  {
    if ends == [] then from == |seqs|
    else
      && from < ends[0] <= |seqs|
      && (Fits(seqs, nCtx, from, ends[0]) || (ends[0] == from + 1 && Oversize(seqs, nCtx, from)))
      && Cut(seqs, nCtx, ends[0], ends[1..])
  }

  // The number of batches among the pieces.
  ghost function Batches(seqs: seq<seq<Token>>, nCtx: nat, from: nat, ends: seq<nat>): nat
    requires from <= |seqs| && Cut(seqs, nCtx, from, ends)
    decreases |ends|
  {
    if ends == [] then 0
    else (if Fits(seqs, nCtx, from, ends[0]) then 1 else 0) + Batches(seqs, nCtx, ends[0], ends[1..])
  }

  // hi is as far as a batch starting at lo can reach.
  ghost predicate Furthest(seqs: seq<seq<Token>>, nCtx: nat, lo: nat, hi: nat)
    requires lo <= hi <= |seqs|
  {
    && Fits(seqs, nCtx, lo, hi)
    && forall h :: hi < h <= |seqs| ==> !Fits(seqs, nCtx, lo, h)
  }

  // Every piece is skipped only if it must be and otherwise reaches as far as it can.
  ghost predicate Greedy(seqs: seq<seq<Token>>, nCtx: nat, from: nat, ends: seq<nat>)
    requires from <= |seqs| && Cut(seqs, nCtx, from, ends)
    decreases |ends|
  {
    ends != [] ==>
      && (Fits(seqs, nCtx, from, ends[0]) ==> Furthest(seqs, nCtx, from, ends[0]))
      && Greedy(seqs, nCtx, ends[0], ends[1..])
  }

  // A greedy cut that starts later never needs more batches.
  lemma {:induction false} GreedyMonotone(
      seqs: seq<seq<Token>>, nCtx: nat, i: nat, a: seq<nat>, j: nat, b: seq<nat>)
    requires i <= j <= |seqs|
    requires Cut(seqs, nCtx, i, a) && Greedy(seqs, nCtx, i, a)
    requires Cut(seqs, nCtx, j, b) && Greedy(seqs, nCtx, j, b)
    ensures Batches(seqs, nCtx, j, b) <= Batches(seqs, nCtx, i, a)
    decreases |a| + |b|
  {
    if b == [] {
    } else {
      var e := a[0];
      if e <= j {
        GreedyMonotone(seqs, nCtx, e, a[1..], j, b);
      } else {
        if i == j && !Fits(seqs, nCtx, i, e) {
          TotalSplit(seqs, i, i + 1, b[0]);
          assert Total(seqs, i, i + 1) == Total(seqs, i, i) + |seqs[i]|;
        } else {
          FitsInside(seqs, nCtx, i, j, e, e);
          SingleFits(seqs, nCtx, j, e);
          assert e <= b[0];
        }
        GreedyMonotone(seqs, nCtx, e, a[1..], b[0], b[1..]);
      }
    }
  }

  lemma SingleFits(seqs: seq<seq<Token>>, nCtx: nat, i: nat, hi: nat)
    requires i < hi <= |seqs| && Fits(seqs, nCtx, i, hi)
    ensures !Oversize(seqs, nCtx, i)
  {
    FitsInside(seqs, nCtx, i, i, i + 1, hi);
    assert Total(seqs, i, i + 1) == Total(seqs, i, i) + |seqs[i]|;
  }

  // Greedy stays ahead: no cut of the same texts uses fewer batches.
  lemma {:induction false} GreedyIsFewest(seqs: seq<seq<Token>>, nCtx: nat, i: nat, g: seq<nat>, other: seq<nat>)
    requires i <= |seqs|
    requires Cut(seqs, nCtx, i, g) && Greedy(seqs, nCtx, i, g)
    requires Cut(seqs, nCtx, i, other)
    ensures Batches(seqs, nCtx, i, g) <= Batches(seqs, nCtx, i, other)
    decreases |other|
  {
    if other == [] {
    } else if Fits(seqs, nCtx, i, other[0]) {
      SingleFits(seqs, nCtx, i, other[0]);
      assert other[0] <= g[0];
      var rest := GreedyExists(seqs, nCtx, other[0]);
      GreedyIsFewest(seqs, nCtx, other[0], rest, other[1..]);
      GreedyMonotone(seqs, nCtx, other[0], rest, g[0], g[1..]);
    } else {
      if Fits(seqs, nCtx, i, g[0]) {
        SingleFits(seqs, nCtx, i, g[0]);
      }
      GreedyIsFewest(seqs, nCtx, i + 1, g[1..], other[1..]);
    }
  }

  lemma GreedyExists(seqs: seq<seq<Token>>, nCtx: nat, from: nat) returns (ends: seq<nat>)
    requires from <= |seqs|
    ensures Cut(seqs, nCtx, from, ends) && Greedy(seqs, nCtx, from, ends)
    decreases |seqs| - from
  {
    if from == |seqs| {
      ends := [];
    } else {
      var e := from;
      while e < |seqs| && Fits(seqs, nCtx, from, e + 1)
        invariant from <= e <= |seqs| && Fits(seqs, nCtx, from, e)
      {
        e := e + 1;
      }
      FurthestHere(seqs, nCtx, from, e);
      if e == from {
        e := from + 1;
        assert Total(seqs, from, from + 1) == Total(seqs, from, from) + |seqs[from]|;
      }
      var rest := GreedyExists(seqs, nCtx, e);
      ends := [e] + rest;
      assert ends[1..] == rest;
    }
  }

  lemma FurthestHere(seqs: seq<seq<Token>>, nCtx: nat, lo: nat, hi: nat)
    requires lo <= hi <= |seqs| && Fits(seqs, nCtx, lo, hi)
    requires hi < |seqs| ==> !Fits(seqs, nCtx, lo, hi + 1)
    ensures Furthest(seqs, nCtx, lo, hi)
  {
    forall h | hi < h <= |seqs|
      ensures !Fits(seqs, nCtx, lo, h)
    {
      if Fits(seqs, nCtx, lo, h) {
        FitsInside(seqs, nCtx, lo, lo, hi + 1, h);
      }
    }
  }

  function Tag(tokens: seq<Token>, id: nat): seq<Slot> {
    seq(|tokens|, t requires 0 <= t < |tokens| => Slot(tokens[t], t, id))
  }

  // The slots of the batch of seqs[lo..hi].
  ghost function Slots(seqs: seq<seq<Token>>, lo: nat, hi: nat): (r: seq<Slot>)
    requires lo <= hi <= |seqs|
    ensures |r| == Total(seqs, lo, hi)
  {
    if lo == hi then [] else Slots(seqs, lo, hi - 1) + Tag(seqs[hi - 1], hi - 1 - lo)
  }

  // What a batch is limited to: eight texts, and as many slots as the model's context has.
  lemma FitsIff(seqs: seq<seq<Token>>, nCtx: nat, lo: nat, hi: nat)
    requires lo <= hi <= |seqs|
    ensures Fits(seqs, nCtx, lo, hi) <==> hi - lo <= 8 && |Slots(seqs, lo, hi)| <= nCtx
  {
  }

  // What the model sees as the sequence numbered `id`: its tokens, each at its position.
  datatype Placed = Placed(token: Token, pos: nat)

  ghost function ViewOf(slots: seq<Slot>, id: nat): seq<Placed> {
    if slots == [] then []
    else
      var last := slots[|slots| - 1];
      ViewOf(slots[..|slots| - 1], id) + if last.seqId == id then [Placed(last.token, last.pos)] else []
  }

  // A text embedded alone: its tokens at the positions 0, 1, 2 and so on.
  ghost function InOrder(tokens: seq<Token>): (r: seq<Placed>)
    ensures |r| == |tokens| && forall t :: 0 <= t < |tokens| ==> r[t].token == tokens[t] && r[t].pos == t
  {
    seq(|tokens|, t requires 0 <= t < |tokens| => Placed(tokens[t], t))
  }

  lemma {:induction false} ViewOfAppend(a: seq<Slot>, b: seq<Slot>, id: nat)
    ensures ViewOf(a + b, id) == ViewOf(a, id) + ViewOf(b, id)
  {
    if b == [] {
      assert a + b == a;
    } else {
      var n := |b| - 1;
      assert (a + b)[..|a + b| - 1] == a + b[..n];
      ViewOfAppend(a, b[..n], id);
    }
  }

  lemma {:induction false} ViewOfTag(tokens: seq<Token>, own: nat, id: nat)
    ensures ViewOf(Tag(tokens, own), id) == if id == own then InOrder(tokens) else []
  {
    if tokens != [] {
      var n := |tokens| - 1;
      assert Tag(tokens, own)[..n] == Tag(tokens[..n], own);
      assert InOrder(tokens) == InOrder(tokens[..n]) + [Placed(tokens[n], n)];
      ViewOfTag(tokens[..n], own, id);
    }
  }

  // Each text of the batch is seen whole, in order and unmixed under its own number, its
  // positions counted from 0.
  lemma {:induction false} BatchSeparates(seqs: seq<seq<Token>>, lo: nat, hi: nat, id: nat)
    requires lo <= hi <= |seqs|
    ensures var view := ViewOf(Slots(seqs, lo, hi), id);
            if lo + id < hi then
              && |view| == |seqs[lo + id]|
              && forall t :: 0 <= t < |view| ==> view[t] == Placed(seqs[lo + id][t], t)
            else view == []
  {
    hide Tag, ViewOf, Total;
    if lo == hi {
      assert ViewOf([], id) == [] by { NoTokens(id); }
    } else {
      BatchSeparates(seqs, lo, hi - 1, id);
      ViewOfAppend(Slots(seqs, lo, hi - 1), Tag(seqs[hi - 1], hi - 1 - lo), id);
      ViewOfTag(seqs[hi - 1], hi - 1 - lo, id);
    }
  }

  lemma NoTokens(id: nat)
    ensures ViewOf([], id) == []
  {
  }

  // The model: encoding a batch may fail; when it succeeds it yields the pooled vector of
  // each sequence number, or none for that number.
  datatype Model = Model(encode: seq<Slot> -> Option<nat -> Option<Vec>>)

  // A sequence's vector depends on the tokens and positions seen under its number alone.
  ghost predicate Pools(m: Model, embed: seq<Placed> -> Vec) {
    forall slots, id: nat ::
      m.encode(slots).Some? && ViewOf(slots, id) != [] && m.encode(slots).value(id).Some? ==>
        m.encode(slots).value(id).value == embed(ViewOf(slots, id))
  }

  ghost predicate NeverFails(m: Model) {
    forall slots :: m.encode(slots).Some? &&
      forall id: nat :: ViewOf(slots, id) != [] ==> m.encode(slots).value(id).Some?
  }

  // The packing loop: how far the batch that starts at i extends.
  method Pack(seqs: seq<seq<Token>>, nCtx: nat, i: nat) returns (batchEnd: nat, totalTokens: nat)
    requires i < |seqs|
    ensures i <= batchEnd <= |seqs| && Furthest(seqs, nCtx, i, batchEnd)
    ensures totalTokens == Total(seqs, i, batchEnd)
    ensures batchEnd == i <==> Oversize(seqs, nCtx, i)
  {
    totalTokens, batchEnd := 0, i;
    while batchEnd < |seqs| && batchEnd - i < MAX_SEQS
      invariant i <= batchEnd <= |seqs|
      invariant totalTokens == Total(seqs, i, batchEnd) && Fits(seqs, nCtx, i, batchEnd)
      decreases |seqs| - batchEnd
    {
      var seqLen := |seqs[batchEnd]|;
      if seqLen == 0 {
        batchEnd := batchEnd + 1;
        continue;
      }
      if totalTokens + seqLen > nCtx {
        break;
      }
      totalTokens := totalTokens + seqLen;
      batchEnd := batchEnd + 1;
    }
    FurthestHere(seqs, nCtx, i, batchEnd);
    assert Total(seqs, i, i + 1) == Total(seqs, i, i) + |seqs[i]|;
    if batchEnd > i {
      SingleFits(seqs, nCtx, i, batchEnd);
    }
  }

  // Fills the batch: exactly the slots that were allocated for it.
  method Fill(seqs: seq<seq<Token>>, i: nat, batchEnd: nat, totalTokens: nat) returns (batch: array<Slot>)
    requires i <= batchEnd <= |seqs| && totalTokens == Total(seqs, i, batchEnd)
    ensures fresh(batch) && batch[..] == Slots(seqs, i, batchEnd)
  {
    batch := new Slot[totalTokens];
    var pos := 0;
    for s := i to batchEnd
      invariant pos == Total(seqs, i, s) <= batch.Length
      invariant batch[..pos] == Slots(seqs, i, s)
    {
      TotalSplit(seqs, i, s + 1, batchEnd);
      var tokens := seqs[s];
      for t := 0 to |tokens|
        invariant pos == Total(seqs, i, s) + t
        invariant batch[..pos] == Slots(seqs, i, s) + Tag(tokens, s - i)[..t]
      {
        batch[pos] := Slot(tokens[t], t, s - i);
        pos := pos + 1;
      }
      assert Tag(tokens, s - i)[..|tokens|] == Tag(tokens, s - i);
    }
    assert batch[..] == batch[..pos];
  }

  // What text number s gets: nothing if it is empty or oversize, otherwise the vector
  // of its own tokens at the positions 0, 1, 2 and so on, as if it had been embedded alone,
  // unless the model failed or had no vector for it.
  ghost predicate OwnVector(
      seqs: seq<seq<Token>>, nCtx: nat, m: Model, unit: Vec -> Vec, embed: seq<Placed> -> Vec, s: nat, r: Option<Vec>)
    requires s < |seqs|
  {
    && (seqs[s] == [] || |seqs[s]| > nCtx ==> r.None?)
    && (r.Some? ==> r.value == unit(embed(InOrder(seqs[s]))))
    && (NeverFails(m) && 0 < |seqs[s]| <= nCtx ==> r.Some?)
  }

  // embed_documents_batch, from the tokens on.
  method EmbedBatch(seqs: seq<seq<Token>>, nCtx: nat, m: Model, unit: Vec -> Vec, ghost embed: seq<Placed> -> Vec)
    returns (results: seq<Option<Vec>>, ghost ends: seq<nat>)
    requires Pools(m, embed)
    ensures |results| == |seqs|
    ensures Cut(seqs, nCtx, 0, ends) && Greedy(seqs, nCtx, 0, ends)
    ensures forall other :: Cut(seqs, nCtx, 0, other) ==>
              Batches(seqs, nCtx, 0, ends) <= Batches(seqs, nCtx, 0, other)
    ensures forall s :: 0 <= s < |seqs| ==> OwnVector(seqs, nCtx, m, unit, embed, s, results[s])
  {
    hide Slots, ViewOf, OwnVector, Fits, Furthest, Pools, Oversize, CutTo, Cut, Greedy, Batches;
    CutToNone(seqs, nCtx);
    results := seq(|seqs|, _ => None);
    ends := [];
    var i := 0;
    while i < |seqs|
      invariant i <= |seqs| == |results|
      invariant CutTo(seqs, nCtx, 0, ends, i)
      invariant forall s :: i <= s < |seqs| ==> results[s].None?
      invariant forall s :: 0 <= s < i ==> OwnVector(seqs, nCtx, m, unit, embed, s, results[s])
    {
      var batchEnd, totalTokens := Pack(seqs, nCtx, i);
      if batchEnd == i {
        NoVector(seqs, nCtx, m, unit, embed, i, []);
        PieceSkipped(seqs, nCtx, i);
        CutToAdd(seqs, nCtx, 0, ends, i, i + 1);
        ends := ends + [i + 1];
        i := i + 1;
        continue;
      }
      var batch := Fill(seqs, i, batchEnd, totalTokens);
      var encoded := m.encode(batch[..]);
      PieceTaken(seqs, nCtx, i, batchEnd);
      if encoded.None? {
        forall s | i <= s < batchEnd
          ensures OwnVector(seqs, nCtx, m, unit, embed, s, None)
        {
          NoVector(seqs, nCtx, m, unit, embed, s, batch[..]);
        }
      } else {
        for s := i to batchEnd
          invariant |results| == |seqs|
          invariant forall k :: s <= k < |seqs| ==> results[k].None?
          invariant forall k :: 0 <= k < s ==> OwnVector(seqs, nCtx, m, unit, embed, k, results[k])
        {
          VectorOf(seqs, nCtx, m, unit, embed, i, batchEnd, s, encoded.value);
          if seqs[s] != [] {
            var vec := encoded.value(s - i);
            if vec.Some? {
              results := results[s := Some(unit(vec.value))];
            }
          }
        }
      }
      CutToAdd(seqs, nCtx, 0, ends, i, batchEnd);
      ends := ends + [batchEnd];
      i := batchEnd;
    }
    CutToEnd(seqs, nCtx, 0, ends);
    forall other | Cut(seqs, nCtx, 0, other)
      ensures Batches(seqs, nCtx, 0, ends) <= Batches(seqs, nCtx, 0, other)
    {
      GreedyIsFewest(seqs, nCtx, 0, ends, other);
    }
  }

  lemma VectorOf(
      seqs: seq<seq<Token>>, nCtx: nat, m: Model, unit: Vec -> Vec, embed: seq<Placed> -> Vec,
      lo: nat, hi: nat, s: nat, f: nat -> Option<Vec>)
    requires Pools(m, embed) && lo <= s < hi <= |seqs| && Fits(seqs, nCtx, lo, hi)
    requires m.encode(Slots(seqs, lo, hi)) == Some(f)
    ensures seqs[s] == [] ==> OwnVector(seqs, nCtx, m, unit, embed, s, None)
    ensures seqs[s] != [] ==> OwnVector(seqs, nCtx, m, unit, embed, s,
        if f(s - lo).Some? then Some(unit(f(s - lo).value)) else None)
  {
    hide Slots, Fits;
    BatchSeparates(seqs, lo, hi, s - lo);
    assert ViewOf(Slots(seqs, lo, hi), s - lo) == InOrder(seqs[s]);
    FitsInside(seqs, nCtx, lo, s, hi, hi);
    SingleFits(seqs, nCtx, s, hi);
  }

  lemma NoVector(
      seqs: seq<seq<Token>>, nCtx: nat, m: Model, unit: Vec -> Vec, embed: seq<Placed> -> Vec, s: nat, slots: seq<Slot>)
    requires s < |seqs| && (Oversize(seqs, nCtx, s) || m.encode(slots).None?)
    ensures OwnVector(seqs, nCtx, m, unit, embed, s, None)
  {
  }

  // A greedy cut of the texts up to `to` only.
  ghost predicate CutTo(seqs: seq<seq<Token>>, nCtx: nat, from: nat, ends: seq<nat>, to: nat)
    requires from <= |seqs|
    decreases |ends|
  {
    if ends == [] then from == to
    else
      && from < ends[0] <= |seqs|
      && Piece(seqs, nCtx, from, ends[0])
      && CutTo(seqs, nCtx, ends[0], ends[1..], to)
  }

  lemma CutToNone(seqs: seq<seq<Token>>, nCtx: nat)
    ensures CutTo(seqs, nCtx, 0, [], 0)
  {
  }

  ghost predicate Piece(seqs: seq<seq<Token>>, nCtx: nat, lo: nat, hi: nat)
    requires lo <= hi <= |seqs|
  {
    if Fits(seqs, nCtx, lo, hi) then Furthest(seqs, nCtx, lo, hi)
    else hi == lo + 1 && Oversize(seqs, nCtx, lo)
  }

  lemma PieceSkipped(seqs: seq<seq<Token>>, nCtx: nat, i: nat)
    requires i < |seqs| && Oversize(seqs, nCtx, i)
    ensures Piece(seqs, nCtx, i, i + 1)
  {
    assert Total(seqs, i, i + 1) == Total(seqs, i, i) + |seqs[i]|;
  }

  lemma PieceTaken(seqs: seq<seq<Token>>, nCtx: nat, lo: nat, hi: nat)
    requires lo <= hi <= |seqs| && Furthest(seqs, nCtx, lo, hi)
    ensures Piece(seqs, nCtx, lo, hi) && Fits(seqs, nCtx, lo, hi)
  {
  }

  lemma {:induction false} CutToAdd(seqs: seq<seq<Token>>, nCtx: nat, from: nat, ends: seq<nat>, to: nat, next: nat)
    requires from <= |seqs| && CutTo(seqs, nCtx, from, ends, to)
    requires to < next <= |seqs|
    requires Piece(seqs, nCtx, to, next)
    ensures CutTo(seqs, nCtx, from, ends + [next], next)
    decreases |ends|
  {
    hide Piece;
    if ends == [] {
      assert (ends + [next])[1..] == [];
    } else {
      assert (ends + [next])[1..] == ends[1..] + [next];
      CutToAdd(seqs, nCtx, ends[0], ends[1..], to, next);
    }
  }

  lemma {:induction false} CutToEnd(seqs: seq<seq<Token>>, nCtx: nat, from: nat, ends: seq<nat>)
    requires from <= |seqs| && CutTo(seqs, nCtx, from, ends, |seqs|)
    ensures Cut(seqs, nCtx, from, ends) && Greedy(seqs, nCtx, from, ends)
    decreases |ends|
  {
    if ends != [] {
      CutToEnd(seqs, nCtx, ends[0], ends[1..]);
    }
  }
}
