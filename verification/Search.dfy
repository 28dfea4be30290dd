// Search: cosine and keyword rankings fused by reciprocal rank, then cut to the best.

module Search {

  import Data

  datatype Entry = Entry(proto: Data.Proto, path: string, line: nat, chunk: string, embedding: seq<real>)

  datatype Result<+T> = Ok(value: T) | Thrown

  // One index of the search: where its entries start among all, how many there are,
  // and the positions its keyword provider returned, best first.
  datatype Segment = Segment(offset: nat, count: nat, hits: seq<int>)

  // An entry position with the number it is ordered by.
  datatype Ranked = Ranked(pos: nat, key: real)

  function Contribution(rank: nat): (r: real)
    ensures r > 0.0
  {
    1.0 / ((60 + rank + 1) as real)
  }

  lemma ContributionFalls(a: nat, b: nat)
    requires a <= b
    ensures Contribution(a) >= Contribution(b)
  {
    Reciprocal((60 + a + 1) as real, (60 + b + 1) as real);
  }

  lemma Reciprocal(x: real, y: real)
    requires 0.0 < x <= y
    ensures 1.0 / x >= 1.0 / y
  {
  }

  // The type filter: negative for everything, otherwise documents, notes, or nothing.
  predicate Matches(filter: int, e: Entry) {
    filter < 0 || (filter == 0 && e.proto != Data.Note) || (filter == 1 && e.proto == Data.Note)
  }

  function Collect(names: seq<string>, indexes: map<string, seq<Entry>>): seq<Entry> {
    if names == [] then []
    else
      var n := names[|names| - 1];
      Collect(names[..|names| - 1], indexes) + if n in indexes then indexes[n] else []
  }

  type Provider = nat -> seq<int>

  // The segments of the searched indexes, in order; an unknown index has none, an index
  // without a provider no hits.
  ghost function Segments(names: seq<string>, indexes: map<string, seq<Entry>>, fts: map<string, Provider>)
    : seq<Segment>
  {
    if names == [] then []
    else
      var before, n := names[..|names| - 1], names[|names| - 1];
      if n !in indexes then Segments(before, indexes, fts)
      else
        Segments(before, indexes, fts) +
        [Segment(|Collect(before, indexes)|, |indexes[n]|, if n in fts then fts[n](|indexes[n]|) else [])]
  }

  // What the hits of one list give to the entry at `local`.
  ghost function HitSum(hits: seq<int>, local: int): real {
    if hits == [] then 0.0
    else
      var r := |hits| - 1;
      HitSum(hits[..r], local) + if hits[r] == local then Contribution(r) else 0.0
  }

  // What all keyword lists together give to the entry at position p.
  ghost function KeywordSum(segs: seq<Segment>, p: int): real {
    if segs == [] then 0.0
    else
      var s := segs[|segs| - 1];
      KeywordSum(segs[..|segs| - 1], p) + HitSum(s.hits, p - s.offset)
  }

  // What the cosine ranking gives to it.
  ghost function CosineSum(ranked: seq<Ranked>, p: nat): real {
    if ranked == [] then 0.0
    else
      var r := |ranked| - 1;
      CosineSum(ranked[..r], p) + if ranked[r].pos == p then Contribution(r) else 0.0
  }

  ghost function Score(ranked: seq<Ranked>, segs: seq<Segment>, p: nat): real {
    CosineSum(ranked, p) + KeywordSum(segs, p)
  }

  ghost predicate Descending(rs: seq<Ranked>) {
    forall i, j :: 0 <= i < j < |rs| ==> rs[i].key >= rs[j].key
  }

  ghost predicate DistinctPositions(rs: seq<Ranked>) {
    forall i, j :: 0 <= i < j < |rs| ==> rs[i].pos != rs[j].pos
  }

  // Exactly the positions of the entries that pass the filter, each once.
  ghost predicate Lists(rs: seq<Ranked>, all: seq<Entry>, filter: int) {
    && DistinctPositions(rs)
    && (forall i :: 0 <= i < |rs| ==> rs[i].pos < |all| && Matches(filter, all[rs[i].pos]))
    && (forall p :: 0 <= p < |all| && Matches(filter, all[p]) ==> exists i :: 0 <= i < |rs| && rs[i].pos == p)
  }

  // Some order by descending key; ties may come out in any order.
  method Sort(items: seq<Ranked>) returns (out: seq<Ranked>)
    ensures multiset(out) == multiset(items) && Descending(out)
  {
    out := [];
    for i := 0 to |items|
      invariant multiset(out) == multiset(items[..i]) && Descending(out)
    {
      assert items[..i + 1] == items[..i] + [items[i]];
      out := Insert(out, items[i]);
    }
    assert items[..|items|] == items;
  }

  method Insert(rs: seq<Ranked>, x: Ranked) returns (out: seq<Ranked>)
    requires Descending(rs)
    ensures multiset(out) == multiset(rs) + multiset{x} && Descending(out)
  {
    hide Descending;
    var k := 0;
    while k < |rs| && rs[k].key >= x.key
      invariant 0 <= k <= |rs| && forall i :: 0 <= i < k ==> rs[i].key >= x.key
    {
      k := k + 1;
    }
    out := rs[..k] + [x] + rs[k..];
    InsertDescending(rs, k, x);
    InsertCounts(rs, k, x);
  }

  lemma InsertDescending(rs: seq<Ranked>, k: nat, x: Ranked)
    requires Descending(rs) && k <= |rs|
    requires forall i :: 0 <= i < k ==> rs[i].key >= x.key
    requires k < |rs| ==> rs[k].key < x.key
    ensures Descending(rs[..k] + [x] + rs[k..])
  {
    var out := rs[..k] + [x] + rs[k..];
    forall i | 0 <= i < |out|
      ensures out[i] == if i < k then rs[i] else if i == k then x else rs[i - 1]
    {
    }
  }

  lemma InsertCounts(rs: seq<Ranked>, k: nat, x: Ranked)
    requires k <= |rs|
    ensures multiset(rs[..k] + [x] + rs[k..]) == multiset(rs) + multiset{x}
  {
    assert rs == rs[..k] + rs[k..];
  }

  // A permutation of a list of positions is a list of the same positions.
  lemma PermutedLists(rs: seq<Ranked>, out: seq<Ranked>, all: seq<Entry>, filter: int)
    requires Lists(rs, all, filter) && multiset(out) == multiset(rs)
    ensures Lists(out, all, filter) && |out| == |rs|
  {
    hide Matches;
    assert |out| == |multiset(out)| == |multiset(rs)| == |rs|;
    forall x ensures x in out <==> x in rs {
      assert x in multiset(out) <==> x in multiset(rs);
    }
    forall i | 0 <= i < |out|
      ensures out[i] in rs
    {
      assert out[i] in out;
    }
    forall i, j | 0 <= i < j < |out|
      ensures out[i].pos != out[j].pos
    {
      if out[i].pos == out[j].pos {
        SamePosition(rs, out[i], out[j]);
        TwiceInSeq(out, i, j);
        OnceInSeq(rs, out[i]);
      }
    }
    forall p | 0 <= p < |all| && Matches(filter, all[p])
      ensures exists i :: 0 <= i < |out| && out[i].pos == p
    {
      var k :| 0 <= k < |rs| && rs[k].pos == p;
      assert rs[k] in out;
    }
  }

  lemma SamePosition(rs: seq<Ranked>, x: Ranked, y: Ranked)
    requires DistinctPositions(rs) && x in rs && y in rs && x.pos == y.pos
    ensures x == y
  {
  }

  lemma TwiceInSeq(s: seq<Ranked>, i: nat, j: nat)
    requires i < j < |s| && s[i] == s[j]
    ensures multiset(s)[s[i]] >= 2
  {
    assert s == s[..j] + [s[j]] + s[j + 1..];
    assert s[..j][i] in s[..j];
  }

  lemma OnceInSeq(s: seq<Ranked>, x: Ranked)
    requires DistinctPositions(s)
    ensures multiset(s)[x] <= 1
  {
    if x in s {
      var i :| 0 <= i < |s| && s[i] == x;
      assert s == s[..i] + [x] + s[i + 1..];
      assert x !in s[..i] && x !in s[i + 1..];
    }
  }

  ghost predicate KeysAre(rs: seq<Ranked>, key: nat -> real) {
    forall i :: 0 <= i < |rs| ==> rs[i].key == key(rs[i].pos)
  }

  ghost function CosineKey(all: seq<Entry>, cosine: Entry -> real): nat -> real {
    (p: nat) => if p < |all| then cosine(all[p]) else 0.0
  }

  ghost function ScoreKey(ranked: seq<Ranked>, segs: seq<Segment>): nat -> real {
    (p: nat) => Score(ranked, segs, p)
  }

  // The entries that pass the filter, with their keys, in order of position.
  ghost predicate Prefix(rs: seq<Ranked>, all: seq<Entry>, filter: int, n: nat)
    requires n <= |all|
  {
    && DistinctPositions(rs)
    && (forall i :: 0 <= i < |rs| ==> rs[i].pos < n && Matches(filter, all[rs[i].pos]))
    && (forall p :: 0 <= p < n && Matches(filter, all[p]) ==> Has(rs, p))
  }

  ghost predicate Has(rs: seq<Ranked>, p: nat) {
    exists i :: 0 <= i < |rs| && rs[i].pos == p
  }

  lemma PrefixNext(rs: seq<Ranked>, all: seq<Entry>, filter: int, n: nat, key: real)
    requires n < |all| && Prefix(rs, all, filter, n)
    ensures if Matches(filter, all[n]) then Prefix(rs + [Ranked(n, key)], all, filter, n + 1)
        else Prefix(rs, all, filter, n + 1)
  {
    hide Matches;
    var out := rs + [Ranked(n, key)];
    assert out[|rs|].pos == n;
    forall p | 0 <= p < n && Matches(filter, all[p])
      ensures Has(out, p)
    {
      var i :| 0 <= i < |rs| && rs[i].pos == p;
      assert out[i].pos == p;
    }
  }

  lemma PrefixLists(rs: seq<Ranked>, all: seq<Entry>, filter: int)
    requires Prefix(rs, all, filter, |all|)
    ensures Lists(rs, all, filter)
  {
    hide Matches;
    forall p | 0 <= p < |all| && Matches(filter, all[p])
      ensures exists i :: 0 <= i < |rs| && rs[i].pos == p
    {
      assert Has(rs, p);
    }
  }

  lemma {:induction false} CosineSumOf(ranked: seq<Ranked>, p: nat)
    requires DistinctPositions(ranked)
    ensures forall r :: 0 <= r < |ranked| && ranked[r].pos == p ==> CosineSum(ranked, p) == Contribution(r)
    ensures !Has(ranked, p) ==> CosineSum(ranked, p) == 0.0
    ensures CosineSum(ranked, p) >= 0.0
  {
    if ranked != [] {
      var n := |ranked| - 1;
      CosineSumOf(ranked[..n], p);
      if Has(ranked[..n], p) {
        var i :| 0 <= i < n && ranked[..n][i].pos == p;
        assert ranked[i].pos == p;
      }
    }
  }

  lemma {:induction false} HitSumNonNegative(hits: seq<int>, local: int)
    ensures HitSum(hits, local) >= 0.0 && (HitSum(hits, local) > 0.0 <==> local in hits)
  {
    if hits != [] {
      var n := |hits| - 1;
      HitSumNonNegative(hits[..n], local);
      assert hits == hits[..n] + [hits[n]];
    }
  }

  // The cosine contribution, accumulated in place.
  method CosinePass(rrf: array<real>, ranked: seq<Ranked>)
    requires forall p :: 0 <= p < rrf.Length ==> rrf[p] == 0.0
    requires forall i :: 0 <= i < |ranked| ==> ranked[i].pos < rrf.Length
    modifies rrf
    ensures forall p :: 0 <= p < rrf.Length ==> rrf[p] == CosineSum(ranked, p)
  {
    hide Contribution;
    for r := 0 to |ranked|
      invariant forall p :: 0 <= p < rrf.Length ==> rrf[p] == CosineSum(ranked[..r], p)
    {
      assert ranked[..r + 1][..r] == ranked[..r];
      var p := ranked[r].pos;
      rrf[p] := rrf[p] + Contribution(r);
    }
    assert ranked[..|ranked|] == ranked;
  }

  // One keyword list: hits are taken relative to the offset, and only guarded against
  // leaving the whole array.
  method KeywordPass(rrf: array<real>, all: seq<Entry>, filter: int, offset: nat, hits: seq<int>)
    requires rrf.Length == |all|
    modifies rrf
    ensures forall p :: 0 <= p < |all| ==>
              rrf[p] == old(rrf[p]) + if Matches(filter, all[p]) then HitSum(hits, p - offset) else 0.0
  {
    hide Contribution, Matches;
    for r := 0 to |hits|
      invariant forall p :: 0 <= p < |all| ==>
                  rrf[p] == old(rrf[p]) + if Matches(filter, all[p]) then HitSum(hits[..r], p - offset) else 0.0
    {
      assert hits[..r + 1][..r] == hits[..r];
      var gi := offset + hits[r];
      if 0 <= gi < |all| && Matches(filter, all[gi]) {
        rrf[gi] := rrf[gi] + Contribution(r);
      }
    }
    assert hits[..|hits|] == hits;
  }

  // The answer is the best of all matching entries: as many as asked for or as there
  // are, in order of score, with no omitted entry scoring higher.
  ghost predicate Best(results: seq<Ranked>, all: seq<Entry>, filter: int, topK: nat, score: nat -> real) {
    exists full :: Lists(full, all, filter) && Descending(full) && KeysAre(full, score)
                   && results == full[..if topK < |full| then topK else |full|]
  }

  method Search(
      names: seq<string>, indexes: map<string, seq<Entry>>, fts: map<string, Provider>,
      cosine: Entry -> real, queryEmbedded: bool, filter: int, topK: int)
    returns (results: Result<seq<Ranked>>, ghost ranked: seq<Ranked>)
    ensures var all := Collect(names, indexes);
            if all == [] || !queryEmbedded then results == Ok([])
            else if topK < 0 then results == Thrown
            else
              && results.Ok?
              && Lists(ranked, all, filter) && Descending(ranked)
              && (forall i :: 0 <= i < |ranked| ==> ranked[i].key == cosine(all[ranked[i].pos]))
              && Best(results.value, all, filter, topK, ScoreKey(ranked, Segments(names, indexes, fts)))
  {
    hide Matches, Contribution, HitSum, KeywordSum, CosineSum, Lists, Prefix;
    ranked := [];
    var all := CollectAll(names, indexes);
    if all == [] {
      return Ok([]), [];
    }
    if !queryEmbedded {
      return Ok([]), [];
    }
    var listed := Rank(all, filter, cosine);
    ranked := listed;
    var rrf := new real[|all|](_ => 0.0);
    ListsInRange(listed, all, filter);
    CosinePass(rrf, listed);
    Keywords(rrf, all, names, indexes, fts, filter, listed);
    ghost var score := ScoreKey(listed, Segments(names, indexes, fts));
    var full := Candidates(rrf, all, filter, score, listed, Segments(names, indexes, fts));
    if topK < 0 {
      return Thrown, ranked;
    }
    var count := if topK < |full| then topK else |full|;
    results := Ok(full[..count]);
  }

  method CollectAll(names: seq<string>, indexes: map<string, seq<Entry>>) returns (all: seq<Entry>)
    ensures all == Collect(names, indexes)
  {
    all := [];
    for k := 0 to |names|
      invariant all == Collect(names[..k], indexes)
    {
      assert names[..k + 1][..k] == names[..k];
      if names[k] in indexes {
        all := all + indexes[names[k]];
      }
    }
    assert names[..|names|] == names;
  }

  // The cosine ranking.
  method Rank(all: seq<Entry>, filter: int, cosine: Entry -> real) returns (ranked: seq<Ranked>)
    ensures Lists(ranked, all, filter) && Descending(ranked)
    ensures KeysAre(ranked, CosineKey(all, cosine))
  {
    hide Matches, Prefix, Lists;
    ghost var key := CosineKey(all, cosine);
    var items: seq<Ranked> := [];
    PrefixNone(all, filter);
    for i := 0 to |all|
      invariant Prefix(items, all, filter, i) && KeysAre(items, key)
    {
      PrefixNext(items, all, filter, i, cosine(all[i]));
      if Matches(filter, all[i]) {
        items := items + [Ranked(i, cosine(all[i]))];
      }
    }
    PrefixLists(items, all, filter);
    ranked := Sort(items);
    PermutedLists(items, ranked, all, filter);
    PermutedKeys(items, ranked, key);
  }

  lemma PrefixNone(all: seq<Entry>, filter: int)
    ensures Prefix([], all, filter, 0)
  {
  }

  lemma PermutedKeys(rs: seq<Ranked>, out: seq<Ranked>, key: nat -> real)
    requires KeysAre(rs, key) && multiset(out) == multiset(rs)
    ensures KeysAre(out, key)
  {
    forall i | 0 <= i < |out|
      ensures out[i].key == key(out[i].pos)
    {
      assert out[i] in multiset(out);
      assert out[i] in rs;
    }
  }

  lemma ListsInRange(rs: seq<Ranked>, all: seq<Entry>, filter: int)
    requires Lists(rs, all, filter)
    ensures forall i :: 0 <= i < |rs| ==> rs[i].pos < |all|
    ensures DistinctPositions(rs)
    ensures forall p :: 0 <= p < |all| && Matches(filter, all[p]) ==> Has(rs, p)
    ensures forall p :: 0 <= p < |all| && !Matches(filter, all[p]) ==> !Has(rs, p)
  {
    hide Matches;
  }

  // The keyword contribution of every index in turn.
  method Keywords(
      rrf: array<real>, all: seq<Entry>, names: seq<string>, indexes: map<string, seq<Entry>>,
      fts: map<string, Provider>, filter: int, ghost ranked: seq<Ranked>)
    requires all == Collect(names, indexes) && rrf.Length == |all|
    requires forall p :: 0 <= p < |all| ==> rrf[p] == CosineSum(ranked, p)
    modifies rrf
    ensures forall p :: 0 <= p < |all| && Matches(filter, all[p]) ==>
              rrf[p] == Score(ranked, Segments(names, indexes, fts), p)
  {
    hide Matches, HitSum, CosineSum, KeywordSum, Segments;
    var offset := 0;
    NoSegments(indexes, fts);
    assert names[..0] == [];
    for k := 0 to |names|
      invariant offset == |Collect(names[..k], indexes)|
      invariant forall p :: 0 <= p < |all| && Matches(filter, all[p]) ==>
                  rrf[p] == CosineSum(ranked, p) + KeywordSum(Segments(names[..k], indexes, fts), p)
    {
      assert names[..k + 1][..k] == names[..k];
      var name := names[k];
      SegmentAdded(names, k, indexes, fts);
      if name in indexes {
        var n := |indexes[name]|;
        if name in fts {
          var hits := fts[name](n);
          KeywordPass(rrf, all, filter, offset, hits);
        }
        offset := offset + n;
      }
    }
    assert names[..|names|] == names;
  }

  lemma NoSegments(indexes: map<string, seq<Entry>>, fts: map<string, Provider>)
    ensures Segments([], indexes, fts) == [] && forall p :: KeywordSum([], p) == 0.0
  {
  }

  // What one more index adds to the keyword sums.
  lemma SegmentAdded(names: seq<string>, k: nat, indexes: map<string, seq<Entry>>, fts: map<string, Provider>)
    requires k < |names|
    ensures var segs, next := Segments(names[..k], indexes, fts), Segments(names[..k + 1], indexes, fts);
            var name, offset := names[k], |Collect(names[..k], indexes)|;
            forall p :: KeywordSum(next, p) == KeywordSum(segs, p) +
              if name in indexes && name in fts then HitSum(fts[name](|indexes[name]|), p - offset) else 0.0
  {
    hide Collect, Contribution;
    assert names[..k + 1][..k] == names[..k];
    var segs := Segments(names[..k], indexes, fts);
    if names[k] in indexes {
      var seg := Segment(|Collect(names[..k], indexes)|, |indexes[names[k]]|,
                         if names[k] in fts then fts[names[k]](|indexes[names[k]]|) else []);
      assert (segs + [seg])[..|segs|] == segs;
    }
  }

  // All scored entries, best first.
  method Candidates(
      rrf: array<real>, all: seq<Entry>, filter: int, ghost score: nat -> real, ghost ranked: seq<Ranked>,
      ghost segs: seq<Segment>)
    returns (full: seq<Ranked>)
    requires rrf.Length == |all| && Lists(ranked, all, filter)
    requires forall p: nat :: score(p) == Score(ranked, segs, p)
    requires forall p :: 0 <= p < |all| && Matches(filter, all[p]) ==> rrf[p] == score(p)
    ensures Lists(full, all, filter) && Descending(full) && KeysAre(full, score)
  {
    hide Matches, Lists, Prefix, CosineSum, KeywordSum;
    var items: seq<Ranked> := [];
    PrefixNone(all, filter);
    for i := 0 to |all|
      invariant Prefix(items, all, filter, i) && KeysAre(items, score)
    {
      PrefixNext(items, all, filter, i, rrf[i]);
      if Matches(filter, all[i]) {
        ScorePositive(ranked, segs, all, filter, i);
      }
      if Matches(filter, all[i]) && rrf[i] != 0.0 {
        items := items + [Ranked(i, rrf[i])];
      }
    }
    PrefixLists(items, all, filter);
    full := Sort(items);
    PermutedLists(items, full, all, filter);
    PermutedKeys(items, full, score);
  }

  lemma ScorePositive(ranked: seq<Ranked>, segs: seq<Segment>, all: seq<Entry>, filter: int, p: nat)
    requires Lists(ranked, all, filter) && p < |all| && Matches(filter, all[p])
    ensures Score(ranked, segs, p) > 0.0
  {
    hide Lists, Contribution, Matches;
    ListsInRange(ranked, all, filter);
    CosineSumOf(ranked, p);
    KeywordZeroIff(segs, p);
  }

  // What `Best` means for the caller.
  lemma BestMeans(results: seq<Ranked>, all: seq<Entry>, filter: int, topK: nat, score: nat -> real)
    requires Best(results, all, filter, topK, score)
    ensures |results| == var n := |set p | 0 <= p < |all| && Matches(filter, all[p])|; if topK < n then topK else n
    ensures DistinctPositions(results) && Descending(results) && KeysAre(results, score)
    ensures forall i :: 0 <= i < |results| ==> results[i].pos < |all| && Matches(filter, all[results[i].pos])
    ensures forall p :: 0 <= p < |all| && Matches(filter, all[p]) && !Has(results, p) ==> NoneBelow(results, score(p))
  {
    hide Matches, DistinctPositions, Has, NoneBelow, Lists, KeysAre;
    var full: seq<Ranked> :| Lists(full, all, filter) && Descending(full) && KeysAre(full, score)
                             && results == full[..if topK < |full| then topK else |full|];
    CountMatching(full, all, filter);
    FirstOfList(full, |results|, all, filter, score);
    forall p | 0 <= p < |all| && Matches(filter, all[p]) && !Has(results, p)
      ensures NoneBelow(results, score(p))
    {
      OmittedIsNoBetter(full, |results|, all, filter, score, p);
    }
  }

  ghost function Least(a: nat, b: nat): nat {
    if a < b then a else b
  }

  ghost predicate AllOf(results: seq<Ranked>, all: seq<Entry>, proto: Data.Proto) {
    forall i :: 0 <= i < |results| ==> results[i].pos < |all| && all[results[i].pos].proto == proto
  }

  // What a search for everything, for files, for notes or for anything else finds: entries of
  // that kind, as many as asked for or as there are.
  lemma KindsFound(results: seq<Ranked>, all: seq<Entry>, filter: int, topK: nat, score: nat -> real)
    requires Best(results, all, filter, topK, score)
    ensures filter < 0 ==> |results| == Least(topK, |all|)
    ensures filter == 0 ==> AllOf(results, all, Data.Doc) &&
                            |results| == Least(topK, |set p | 0 <= p < |all| && all[p].proto == Data.Doc|)
    ensures filter == 1 ==> AllOf(results, all, Data.Note) &&
                            |results| == Least(topK, |set p | 0 <= p < |all| && all[p].proto == Data.Note|)
    ensures filter > 1 ==> results == []
  {
    hide Best;
    BestMeans(results, all, filter, topK, score);
    var matching := set p | 0 <= p < |all| && Matches(filter, all[p]);
    if filter < 0 {
      AllMatch(all, filter, |all|);
    } else if filter == 0 {
      assert matching == set p | 0 <= p < |all| && all[p].proto == Data.Doc;
    } else if filter == 1 {
      assert matching == set p | 0 <= p < |all| && all[p].proto == Data.Note;
    } else {
      assert matching == {};
    }
  }

  lemma {:induction false} AllMatch(all: seq<Entry>, filter: int, n: nat)
    requires filter < 0 && n <= |all|
    ensures |set p | 0 <= p < n && Matches(filter, all[p])| == n
  {
    if n > 0 {
      AllMatch(all, filter, n - 1);
      assert (set p | 0 <= p < n && Matches(filter, all[p])) ==
             (set p | 0 <= p < n - 1 && Matches(filter, all[p])) + {n - 1};
    }
  }

  ghost predicate NoneBelow(rs: seq<Ranked>, key: real) {
    forall i :: 0 <= i < |rs| ==> rs[i].key >= key
  }

  lemma FirstOfList(full: seq<Ranked>, n: nat, all: seq<Entry>, filter: int, score: nat -> real)
    requires Lists(full, all, filter) && KeysAre(full, score) && n <= |full|
    ensures DistinctPositions(full[..n]) && KeysAre(full[..n], score)
    ensures forall i :: 0 <= i < n ==> full[i].pos < |all| && Matches(filter, all[full[i].pos])
  {
    hide Matches;
  }

  lemma OmittedIsNoBetter(full: seq<Ranked>, n: nat, all: seq<Entry>, filter: int, score: nat -> real, p: nat)
    requires Lists(full, all, filter) && Descending(full) && KeysAre(full, score) && n <= |full|
    requires p < |all| && Matches(filter, all[p]) && !Has(full[..n], p)
    ensures NoneBelow(full[..n], score(p))
  {
    hide Matches;
    var k :| 0 <= k < |full| && full[k].pos == p;
  }

  lemma CountMatching(full: seq<Ranked>, all: seq<Entry>, filter: int)
    requires Lists(full, all, filter)
    ensures |full| == |set p | 0 <= p < |all| && Matches(filter, all[p])|
  {
    hide Matches;
    CountPositions(full);
    assert PositionsOf(full) == set p | 0 <= p < |all| && Matches(filter, all[p]);
  }

  ghost function PositionsOf(rs: seq<Ranked>): set<nat> {
    set i | 0 <= i < |rs| :: rs[i].pos
  }

  lemma {:induction false} CountPositions(rs: seq<Ranked>)
    requires DistinctPositions(rs)
    ensures |PositionsOf(rs)| == |rs|
  {
    if rs == [] {
      assert PositionsOf(rs) == {};
    } else {
      var n := |rs| - 1;
      CountPositions(rs[..n]);
      assert PositionsOf(rs) == PositionsOf(rs[..n]) + {rs[n].pos};
    }
  }

  // The rank at which a list without repetitions holds x, if it does.
  ghost predicate HitAt(hits: seq<int>, x: int, r: nat) {
    r < |hits| && hits[r] == x
  }

  ghost predicate DistinctHits(hits: seq<int>) {
    forall i, j :: 0 <= i < j < |hits| ==> hits[i] != hits[j]
  }

  lemma {:induction false} HitSumOf(hits: seq<int>, local: int)
    requires DistinctHits(hits)
    ensures forall r: nat :: HitAt(hits, local, r) ==> HitSum(hits, local) == Contribution(r)
    ensures local !in hits ==> HitSum(hits, local) == 0.0
  {
    HitSumNonNegative(hits, local);
    if hits != [] {
      hide Contribution;
      var n := |hits| - 1;
      HitSumOf(hits[..n], local);
      HitSumNonNegative(hits[..n], local);
      forall r: nat | HitAt(hits, local, r)
        ensures HitSum(hits, local) == Contribution(r)
      {
        if r < n {
          assert HitAt(hits[..n], local, r);
        }
      }
    }
  }

  // The list of s holds position p, and holds it at rank r.
  ghost predicate Reaches(s: Segment, p: int) {
    p - s.offset in s.hits
  }

  ghost predicate ReachesAt(s: Segment, p: int, r: nat) {
    HitAt(s.hits, p - s.offset, r)
  }

  ghost predicate CoversPosition(s: Segment, p: int) {
    s.offset <= p < s.offset + s.count
  }

  // The segments follow one another without gap or overlap, from 0 to the end.
  ghost predicate Tile(segs: seq<Segment>, total: nat) {
    if segs == [] then total == 0
    else
      var s := segs[|segs| - 1];
      s.offset + s.count == total && Tile(segs[..|segs| - 1], s.offset)
  }

  lemma {:induction false} SegmentsTile(
      names: seq<string>, indexes: map<string, seq<Entry>>, fts: map<string, Provider>)
    ensures Tile(Segments(names, indexes, fts), |Collect(names, indexes)|)
  {
    if names != [] {
      var before := names[..|names| - 1];
      SegmentsTile(before, indexes, fts);
      var segs := Segments(names, indexes, fts);
      if names[|names| - 1] in indexes {
        assert segs[..|segs| - 1] == Segments(before, indexes, fts);
      }
    }
  }

  // Each position lies in exactly one segment.
  lemma {:induction false} TileCovers(segs: seq<Segment>, total: nat, p: int) returns (k: nat)
    requires Tile(segs, total) && 0 <= p < total
    ensures k < |segs| && CoversPosition(segs[k], p)
    ensures forall j :: 0 <= j < |segs| && CoversPosition(segs[j], p) ==> j == k
  {
    var n := |segs| - 1;
    assert forall j :: 0 <= j < n ==> segs[..n][j] == segs[j];
    if p < segs[n].offset {
      k := TileCovers(segs[..n], segs[n].offset, p);
    } else {
      k := n;
      TileWithin(segs[..n], segs[n].offset);
    }
  }

  lemma {:induction false} TileWithin(segs: seq<Segment>, total: nat)
    requires Tile(segs, total)
    ensures forall j :: 0 <= j < |segs| ==> segs[j].offset + segs[j].count <= total
  {
    if segs != [] {
      var n := |segs| - 1;
      TileWithin(segs[..n], segs[n].offset);
      assert forall j :: 0 <= j < n ==> segs[..n][j] == segs[j];
    }
  }

  // The entries of a searched index lie where its segment says, and the segment's hits
  // are what its provider answered.
  lemma {:induction false} SegmentHoldsIndex(
      names: seq<string>, indexes: map<string, seq<Entry>>, fts: map<string, Provider>, i: nat)
    returns (k: nat)
    requires i < |names| && names[i] in indexes
    ensures var segs, all, n := Segments(names, indexes, fts), Collect(names, indexes), names[i];
            && k < |segs| && segs[k].offset + segs[k].count <= |all|
            && all[segs[k].offset..segs[k].offset + segs[k].count] == indexes[n]
            && segs[k].hits == if n in fts then fts[n](|indexes[n]|) else []
  {
    var last := |names| - 1;
    if i < last {
      k := SegmentHoldsIndex(names[..last], indexes, fts, i);
      var s, part := Segments(names[..last], indexes, fts)[k], Collect(names[..last], indexes);
      assert Collect(names, indexes)[..|part|] == part;
      assert Collect(names, indexes)[s.offset..s.offset + s.count] == part[s.offset..s.offset + s.count];
    } else {
      k := |Segments(names[..last], indexes, fts)|;
    }
  }

  // No hit of a list lands on an entry of another index.
  ghost predicate NoStray(segs: seq<Segment>, total: nat) {
    forall k, p :: 0 <= k < |segs| && 0 <= p < total && Reaches(segs[k], p) ==> CoversPosition(segs[k], p)
  }

  // Only list k reaches position p.
  ghost predicate OnlyFrom(segs: seq<Segment>, k: nat, p: int) {
    k < |segs| && forall j :: 0 <= j < |segs| && j != k ==> !Reaches(segs[j], p)
  }

  lemma {:induction false} KeywordZeroIff(segs: seq<Segment>, p: int)
    ensures KeywordSum(segs, p) >= 0.0
    ensures KeywordSum(segs, p) == 0.0 <==> forall k :: 0 <= k < |segs| ==> !Reaches(segs[k], p)
  {
    if segs != [] {
      hide HitSum;
      var n := |segs| - 1;
      KeywordZeroIff(segs[..n], p);
      HitSumNonNegative(segs[n].hits, p - segs[n].offset);
      assert forall k :: 0 <= k < n ==> segs[..n][k] == segs[k];
    }
  }

  lemma {:induction false} KeywordSumSplit(before: seq<Segment>, s: Segment, after: seq<Segment>, p: int)
    ensures KeywordSum(before + [s] + after, p) ==
            KeywordSum(before, p) + HitSum(s.hits, p - s.offset) + KeywordSum(after, p)
  {
    hide HitSum;
    var segs := before + [s] + after;
    if after == [] {
      assert segs[..|segs| - 1] == before;
    } else {
      var n := |after| - 1;
      assert segs[..|segs| - 1] == before + [s] + after[..n];
      KeywordSumSplit(before, s, after[..n], p);
    }
  }

  // All keyword credit of a position is that of list k exactly when no other list reaches it.
  lemma CreditOfOneIff(segs: seq<Segment>, k: nat, p: int)
    requires k < |segs|
    ensures KeywordSum(segs, p) == HitSum(segs[k].hits, p - segs[k].offset) <==> OnlyFrom(segs, k, p)
  {
    hide KeywordSum, HitSum, Reaches;
    var before, after := segs[..k], segs[k + 1..];
    assert segs == before + [segs[k]] + after;
    KeywordSumSplit(before, segs[k], after, p);
    KeywordZeroIff(before, p);
    KeywordZeroIff(after, p);
    assert forall j :: 0 <= j < k ==> before[j] == segs[j];
    assert forall j :: k < j < |segs| ==> after[j - k - 1] == segs[j];
  }

  // Every entry gets the keyword credit of the index that holds it, and no other.
  ghost predicate CreditsOwn(segs: seq<Segment>) {
    forall k, p :: 0 <= k < |segs| && CoversPosition(segs[k], p) ==>
        KeywordSum(segs, p) == HitSum(segs[k].hits, p - segs[k].offset)
  }

  // In every search, keyword credit goes to the right index's entries exactly when no hit strays.
  lemma CreditsOwnIff(names: seq<string>, indexes: map<string, seq<Entry>>, fts: map<string, Provider>)
    ensures CreditsOwn(Segments(names, indexes, fts)) <==>
            NoStray(Segments(names, indexes, fts), |Collect(names, indexes)|)
  {
    hide Segments, Collect;
    SegmentsTile(names, indexes, fts);
    TilesCreditOwnIff(Segments(names, indexes, fts), |Collect(names, indexes)|);
  }

  lemma TilesCreditOwnIff(segs: seq<Segment>, total: nat)
    requires Tile(segs, total)
    ensures CreditsOwn(segs) <==> NoStray(segs, total)
  {
    hide Tile, CoversPosition, Reaches, KeywordSum, HitSum;
    if NoStray(segs, total) {
      forall k, p | 0 <= k < |segs| && CoversPosition(segs[k], p)
        ensures KeywordSum(segs, p) == HitSum(segs[k].hits, p - segs[k].offset)
      {
        OwnerOnly(segs, total, k, p);
        CreditOfOneIff(segs, k, p);
      }
    } else {
      var j, p :| 0 <= j < |segs| && 0 <= p < total && Reaches(segs[j], p) && !CoversPosition(segs[j], p);
      var k := TileCovers(segs, total, p);
      CreditOfOneIff(segs, k, p);
    }
  }

  lemma OwnerOnly(segs: seq<Segment>, total: nat, k: nat, p: int)
    requires Tile(segs, total) && NoStray(segs, total) && k < |segs| && CoversPosition(segs[k], p)
    ensures 0 <= p < total && OnlyFrom(segs, k, p)
  {
    hide Tile, Reaches;
    TileWithin(segs, total);
    var owner := TileCovers(segs, total, p);
  }

  lemma TwoSegments(e: Entry, f: Entry, fts: map<string, Provider>)
    requires "a" in fts && fts["a"](1) == [1] && "b" !in fts
    ensures Segments(["a", "b"], map["a" := [e], "b" := [f]], fts) == [Segment(0, 1, [1]), Segment(1, 1, [])]
  {
    var indexes := map["a" := [e], "b" := [f]];
    SegmentLast([], "a", indexes, fts);
    SegmentLast(["a"], "b", indexes, fts);
    assert [] + ["a"] == ["a"] && ["a"] + ["b"] == ["a", "b"];
  }

  lemma SegmentLast(before: seq<string>, n: string, indexes: map<string, seq<Entry>>, fts: map<string, Provider>)
    requires n in indexes
    ensures Collect(before + [n], indexes) == Collect(before, indexes) + indexes[n]
    ensures Segments(before + [n], indexes, fts) == Segments(before, indexes, fts) +
        [Segment(|Collect(before, indexes)|, |indexes[n]|, if n in fts then fts[n](|indexes[n]|) else [])]
  {
    assert (before + [n])[..|before|] == before;
  }

  // A provider ahead of the snapshot does stray: hit 1 of an index with one entry is
  // credited to the first entry of the next index.
  lemma StrayHit(e: Entry, f: Entry)
    ensures var segs := Segments(["a", "b"], map["a" := [e], "b" := [f]], map["a" := (n: nat) => [1]]);
            && segs == [Segment(0, 1, [1]), Segment(1, 1, [])]
            && KeywordSum(segs, 1) == Contribution(0) && HitSum(segs[1].hits, 0) == 0.0 && !CreditsOwn(segs)
  {
    hide Contribution, Segments;
    TwoSegments(e, f, map["a" := (n: nat) => [1]]);
    var segs := [Segment(0, 1, [1]), Segment(1, 1, [])];
    assert segs[..1] == [segs[0]] && segs[..1][..0] == [] && [1][..0] == [];
    assert HitSum([1], 1) == Contribution(0);
    assert KeywordSum(segs[..1], 1) == Contribution(0);
    assert CoversPosition(segs[1], 1);
  }

  lemma ScoreOf(ranked: seq<Ranked>, segs: seq<Segment>, k: nat, p: nat, c: nat)
    requires DistinctPositions(ranked) && c < |ranked| && ranked[c].pos == p
    requires OnlyFrom(segs, k, p) && DistinctHits(segs[k].hits)
    ensures forall r: nat :: ReachesAt(segs[k], p, r) ==>
              Score(ranked, segs, p) == Contribution(c) + Contribution(r)
    ensures !Reaches(segs[k], p) ==> Score(ranked, segs, p) == Contribution(c)
  {
    hide Contribution, CosineSum, KeywordSum, HitSum;
    CosineSumOf(ranked, p);
    HitSumOf(segs[k].hits, p - segs[k].offset);
    CreditOfOneIff(segs, k, p);
  }

  // In a search whose providers repeat and stray with no hit, an entry's score is exactly
  // one reciprocal rank for its cosine and one for its hit in its own index, if any.
  lemma ScoreFormula(
      ranked: seq<Ranked>, names: seq<string>, indexes: map<string, seq<Entry>>, fts: map<string, Provider>,
      p: nat, c: nat)
    returns (k: nat)
    requires DistinctPositions(ranked) && c < |ranked| && ranked[c].pos == p
    requires p < |Collect(names, indexes)| && WellAnswered(names, indexes, fts)
    ensures var segs := Segments(names, indexes, fts);
            && k < |segs| && CoversPosition(segs[k], p)
            && (forall r: nat :: ReachesAt(segs[k], p, r) ==>
                Score(ranked, segs, p) == 1.0 / ((61 + c) as real) + 1.0 / ((61 + r) as real))
            && (!Reaches(segs[k], p) ==> Score(ranked, segs, p) == 1.0 / ((61 + c) as real))
  {
    hide Segments, Collect, Score, Reaches, ReachesAt, DistinctHits, Tile;
    var segs := Segments(names, indexes, fts);
    SegmentsTile(names, indexes, fts);
    k := TileCovers(segs, |Collect(names, indexes)|, p);
    OwnerOnly(segs, |Collect(names, indexes)|, k, p);
    ScoreOf(ranked, segs, k, p, c);
  }

  // No list of the search repeats a hit, and no hit leaves its index.
  ghost predicate WellAnswered(names: seq<string>, indexes: map<string, seq<Entry>>, fts: map<string, Provider>) {
    var segs := Segments(names, indexes, fts);
    && NoStray(segs, |Collect(names, indexes)|)
    && forall k :: 0 <= k < |segs| ==> DistinctHits(segs[k].hits)
  }

  // An entry ranked no worse than another on both lists never scores lower, whichever
  // indexes the two come from.
  lemma BetterRanksScoreNoLower(
      ranked: seq<Ranked>, names: seq<string>, indexes: map<string, seq<Entry>>, fts: map<string, Provider>,
      p: nat, c: nat, q: nat, d: nat)
    requires DistinctPositions(ranked) && c <= d < |ranked| && ranked[c].pos == p && ranked[d].pos == q
    requires p < |Collect(names, indexes)| && q < |Collect(names, indexes)| && WellAnswered(names, indexes, fts)
    requires forall r: nat :: HitBy(Segments(names, indexes, fts), q, r) ==> HitBy(Segments(names, indexes, fts), p, r)
    ensures Score(ranked, Segments(names, indexes, fts), p) >= Score(ranked, Segments(names, indexes, fts), q)
  {
    hide Segments, Collect, Score, WellAnswered, CoversPosition, HitBy;
    var segs := Segments(names, indexes, fts);
    ContributionFalls(c, d);
    var k := ScoreFormula(ranked, names, indexes, fts, p, c);
    var j := ScoreFormula(ranked, names, indexes, fts, q, d);
    if Reaches(segs[j], q) {
      var r: nat :| r < |segs[j].hits| && segs[j].hits[r] == q - segs[j].offset;
      assert ReachesAt(segs[j], q, r);
      OwnHit(names, indexes, fts, q, j, r);
      assert HitBy(segs, p, r);
      var r' := HitOfOwn(names, indexes, fts, p, k, r);
      ContributionFalls(r', r);
    } else if Reaches(segs[k], p) {
      var r: nat :| r < |segs[k].hits| && segs[k].hits[r] == p - segs[k].offset;
      assert ReachesAt(segs[k], p, r);
    }
  }

  // Some list holds p at rank r or better.
  ghost predicate HitBy(segs: seq<Segment>, p: int, r: nat) {
    exists k, r': nat :: 0 <= k < |segs| && r' <= r && ReachesAt(segs[k], p, r')
  }

  lemma OwnHit(
      names: seq<string>, indexes: map<string, seq<Entry>>, fts: map<string, Provider>, p: nat, k: nat, r: nat)
    requires k < |Segments(names, indexes, fts)| && ReachesAt(Segments(names, indexes, fts)[k], p, r)
    ensures HitBy(Segments(names, indexes, fts), p, r)
  {
    hide Segments, ReachesAt;
  }

  // A hit is one of the index that holds the entry.
  lemma HitOfOwn(
      names: seq<string>, indexes: map<string, seq<Entry>>, fts: map<string, Provider>, p: nat, k: nat, r: nat)
    returns (r': nat)
    requires WellAnswered(names, indexes, fts) && HitBy(Segments(names, indexes, fts), p, r)
    requires k < |Segments(names, indexes, fts)| && CoversPosition(Segments(names, indexes, fts)[k], p)
    ensures r' <= r && ReachesAt(Segments(names, indexes, fts)[k], p, r')
  {
    hide Segments, Collect, CoversPosition, DistinctHits;
    var segs := Segments(names, indexes, fts);
    var j, rank: nat :| 0 <= j < |segs| && rank <= r && ReachesAt(segs[j], p, rank);
    SegmentsTile(names, indexes, fts);
    OwnerOnly(segs, |Collect(names, indexes)|, k, p);
    r' := rank;
  }
}
