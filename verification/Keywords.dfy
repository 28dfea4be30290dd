// Keyword hits: rows of the keyword index, used as positions in the published index.

module Keywords {
  import opened Data
  import Backend
  import FtsQuery
  import Search
  import Tables

  // What the full-text engine may answer: rows of the index, best first, none twice.
  ghost predicate Answers(ranked: seq<nat>, fts: map<nat, (string, string)>) {
    && (forall i :: 0 <= i < |ranked| ==> ranked[i] in fts)
    && (forall i, j :: 0 <= i < j < |ranked| ==> ranked[i] != ranked[j])
  }

  ghost function Positions(ranked: seq<nat>): seq<int> {
    if ranked == [] then []
    else
      var n := |ranked| - 1;
      Positions(ranked[..n]) + if ranked[n] >= 1 then [ranked[n] - 1] else []
  }

  // keyword_search_fts.
  method KeywordSearch(db: Backend.Db, engine: string -> seq<nat>, query: string, limit: int) returns (hits: seq<int>)
    requires forall m: string :: Answers(engine(m), db.work.fts)
    ensures var m := FtsQuery.Print(FtsQuery.Terms(query));
            hits == if limit <= 0 || m == "" then []
                    else Positions(engine(m)[..if limit < |engine(m)| then limit else |engine(m)|])
    ensures Search.DistinctHits(hits) && forall h :: h in hits ==> h >= 0 && h + 1 in db.work.fts
  {
    hide FtsQuery.Print, FtsQuery.Terms;
    hits := [];
    if limit <= 0 {
      return;
    }
    var m := FtsQuery.BuildMatch(query);
    if m == "" {
      return;
    }
    var ranked := engine(m);
    var n := if limit < |ranked| then limit else |ranked|;
    for i := 0 to n
      invariant hits == Positions(ranked[..i])
    {
      assert ranked[..i + 1][..i] == ranked[..i];
      if ranked[i] >= 1 {
        hits := hits + [ranked[i] - 1];
      }
    }
    PositionsAnswer(ranked[..n], db.work.fts);
  }

  lemma {:induction false} PositionIn(ranked: seq<nat>, h: int)
    ensures h in Positions(ranked) <==> h >= 0 && h + 1 in ranked
  {
    if ranked != [] {
      var n := |ranked| - 1;
      PositionIn(ranked[..n], h);
      assert ranked == ranked[..n] + [ranked[n]];
    }
  }

  lemma {:induction false} PositionsAnswer(ranked: seq<nat>, fts: map<nat, (string, string)>)
    requires Answers(ranked, fts)
    ensures Search.DistinctHits(Positions(ranked)) && forall h :: h in Positions(ranked) ==> h >= 0 && h + 1 in fts
  {
    if ranked != [] {
      var n := |ranked| - 1;
      PositionsAnswer(ranked[..n], fts);
      if ranked[n] >= 1 {
        PositionIn(ranked[..n], ranked[n] - 1);
      }
    }
  }

  // In a database that agrees with the published entries, hit h is published entry h.
  lemma HitDenotesEntry(t: Tables.Tables, metas: seq<Meta>, h: int)
    requires Tables.Aligned(t, metas) && h >= 0 && h + 1 in t.fts
    ensures h < |metas| && t.fts[h + 1] == (metas[h].path, metas[h].chunk)
  {
    assert h + 1 in t.entries;
  }

  // What the providers of a search answer when their databases agree with the snapshots
  // searched: positions of the index itself, none twice.
  ghost predicate AnswersWithin(
      names: seq<string>, indexes: map<string, seq<Search.Entry>>, fts: map<string, Search.Provider>)
  {
    forall n :: n in names && n in indexes && n in fts ==>
      Search.DistinctHits(fts[n](|indexes[n]|)) && forall h :: h in fts[n](|indexes[n]|) ==> 0 <= h < |indexes[n]|
  }

  lemma {:induction false} SegmentsWithin(
      names: seq<string>, indexes: map<string, seq<Search.Entry>>, fts: map<string, Search.Provider>)
    requires AnswersWithin(names, indexes, fts)
    ensures forall k :: 0 <= k < |Search.Segments(names, indexes, fts)| ==>
              var s := Search.Segments(names, indexes, fts)[k];
              Search.DistinctHits(s.hits) && forall h :: h in s.hits ==> 0 <= h < s.count
  {
    hide Search.DistinctHits;
    if names != [] {
      var n := |names| - 1;
      assert forall m :: m in names[..n] ==> m in names;
      SegmentsWithin(names[..n], indexes, fts);
      assert names[n] in names;
    }
    assert Search.DistinctHits([]) by {
      NoHitsDistinct();
    }
  }

  lemma NoHitsDistinct()
    ensures Search.DistinctHits([])
  {
  }

  // Such hits never stray into another index, whichever indexes are searched together, so
  // each is credited to the entries of its own index and to no other.
  lemma AlignedHitsCreditOwn(
      names: seq<string>, indexes: map<string, seq<Search.Entry>>, fts: map<string, Search.Provider>)
    requires AnswersWithin(names, indexes, fts)
    ensures Search.WellAnswered(names, indexes, fts) && Search.CreditsOwn(Search.Segments(names, indexes, fts))
  {
    hide Search.KeywordSum, Search.Collect, Search.Segments, Search.CreditsOwn, AnswersWithin;
    SegmentsWithin(names, indexes, fts);
    var segs, total := Search.Segments(names, indexes, fts), |Search.Collect(names, indexes)|;
    forall k, p | 0 <= k < |segs| && 0 <= p < total && Search.Reaches(segs[k], p)
      ensures Search.CoversPosition(segs[k], p)
    {
      assert p - segs[k].offset in segs[k].hits;
    }
    Search.CreditsOwnIff(names, indexes, fts);
  }
}
