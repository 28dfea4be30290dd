// How lists and keyed lists are laid out in database rows, and read back.

module Separators {

  // Joins a list of strings by a separator character.
  ghost function Join(v: seq<string>, sep: char): string {
    if v == [] then ""
    else if |v| == 1 then v[0]
    else Join(v[..|v| - 1], sep) + [sep] + v[|v| - 1]
  }

  function Find(s: string, sep: char, start: nat): (pos: nat)
    requires start <= |s|
    ensures start <= pos <= |s|
    ensures pos < |s| ==> s[pos] == sep
    ensures forall k :: start <= k < pos ==> s[k] != sep
    decreases |s| - start
  {
    if start == |s| || s[start] == sep then start else Find(s, sep, start + 1)
  }

  // The parts between separators; the empty string is one empty part.
  ghost function Parts(s: string, sep: char): seq<string>
    decreases |s|
  {
    var pos := Find(s, sep, 0);
    if pos == |s| then [s] else [s[..pos]] + Parts(s[pos + 1..], sep)
  }

  ghost function Split(s: string, sep: char): seq<string> {
    if s == "" then [] else Parts(s, sep)
  }

  // join_sep.
  method JoinSep(v: seq<string>, sep: char) returns (out: string)
    ensures out == Join(v, sep)
  {
    out := "";
    for i := 0 to |v|
      invariant out == Join(v[..i], sep)
    {
      assert v[..i + 1][..i] == v[..i];
      if i > 0 {
        out := out + [sep];
      }
      out := out + v[i];
    }
    assert v[..|v|] == v;
  }

  // split_sep.
  method SplitSep(s: string, sep: char) returns (out: seq<string>)
    ensures out == Split(s, sep)
  {
    hide Find, Parts;
    out := [];
    if s == "" {
      return;
    }
    var start := 0;
    assert s[0..] == s;
    while true
      invariant 0 <= start <= |s|
      invariant Parts(s, sep) == out + Parts(s[start..], sep)
      decreases |s| - start
    {
      var pos := Find(s, sep, start);
      PartsFrom(s, sep, start);
      if pos == |s| {
        out := out + [s[start..]];
        break;
      }
      out := out + [s[start..pos]];
      start := pos + 1;
    }
  }

  lemma FirstPart(s: string, sep: char)
    ensures var pos := Find(s, sep, 0);
            Parts(s, sep) == if pos == |s| then [s] else [s[..pos]] + Parts(s[pos + 1..], sep)
  {
    hide Find;
  }

  // The next part, found from `start` on.
  lemma PartsFrom(s: string, sep: char, start: nat)
    requires start <= |s|
    ensures var pos := Find(s, sep, start);
            Parts(s[start..], sep) == if pos == |s| then [s[start..]] else [s[start..pos]] + Parts(s[pos + 1..], sep)
  {
    hide Find, Parts;
    var pos := Find(s, sep, start);
    FindShift(s, sep, start);
    FirstPart(s[start..], sep);
    if pos < |s| {
      assert s[start..][..pos - start] == s[start..pos];
      assert s[start..][pos - start + 1..] == s[pos + 1..];
    }
  }

  lemma FindShift(s: string, sep: char, start: nat)
    requires start <= |s|
    ensures Find(s[start..], sep, 0) == Find(s, sep, start) - start
  {
    hide Find;
    var t := s[start..];
    var p, q := Find(t, sep, 0), Find(s, sep, start) - start;
    assert forall k :: 0 <= k < |t| ==> t[k] == s[start + k];
    assert p < |t| ==> s[start + p] == sep;
    assert q < |t| ==> t[q] == sep;
  }

  ghost predicate Free(s: string, sep: char) {
    sep !in s
  }

  ghost predicate AllFree(v: seq<string>, sep: char) {
    forall i :: 0 <= i < |v| ==> Free(v[i], sep)
  }

  ghost function Count(s: string, sep: char): nat {
    if s == "" then 0 else (if s[0] == sep then 1 else 0) + Count(s[1..], sep)
  }

  lemma {:induction false} CountAppend(a: string, b: string, sep: char)
    ensures Count(a + b, sep) == Count(a, sep) + Count(b, sep)
  {
    if a == "" {
      assert a + b == b;
    } else {
      CountAppend(a[1..], b, sep);
      assert (a + b)[1..] == a[1..] + b;
    }
  }

  lemma {:induction false} CountZero(s: string, sep: char)
    ensures Count(s, sep) == 0 <==> Free(s, sep)
  {
    if s != "" {
      CountZero(s[1..], sep);
      assert s == [s[0]] + s[1..];
    }
  }

  lemma {:induction false} PartsCount(s: string, sep: char)
    ensures |Parts(s, sep)| == 1 + Count(s, sep)
    decreases |s|
  {
    hide Find;
    var pos := Find(s, sep, 0);
    CountZero(s[..pos], sep);
    if pos == |s| {
      assert s[..pos] == s;
    } else {
      PartsCount(s[pos + 1..], sep);
      assert s == s[..pos] + ([sep] + s[pos + 1..]);
      CountAppend(s[..pos], [sep] + s[pos + 1..], sep);
      assert ([sep] + s[pos + 1..])[1..] == s[pos + 1..];
    }
  }

  lemma {:induction false} JoinCount(v: seq<string>, sep: char)
    requires v != []
    ensures Count(Join(v, sep), sep) >= |v| - 1
    ensures Count(Join(v, sep), sep) == |v| - 1 <==> AllFree(v, sep)
  {
    hide Free;
    var n := |v| - 1;
    CountZero(v[n], sep);
    if n > 0 {
      JoinCount(v[..n], sep);
      CountAppend(Join(v[..n], sep) + [sep], v[n], sep);
      CountAppend(Join(v[..n], sep), [sep], sep);
      assert Count([sep], sep) == 1;
      assert forall i :: 0 <= i < n ==> v[..n][i] == v[i];
    }
  }

  lemma {:induction false} PartsAppend(a: string, b: string, sep: char)
    requires Free(b, sep)
    ensures Parts(a + [sep] + b, sep) == Parts(a, sep) + [b]
    decreases |a|
  {
    hide Find;
    var s := a + [sep] + b;
    var pos := Find(a, sep, 0);
    FindIs(s, sep, pos);
    if pos == |a| {
      assert s[..pos] == a && s[pos + 1..] == b;
      FindIs(b, sep, |b|);
      assert Parts(b, sep) == [b];
    } else {
      assert s[pos + 1..] == a[pos + 1..] + [sep] + b;
      PartsAppend(a[pos + 1..], b, sep);
      assert s[..pos] == a[..pos];
    }
  }

  lemma FindIs(s: string, sep: char, pos: nat)
    requires pos <= |s| && (pos < |s| ==> s[pos] == sep) && forall k :: 0 <= k < pos ==> s[k] != sep
    ensures Find(s, sep, 0) == pos
  {
    hide Find;
    assert Find(s, sep, 0) < |s| ==> s[Find(s, sep, 0)] == sep;
  }

  lemma {:induction false} PartsJoin(v: seq<string>, sep: char)
    requires v != [] && AllFree(v, sep)
    ensures Parts(Join(v, sep), sep) == v
  {
    hide Find, Free, Parts;
    var n := |v| - 1;
    if n == 0 {
      OnePart(v[0], sep);
    } else {
      PartsJoin(v[..n], sep);
      PartsAppend(Join(v[..n], sep), v[n], sep);
      assert v == v[..n] + [v[n]];
    }
  }

  lemma OnePart(s: string, sep: char)
    requires Free(s, sep)
    ensures Parts(s, sep) == [s]
  {
    hide Find;
    FindIs(s, sep, |s|);
  }

  // A list survives being stored as one string exactly when no element holds the
  // separator and it is not the one-element list of the empty string.
  lemma SplitJoinIff(v: seq<string>, sep: char)
    ensures Split(Join(v, sep), sep) == v <==> AllFree(v, sep) && v != [""]
  {
    hide Find, Parts, Free;
    var s := Join(v, sep);
    if v != [] {
      JoinCount(v, sep);
      PartsCount(s, sep);
      if AllFree(v, sep) {
        PartsJoin(v, sep);
        if s == "" {
          OnePartOfNone(sep);
        }
      }
    }
  }

  lemma OnePartOfNone(sep: char)
    ensures Parts("", sep) == [""]
  {
  }

  lemma {:induction false} JoinCons(a: string, v: seq<string>, sep: char)
    requires v != []
    ensures Join([a] + v, sep) == a + [sep] + Join(v, sep)
  {
    var n := |v| - 1;
    var w := [a] + v;
    assert w[..|w| - 1] == [a] + v[..n];
    if n > 0 {
      JoinCons(a, v[..n], sep);
    }
  }

  lemma {:induction false} JoinParts(s: string, sep: char)
    ensures Parts(s, sep) != [] && Join(Parts(s, sep), sep) == s
    decreases |s|
  {
    hide Find;
    var pos := Find(s, sep, 0);
    if pos < |s| {
      JoinParts(s[pos + 1..], sep);
      JoinCons(s[..pos], Parts(s[pos + 1..], sep), sep);
    }
  }

  // A stored string split and joined again is itself, whatever it holds.
  lemma JoinSplit(s: string, sep: char)
    ensures Join(Split(s, sep), sep) == s
  {
    hide Parts;
    JoinParts(s, sep);
  }

  // Whatever was stored, what is read back holds no separator.
  lemma SplitFree(s: string, sep: char)
    ensures AllFree(Split(s, sep), sep)
  {
    if s != "" {
      PartsFree(s, sep);
    }
  }

  lemma {:induction false} PartsFree(s: string, sep: char)
    ensures AllFree(Parts(s, sep), sep)
    decreases |s|
  {
    hide Find;
    var pos := Find(s, sep, 0);
    if pos < |s| {
      PartsFree(s[pos + 1..], sep);
    }
  }

  // Read back in general: the list itself, except that [""] comes back empty.
  ghost function Normal(v: seq<string>): seq<string> {
    if v == [""] then [] else v
  }

  lemma SplitJoinNormal(v: seq<string>, sep: char)
    requires AllFree(v, sep)
    ensures Split(Join(v, sep), sep) == Normal(v)
  {
    if v != [""] {
      SplitJoinIff(v, sep);
    }
  }
}

module Grouping {

  // Appends every value to its key's list, in order.
  ghost function Group<V>(ps: seq<(string, V)>): map<string, seq<V>> {
    if ps == [] then map[]
    else
      var n := |ps| - 1;
      var g := Group(ps[..n]);
      var k := ps[n].0;
      g[k := (if k in g then g[k] else []) + [ps[n].1]]
  }

  ghost function Tag<V>(k: string, vs: seq<V>): seq<(string, V)> {
    seq(|vs|, i requires 0 <= i < |vs| => (k, vs[i]))
  }

  // One pair per value, key by key.
  ghost function Flatten<V>(m: map<string, seq<V>>, keys: seq<string>): seq<(string, V)>
    requires forall k :: k in keys ==> k in m
  {
    if keys == [] then []
    else
      var n := |keys| - 1;
      Flatten(m, keys[..n]) + Tag(keys[n], m[keys[n]])
  }

  ghost function DropEmpty<V>(m: map<string, seq<V>>): map<string, seq<V>> {
    map k | k in m && m[k] != [] :: m[k]
  }

  // The keys of a map, each once, in some order.
  ghost predicate Enumerates(keys: seq<string>, s: set<string>) {
    && (forall i, j :: 0 <= i < j < |keys| ==> keys[i] != keys[j])
    && (forall k :: k in keys <==> k in s)
  }

  lemma {:induction false} EnumerationExists(s: set<string>) returns (keys: seq<string>)
    ensures Enumerates(keys, s)
    decreases s
  {
    if s == {} {
      keys := [];
    } else {
      var k :| k in s;
      var rest := EnumerationExists(s - {k});
      keys := rest + [k];
    }
  }

  // The values of one key, in order.
  ghost function ValuesOf<V>(ps: seq<(string, V)>, k: string): seq<V> {
    if ps == [] then []
    else
      var n := |ps| - 1;
      ValuesOf(ps[..n], k) + if ps[n].0 == k then [ps[n].1] else []
  }

  lemma {:induction false} GroupIs<V>(ps: seq<(string, V)>, k: string)
    ensures k in Group(ps) <==> ValuesOf(ps, k) != []
    ensures k in Group(ps) ==> Group(ps)[k] == ValuesOf(ps, k)
  {
    if ps != [] {
      GroupIs(ps[..|ps| - 1], k);
    }
  }

  lemma {:induction false} ValuesAppend<V>(a: seq<(string, V)>, b: seq<(string, V)>, k: string)
    ensures ValuesOf(a + b, k) == ValuesOf(a, k) + ValuesOf(b, k)
  {
    if b == [] {
      assert a + b == a;
    } else {
      var n := |b| - 1;
      assert (a + b)[..|a + b| - 1] == a + b[..n];
      ValuesAppend(a, b[..n], k);
    }
  }

  lemma {:induction false} ValuesPermuted<V>(a: seq<(string, V)>, b: seq<(string, V)>, k: string)
    requires multiset(a) == multiset(b)
    ensures multiset(ValuesOf(a, k)) == multiset(ValuesOf(b, k))
    decreases |a|
  {
    if a == [] {
      assert |b| == |multiset(b)| == |multiset(a)| == 0;
    } else {
      var n := |a| - 1;
      assert a[n] in multiset(b);
      var i :| 0 <= i < |b| && b[i] == a[n];
      RemoveOne(a, n);
      RemoveOne(b, i);
      assert a[..n] + a[n + 1..] == a[..n];
      ValuesPermuted(a[..n], b[..i] + b[i + 1..], k);
      ValuesRemoveOne(a, n, k);
      ValuesRemoveOne(b, i, k);
    }
  }

  lemma RemoveOne<T>(s: seq<T>, i: nat)
    requires i < |s|
    ensures multiset(s[..i] + s[i + 1..]) == multiset(s) - multiset{s[i]}
  {
    assert s == s[..i] + [s[i]] + s[i + 1..];
  }

  lemma ValuesRemoveOne<V>(s: seq<(string, V)>, i: nat, k: string)
    requires i < |s|
    ensures multiset(ValuesOf(s, k)) == multiset(ValuesOf(s[..i] + s[i + 1..], k)) +
                                        if s[i].0 == k then multiset{s[i].1} else multiset{}
  {
    assert s == s[..i] + ([s[i]] + s[i + 1..]);
    ValuesAppend(s[..i], [s[i]] + s[i + 1..], k);
    ValuesAppend([s[i]], s[i + 1..], k);
    ValuesAppend(s[..i], s[i + 1..], k);
  }

  lemma {:induction false} ValuesTag<V>(k: string, vs: seq<V>, key: string)
    ensures ValuesOf(Tag(k, vs), key) == if key == k then vs else []
  {
    if vs != [] {
      var n := |vs| - 1;
      assert Tag(k, vs)[..n] == Tag(k, vs[..n]);
      ValuesTag(k, vs[..n], key);
      assert vs[..n] + [vs[n]] == vs;
    }
  }

  lemma NoValues<V>(k: string)
    ensures ValuesOf<V>([], k) == []
  {
  }

  lemma KeyInPrefix(keys: seq<string>, key: string)
    requires keys != []
    ensures key in keys <==> key in keys[..|keys| - 1] || key == keys[|keys| - 1]
  {
  }

  lemma {:induction false} ValuesFlatten<V>(m: map<string, seq<V>>, keys: seq<string>, key: string)
    requires forall k :: k in keys ==> k in m
    requires forall i, j :: 0 <= i < j < |keys| ==> keys[i] != keys[j]
    ensures ValuesOf(Flatten(m, keys), key) == if key in keys then m[key] else []
  {
    hide ValuesOf, Tag;
    NoValues<V>(key);
    if keys != [] {
      var n := |keys| - 1;
      ValuesFlatten(m, keys[..n], key);
      ValuesAppend(Flatten(m, keys[..n]), Tag(keys[n], m[keys[n]]), key);
      ValuesTag(keys[n], m[keys[n]], key);
      KeyInPrefix(keys, key);
    }
  }

  // Flattening a keyed list and grouping it again drops the empty lists and nothing else.
  lemma GroupFlatten<V>(m: map<string, seq<V>>, keys: seq<string>)
    requires Enumerates(keys, m.Keys)
    ensures Group(Flatten(m, keys)) == DropEmpty(m)
  {
    hide Flatten, Group;
    var g, d := Group(Flatten(m, keys)), DropEmpty(m);
    forall k
      ensures (k in g <==> k in d) && (k in g && k in d ==> g[k] == d[k])
    {
      GroupIs(Flatten(m, keys), k);
      ValuesFlatten(m, keys, k);
    }
  }

  // Whatever order the rows come back in, each key has the same values, as a multiset.
  ghost predicate SameGroups<V>(a: map<string, seq<V>>, b: map<string, seq<V>>) {
    a.Keys == b.Keys && forall k :: k in a && k in b ==> multiset(a[k]) == multiset(b[k])
  }

  lemma GroupPermuted<V>(a: seq<(string, V)>, b: seq<(string, V)>)
    requires multiset(a) == multiset(b)
    ensures SameGroups(Group(a), Group(b))
  {
    forall k
      ensures multiset(ValuesOf(a, k)) == multiset(ValuesOf(b, k))
      ensures (k in Group(a) <==> k in Group(b)) && (k in Group(a) ==> multiset(Group(a)[k]) == multiset(Group(b)[k]))
    {
      ValuesPermuted(a, b, k);
      assert |ValuesOf(a, k)| == |multiset(ValuesOf(a, k))|;
      assert |ValuesOf(b, k)| == |multiset(ValuesOf(b, k))|;
      GroupIs(a, k);
      GroupIs(b, k);
    }
  }

  ghost function Mapped<A, B>(f: A -> B, s: seq<A>): (r: seq<B>)
    ensures |r| == |s|
  {
    seq(|s|, i requires 0 <= i < |s| => f(s[i]))
  }

  lemma {:induction false} MappedPermuted<A, B>(f: A -> B, a: seq<A>, b: seq<A>)
    requires multiset(a) == multiset(b)
    ensures multiset(Mapped(f, a)) == multiset(Mapped(f, b))
    decreases |a|
  {
    if a == [] {
      assert |b| == |multiset(b)| == |multiset(a)| == 0;
    } else {
      var n := |a| - 1;
      assert a[n] in multiset(b);
      var i :| 0 <= i < |b| && b[i] == a[n];
      RemoveOne(a, n);
      RemoveOne(b, i);
      assert a[..n] + a[n + 1..] == a[..n];
      MappedPermuted(f, a[..n], b[..i] + b[i + 1..]);
      MappedRemoveOne(f, a, n);
      MappedRemoveOne(f, b, i);
    }
  }

  lemma MappedRemoveOne<A, B>(f: A -> B, s: seq<A>, i: nat)
    requires i < |s|
    ensures multiset(Mapped(f, s)) == multiset(Mapped(f, s[..i] + s[i + 1..])) + multiset{f(s[i])}
  {
    assert Mapped(f, s) == Mapped(f, s[..i]) + [f(s[i])] + Mapped(f, s[i + 1..]);
    assert Mapped(f, s[..i] + s[i + 1..]) == Mapped(f, s[..i]) + Mapped(f, s[i + 1..]);
  }

  // Every value changed by a function of it.
  ghost function MapLists<V, W>(f: V -> W, m: map<string, seq<V>>): map<string, seq<W>> {
    map k | k in m :: Mapped(f, m[k])
  }

  ghost function Second<V, W>(f: V -> W): ((string, V)) -> (string, W) {
    (p: (string, V)) => (p.0, f(p.1))
  }

  lemma {:induction false} FlattenMapped<V, W>(f: V -> W, m: map<string, seq<V>>, keys: seq<string>)
    requires forall k :: k in keys ==> k in m
    ensures Mapped(Second(f), Flatten(m, keys)) == Flatten(MapLists(f, m), keys)
  {
    if keys != [] {
      var n := |keys| - 1;
      FlattenMapped(f, m, keys[..n]);
      assert Mapped(Second(f), Tag(keys[n], m[keys[n]])) == Tag(keys[n], Mapped(f, m[keys[n]]));
      MappedAppend(Second(f), Flatten(m, keys[..n]), Tag(keys[n], m[keys[n]]));
    }
  }

  lemma MappedAppend<A, B>(f: A -> B, a: seq<A>, b: seq<A>)
    ensures Mapped(f, a + b) == Mapped(f, a) + Mapped(f, b)
  {
  }
}
