// Splitting a file into the chunks that are embedded: at the lines a pattern
// matches, or into overlapping windows of characters.

module Chunking {

  datatype Chunk = Chunk(heading: string, line: nat, endLine: nat, content: string)

  // The position of the first line end at or after i, or the end of the text.
  function Eol(s: string, i: nat): (e: nat)
    requires i <= |s|
    ensures i <= e <= |s|
    ensures e < |s| ==> s[e] == '\n'
    ensures forall k :: i <= k < e ==> s[k] != '\n'
    decreases |s| - i
  {
    if i == |s| || s[i] == '\n' then i else Eol(s, i + 1)
  }

  // The lines of s from position i on.
  ghost function LinesFrom(s: string, i: nat): seq<string>
    decreases |s| - i
  {
    if i >= |s| then [] else [s[i..Eol(s, i)]] + LinesFrom(s, Eol(s, i) + 1)
  }

  ghost function Lines(s: string): seq<string> {
    LinesFrom(s, 0)
  }

  ghost function Join(ls: seq<string>): string {
    if ls == [] then ""
    else if |ls| == 1 then ls[0]
    else Join(ls[..|ls| - 1]) + "\n" + ls[|ls| - 1]
  }

  lemma {:induction false} JoinAppend(a: seq<string>, b: seq<string>)
    requires a != [] && b != []
    ensures Join(a + b) == Join(a) + "\n" + Join(b)
  {
    var n := |b| - 1;
    assert (a + b)[..|a + b| - 1] == a + b[..n];
    if n == 0 {
      assert a + b[..n] == a;
    } else {
      JoinAppend(a, b[..n]);
      assert b[..n] != [];
    }
  }

  lemma JoinOne(l: string)
    ensures Join([l]) == l && Join([]) == ""
  {
  }

  ghost function WithoutFinalNewline(s: string): string {
    if s != "" && s[|s| - 1] == '\n' then s[..|s| - 1] else s
  }

  lemma FinalNewline(first: string, t: string)
    ensures WithoutFinalNewline(first + "\n") == first
    ensures t != "" ==> WithoutFinalNewline(first + "\n" + t) == first + "\n" + WithoutFinalNewline(t)
  {
    assert (first + "\n")[..|first|] == first;
    if t != "" {
      var u := first + "\n" + t;
      assert u[..|u| - 1] == first + "\n" + t[..|t| - 1];
    }
  }

  // Splitting into lines forgets one final newline and nothing else.
  lemma {:induction false} LinesJoin(s: string, i: nat)
    requires i < |s|
    ensures LinesFrom(s, i) != [] && Join(LinesFrom(s, i)) == WithoutFinalNewline(s[i..])
    decreases |s| - i
  {
    hide Eol, Join, LinesFrom, WithoutFinalNewline;
    var e := Eol(s, i);
    var first, rest := s[i..e], LinesFrom(s, e + 1);
    LinesStep(s, i, []);
    JoinOne(first);
    if e + 1 < |s| {
      LinesJoin(s, e + 1);
      JoinAppend([first], rest);
      assert s[i..] == first + "\n" + s[e + 1..];
      FinalNewline(first, s[e + 1..]);
    } else {
      LastLine(s, i);
    }
  }

  lemma LastLine(s: string, i: nat)
    requires i < |s| && Eol(s, i) + 1 >= |s|
    ensures LinesFrom(s, i) == [s[i..Eol(s, i)]] && WithoutFinalNewline(s[i..]) == s[i..Eol(s, i)]
  {
    hide Eol, LinesFrom, WithoutFinalNewline;
    LinesEnd(s);
    LinesStep(s, i, []);
    LastPart(s[i..], Eol(s, i) - i);
    assert s[i..][..Eol(s, i) - i] == s[i..Eol(s, i)];
  }

  lemma LastPart(u: string, e: nat)
    requires e <= |u| <= e + 1 && u != ""
    requires e < |u| ==> u[e] == '\n'
    requires forall k :: 0 <= k < e ==> u[k] != '\n'
    ensures WithoutFinalNewline(u) == u[..e]
  {
  }

  // Up to the first '(' or '{', without trailing spaces.
  function HeadingOf(line: string): string {
    TrimRight(line[..FirstBracket(line, 0)])
  }

  function FirstBracket(s: string, i: nat): (e: nat)
    requires i <= |s|
    ensures i <= e <= |s|
    decreases |s| - i
  {
    if i == |s| || s[i] == '(' || s[i] == '{' then i else FirstBracket(s, i + 1)
  }

  function TrimRight(s: string): string {
    if s != "" && s[|s| - 1] == ' ' then TrimRight(s[..|s| - 1]) else s
  }

  // The heading is the line up to its first '(' or '{', if it has one, without trailing spaces.
  ghost predicate IsHeading(line: string, heading: string) {
    exists spaces: string, rest: string ::
      && line == heading + spaces + rest
      && (forall k :: 0 <= k < |spaces| ==> spaces[k] == ' ')
      && (rest != "" ==> rest[0] == '(' || rest[0] == '{')
      && Bracketless(heading) && (heading != "" ==> heading[|heading| - 1] != ' ')
  }

  ghost predicate Bracketless(s: string) {
    forall k :: 0 <= k < |s| ==> s[k] != '(' && s[k] != '{'
  }

  lemma {:induction false} BracketIsFirst(s: string, i: nat)
    requires i <= |s|
    ensures var e := FirstBracket(s, i);
            (forall k :: i <= k < e ==> s[k] != '(' && s[k] != '{') && (e < |s| ==> s[e] == '(' || s[e] == '{')
    decreases |s| - i
  {
    if i < |s| && s[i] != '(' && s[i] != '{' {
      BracketIsFirst(s, i + 1);
    }
  }

  lemma {:induction false} Trimmed(s: string) returns (spaces: string)
    ensures s == TrimRight(s) + spaces && forall k :: 0 <= k < |spaces| ==> spaces[k] == ' '
    ensures TrimRight(s) != "" ==> TrimRight(s)[|TrimRight(s)| - 1] != ' '
  {
    if s != "" && s[|s| - 1] == ' ' {
      var n := |s| - 1;
      spaces := Trimmed(s[..n]);
      assert s == TrimRight(s) + (spaces + [s[n]]);
      spaces := spaces + [s[n]];
    } else {
      spaces := "";
    }
  }

  lemma HeadingHeads(line: string)
    ensures IsHeading(line, HeadingOf(line))
  {
    hide FirstBracket, TrimRight;
    BracketIsFirst(line, 0);
    var e := FirstBracket(line, 0);
    var spaces := Trimmed(line[..e]);
    var heading := TrimRight(line[..e]);
    var rest := line[e..];
    assert line == heading + spaces + rest;
    assert rest != "" ==> rest[0] == line[e];
    assert forall k :: 0 <= k < |heading| ==> heading[k] == line[k];
  }

  // A line has one heading.
  lemma HeadingIsOne(line: string, a: string, b: string)
    requires IsHeading(line, a) && IsHeading(line, b)
    ensures a == b
  {
    HeadingNoLonger(line, a, b);
    HeadingNoLonger(line, b, a);
    assert a == line[..|a|] && b == line[..|b|];
  }

  lemma HeadingNoLonger(line: string, a: string, b: string)
    requires IsHeading(line, a) && IsHeading(line, b)
    ensures |b| <= |a|
  {
    var e := HeadingEnds(line, a);
    HeadingBegins(line, b);
  }

  // After the heading there are spaces up to a bracket or the end.
  lemma HeadingEnds(line: string, h: string) returns (e: nat)
    requires IsHeading(line, h)
    ensures |h| <= e <= |line| && forall k :: |h| <= k < e ==> line[k] == ' '
    ensures e < |line| ==> line[e] == '(' || line[e] == '{'
  {
    var spaces: string, rest: string :|
      line == h + spaces + rest && (forall k :: 0 <= k < |spaces| ==> spaces[k] == ' ')
      && (rest != "" ==> rest[0] == '(' || rest[0] == '{');
    e := |h + spaces|;
    assert forall k :: |h| <= k < e ==> line[k] == spaces[k - |h|];
  }

  lemma HeadingBegins(line: string, h: string)
    requires IsHeading(line, h)
    ensures h == line[..|h|] && |h| <= |line| && Bracketless(line[..|h|]) && (h != "" ==> line[|h| - 1] != ' ')
  {
  }

  // What the line loop keeps between lines.
  datatype Splitter = Splitter(chunks: seq<Chunk>, heading: string, body: string, start: nat, line: nat)

  // The effect of one line.
  ghost function Feed(st: Splitter, l: string, isSplit: string -> bool): Splitter {
    var st1 :=
      if isSplit(l) && (st.body != "" || st.heading != "") then
        Splitter(st.chunks + [Chunk(st.heading, st.start, 0, st.body)], HeadingOf(l), "", st.line, st.line)
      else if isSplit(l) && st.body == "" then
        Splitter(st.chunks, HeadingOf(l), "", st.line, st.line)
      else st;
    st1.(body := if st1.body == "" then l else st1.body + "\n" + l, line := st1.line + 1)
  }

  ghost function FeedAll(ls: seq<string>, isSplit: string -> bool): Splitter {
    if ls == [] then Splitter([], "", "", 1, 1)
    else Feed(FeedAll(ls[..|ls| - 1], isSplit), ls[|ls| - 1], isSplit)
  }

  ghost function Finish(st: Splitter): seq<Chunk> {
    if st.body != "" || st.heading != "" then st.chunks + [Chunk(st.heading, st.start, 0, st.body)] else st.chunks
  }

  ghost function ChunksOf(ls: seq<string>, isSplit: string -> bool): seq<Chunk> {
    Finish(FeedAll(ls, isSplit))
  }

  // RegexChunker::chunk, for the pattern "isSplit".
  method ChunkLines(content: string, isSplit: string -> bool) returns (chunks: seq<Chunk>)
    ensures chunks == ChunksOf(Lines(content), isSplit)
  {
    hide HeadingOf, Eol, LinesFrom, FeedAll;
    FeedNone(isSplit);
    LinesEnd(content);
    chunks := [];
    var heading, body := "", "";
    var chunkStart, currentLine := 1, 1;
    var i := 0;
    ghost var done := [];
    while i < |content|
      invariant 0 <= i <= |content| + 1
      invariant Lines(content) == done + LinesFrom(content, i)
      invariant FeedAll(done, isSplit) == Splitter(chunks, heading, body, chunkStart, currentLine)
      decreases |content| - i
    {
      var eol := Eol(content, i);
      var line := content[i..eol];
      var split := isSplit(line);
      LinesStep(content, i, done);
      FeedOne(done, line, isSplit);
      if split && (body != "" || heading != "") {
        chunks := chunks + [Chunk(heading, chunkStart, 0, body)];
        body := "";
        heading := HeadingOf(line);
        chunkStart := currentLine;
      } else if split && body == "" {
        heading := HeadingOf(line);
        chunkStart := currentLine;
      }
      if body != "" {
        body := body + "\n";
      }
      body := body + line;
      done := done + [line];
      i := eol + 1;
      currentLine := currentLine + 1;
    }
    if body != "" || heading != "" {
      chunks := chunks + [Chunk(heading, chunkStart, 0, body)];
    }
    assert done + [] == done;
  }

  lemma FeedNone(isSplit: string -> bool)
    ensures FeedAll([], isSplit) == Splitter([], "", "", 1, 1)
  {
  }

  lemma FeedOne(ls: seq<string>, l: string, isSplit: string -> bool)
    ensures FeedAll(ls + [l], isSplit) == Feed(FeedAll(ls, isSplit), l, isSplit)
  {
    assert (ls + [l])[..|ls|] == ls;
  }

  lemma LinesEnd(s: string)
    ensures forall i :: |s| <= i ==> LinesFrom(s, i) == []
  {
  }

  lemma LinesStep(s: string, i: nat, before: seq<string>)
    requires i < |s|
    ensures LinesFrom(s, i) == [s[i..Eol(s, i)]] + LinesFrom(s, Eol(s, i) + 1)
    ensures before + LinesFrom(s, i) == (before + [s[i..Eol(s, i)]]) + LinesFrom(s, Eol(s, i) + 1)
  {
    hide Eol;
  }

  // The number of blank lines at the front.
  ghost function LeadingBlank(ls: seq<string>): (n: nat)
    ensures n <= |ls|
    ensures forall k :: 0 <= k < n ==> ls[k] == ""
    ensures n < |ls| ==> ls[n] != ""
  {
    if ls == [] || ls[0] != "" then 0 else 1 + LeadingBlank(ls[1..])
  }

  // c is made of the lines a..b: none but the first matches; a matching first line
  // gives the heading and the line number.  The last line is not recorded.
  ghost predicate Covers(ls: seq<string>, isSplit: string -> bool, c: Chunk, a: nat, b: nat) {
    && a < b <= |ls|
    && c.content == Join(ls[a..b])
    && (forall j :: a < j < b ==> !isSplit(ls[j]))
    && (if isSplit(ls[a]) then IsHeading(ls[a], c.heading) && c.line == a + 1 else c.heading == "" && c.line == 1)
    && c.endLine == 0
  }

  // The chunks cover all lines after the leading blank ones, without gap or overlap;
  // every chunk but the first starts at a matching line.
  ghost predicate Tiles(ls: seq<string>, isSplit: string -> bool, chunks: seq<Chunk>, cuts: seq<nat>) {
    && |cuts| == |chunks| + 1
    && cuts[0] == LeadingBlank(ls) && cuts[|chunks|] == |ls|
    && (forall k :: 0 <= k < |chunks| ==> Covers(ls, isSplit, chunks[k], cuts[k], cuts[k + 1]))
    && (forall k :: 0 < k < |chunks| ==> cuts[k] < |ls| && isSplit(ls[cuts[k]]))
  }

  ghost function Contents(chunks: seq<Chunk>): seq<string> {
    seq(|chunks|, k requires 0 <= k < |chunks| => chunks[k].content)
  }

  // The number of newlines at the front of a text.
  ghost function LeadingNewlines(s: string): (n: nat)
    ensures n <= |s|
  {
    if s != "" && s[0] == '\n' then 1 + LeadingNewlines(s[1..]) else 0
  }

  // The bodies of the chunks, joined by newlines, are the text of the file without its
  // leading newlines and without one final newline.
  ghost predicate Conserves(content: string, isSplit: string -> bool) {
    Join(Contents(ChunksOf(Lines(content), isSplit))) == WithoutFinalNewline(content[LeadingNewlines(content)..])
  }

  lemma {:induction false} LeadingBlankGrows(ls: seq<string>, l: string)
    ensures LeadingBlank(ls + [l]) ==
            if LeadingBlank(ls) < |ls| then LeadingBlank(ls) else if l == "" then |ls| + 1 else |ls|
  {
    if ls == [] {
      assert ([] + [l])[1..] == [];
    } else {
      LeadingBlankGrows(ls[1..], l);
      assert (ls + [l])[1..] == ls[1..] + [l];
    }
  }

  lemma CoversGrows(ls: seq<string>, isSplit: string -> bool, c: Chunk, a: nat, b: nat, l: string)
    requires Covers(ls, isSplit, c, a, b)
    ensures Covers(ls + [l], isSplit, c, a, b)
  {
    hide Join, IsHeading;
    assert (ls + [l])[a..b] == ls[a..b];
  }

  lemma CoversLine(ls: seq<string>, isSplit: string -> bool, l: string, c: Chunk)
    requires c.content == l
    requires if isSplit(l) then c.heading == HeadingOf(l) && c.line == |ls| + 1 else c.heading == "" && c.line == 1
    requires c.endLine == 0
    ensures Covers(ls + [l], isSplit, c, |ls|, |ls| + 1)
  {
    hide Join, HeadingOf, IsHeading;
    assert (ls + [l])[|ls|..|ls| + 1] == [l];
    JoinOne(l);
    HeadingHeads(l);
  }

  lemma CoversExtend(ls: seq<string>, isSplit: string -> bool, c: Chunk, a: nat, l: string)
    requires Covers(ls, isSplit, c, a, |ls|) && !isSplit(l)
    ensures Covers(ls + [l], isSplit, c.(content := c.content + "\n" + l), a, |ls| + 1)
  {
    hide Join, IsHeading;
    assert ls[a..|ls|] != [] && (ls + [l])[a..|ls| + 1] == ls[a..|ls|] + [l];
    JoinAppend(ls[a..|ls|], [l]);
    JoinOne(l);
  }

  // The state after some lines: blank so far, or a tiling whose last chunk is open.
  ghost predicate Tiled(ls: seq<string>, isSplit: string -> bool, st: Splitter, cuts: seq<nat>) {
    && st.line == |ls| + 1
    && Tiles(ls, isSplit, Finish(st), cuts)
    && (if LeadingBlank(ls) == |ls| then st == Splitter([], "", "", 1, |ls| + 1) else st.body != "")
  }

  lemma {:induction false} FeedTiles(ls: seq<string>, isSplit: string -> bool) returns (cuts: seq<nat>)
    requires !isSplit("")
    ensures Tiled(ls, isSplit, FeedAll(ls, isSplit), cuts)
  {
    if ls == [] {
      cuts := [0];
    } else {
      var before, l := ls[..|ls| - 1], ls[|ls| - 1];
      assert before + [l] == ls;
      var was := FeedTiles(before, isSplit);
      cuts := FeedOneTiles(before, isSplit, FeedAll(before, isSplit), was, l);
    }
  }

  lemma FeedOneTiles(ls: seq<string>, isSplit: string -> bool, st: Splitter, was: seq<nat>, l: string)
    returns (cuts: seq<nat>)
    requires !isSplit("") && Tiled(ls, isSplit, st, was)
    ensures Tiled(ls + [l], isSplit, Feed(st, l, isSplit), cuts)
  {
    hide LeadingBlank, HeadingOf, Covers;
    LeadingBlankGrows(ls, l);
    var next := Feed(st, l, isSplit);
    var chunks, chunks' := Finish(st), Finish(next);
    var n := |chunks|;
    forall k | 0 <= k < n
      ensures Covers(ls + [l], isSplit, chunks[k], was[k], was[k + 1])
    {
      CoversGrows(ls, isSplit, chunks[k], was[k], was[k + 1], l);
    }
    if st.body == "" {
      if l == "" {
        cuts := [|ls| + 1];
      } else {
        cuts := [|ls|, |ls| + 1];
        CoversLine(ls, isSplit, l, chunks'[0]);
      }
    } else if isSplit(l) {
      cuts := was + [|ls| + 1];
      CoversLine(ls, isSplit, l, chunks'[n]);
    } else {
      cuts := was[n := |ls| + 1];
      CoversExtend(ls, isSplit, chunks[n - 1], was[n - 1], l);
    }
  }

  // For a pattern that does not match the empty line, the chunks tile the lines.
  lemma ChunksTile(ls: seq<string>, isSplit: string -> bool) returns (cuts: seq<nat>)
    requires !isSplit("")
    ensures Tiles(ls, isSplit, ChunksOf(ls, isSplit), cuts)
  {
    cuts := FeedTiles(ls, isSplit);
  }

  lemma {:induction false} TilesJoin(ls: seq<string>, isSplit: string -> bool, chunks: seq<Chunk>, cuts: seq<nat>,
      k: nat)
    requires Tiles(ls, isSplit, chunks, cuts) && k <= |chunks|
    ensures cuts[0] <= cuts[k] <= |ls|
    ensures k > 0 ==> cuts[0] < cuts[k]
    ensures Join(Contents(chunks[..k])) == Join(ls[cuts[0]..cuts[k]])
  {
    hide Join, LeadingBlank, HeadingOf;
    JoinOne("");
    if k == 0 {
      assert Contents(chunks[..0]) == [] && ls[cuts[0]..cuts[0]] == [];
    } else {
      TilesJoin(ls, isSplit, chunks, cuts, k - 1);
      var c := chunks[k - 1];
      assert Covers(ls, isSplit, c, cuts[k - 1], cuts[k - 1 + 1]);
      assert Contents(chunks[..k]) == Contents(chunks[..k - 1]) + [c.content];
      JoinOne(c.content);
      if k > 1 {
        JoinAppend(Contents(chunks[..k - 1]), [c.content]);
        JoinAppend(ls[cuts[0]..cuts[k - 1]], ls[cuts[k - 1]..cuts[k]]);
        assert ls[cuts[0]..cuts[k - 1]] + ls[cuts[k - 1]..cuts[k]] == ls[cuts[0]..cuts[k]];
      } else {
        assert Contents(chunks[..0]) == [] && [] + [c.content] == [c.content];
      }
    }
  }

  // Text is conserved on every file exactly when the pattern does not match the empty line.
  lemma ConservesIff(isSplit: string -> bool)
    ensures (forall content :: Conserves(content, isSplit)) <==> !isSplit("")
  {
    if isSplit("") {
      LosesBlankLine(isSplit);
    } else {
      forall content
        ensures Conserves(content, isSplit)
      {
        ChunksConserve(Lines(content), isSplit);
        LinesConserve(content);
      }
    }
  }

  lemma BlankFirst(l: string, rest: seq<string>)
    ensures LeadingBlank([l] + rest) == if l == "" then 1 + LeadingBlank(rest) else 0
    ensures l == "" ==> ([l] + rest)[1 + LeadingBlank(rest)..] == rest[LeadingBlank(rest)..]
  {
    assert ([l] + rest)[1..] == rest;
  }

  lemma NewlineFirst(s: string)
    ensures LeadingNewlines(s) == if s != "" && s[0] == '\n' then 1 + LeadingNewlines(s[1..]) else 0
  {
  }

  // The blank lines at the front are the newlines at the front.
  lemma {:induction false} BlankLinesAreNewlines(s: string, i: nat)
    requires i <= |s|
    ensures LinesFrom(s, i)[LeadingBlank(LinesFrom(s, i))..] == LinesFrom(s, i + LeadingNewlines(s[i..]))
    decreases |s| - i
  {
    hide LinesFrom, LeadingBlank, LeadingNewlines;
    LinesEnd(s);
    NewlineFirst(s[i..]);
    if i < |s| {
      LinesStep(s, i, []);
      BlankFirst(s[i..Eol(s, i)], LinesFrom(s, Eol(s, i) + 1));
      if s[i] == '\n' {
        BlankLinesAreNewlines(s, i + 1);
        assert s[i..][1..] == s[i + 1..];
      }
    }
  }

  // The lines after the leading blank ones are the text after the leading newlines.
  lemma LinesConserve(s: string)
    ensures Join(Lines(s)[LeadingBlank(Lines(s))..]) == WithoutFinalNewline(s[LeadingNewlines(s)..])
  {
    hide Join, Eol, LeadingBlank;
    var n := LeadingNewlines(s);
    assert s[0..] == s;
    BlankLinesAreNewlines(s, 0);
    if n < |s| {
      LinesJoin(s, n);
    } else {
      LinesEnd(s);
      JoinOne("");
    }
  }

  lemma ChunksConserve(ls: seq<string>, isSplit: string -> bool)
    requires !isSplit("")
    ensures Join(Contents(ChunksOf(ls, isSplit))) == Join(ls[LeadingBlank(ls)..])
  {
    hide Join, FeedAll, Finish, LeadingBlank, Contents;
    var chunks := ChunksOf(ls, isSplit);
    var cuts := ChunksTile(ls, isSplit);
    TilesJoin(ls, isSplit, chunks, cuts, |chunks|);
    assert chunks[..|chunks|] == chunks;
    assert ls[cuts[0]..|ls|] == ls[cuts[0]..];
  }

  lemma ThreeLines(s: string)
    requires s == "a\n\nb"
    ensures Lines(s) == ["a", "", "b"]
  {
    hide LinesFrom;
    assert Eol(s, 0) == 1 && Eol(s, 2) == 2 && Eol(s, 3) == 4;
    LinesStep(s, 0, []);
    LinesStep(s, 2, ["a"]);
    LinesStep(s, 3, ["a", ""]);
    LinesEnd(s);
    assert s[0..1] == "a" && s[2..2] == "" && s[3..4] == "b";
    assert LinesFrom(s, 3) == ["b"];
    assert LinesFrom(s, 2) == [""] + ["b"];
    assert LinesFrom(s, 0) == ["a"] + (["", "b"]);
  }

  lemma FedThree(isSplit: string -> bool)
    requires isSplit("")
    ensures Contents(ChunksOf(["a", "", "b"], isSplit)) == ["a", "b"]
  {
    hide FeedAll, Feed, HeadingOf;
    FeedNone(isSplit);
    FeedOne([], "a", isSplit);
    FeedOne(["a"], "", isSplit);
    FeedOne(["a", ""], "b", isSplit);
    assert [] + ["a"] == ["a"] && ["a"] + [""] == ["a", ""] && ["a", ""] + ["b"] == ["a", "", "b"];
    FeedBody(FeedAll([], isSplit), "a", isSplit);
    FeedBlank(FeedAll(["a"], isSplit), isSplit);
    FeedBody(FeedAll(["a", ""], isSplit), "b", isSplit);
  }

  // A first line of text only becomes the body.
  lemma FeedBody(st: Splitter, l: string, isSplit: string -> bool)
    requires st.body == "" && st.heading == "" && l != ""
    ensures Feed(st, l, isSplit).chunks == st.chunks && Feed(st, l, isSplit).body == l
  {
    hide HeadingOf;
  }

  // A matching blank line closes the chunk and leaves nothing behind.
  lemma FeedBlank(st: Splitter, isSplit: string -> bool)
    requires st.body != "" && isSplit("")
    ensures var r := Feed(st, "", isSplit);
            r.body == "" && r.heading == "" && r.chunks == st.chunks + [Chunk(st.heading, st.start, 0, st.body)]
  {
    assert HeadingOf("") == "";
  }

  // A pattern that matches the empty line loses the blank line of "a", "", "b".
  lemma LosesBlankLine(isSplit: string -> bool)
    requires isSplit("")
    ensures !Conserves("a\n\nb", isSplit)
  {
    hide LinesFrom;
    var s := "a\n\nb";
    var ls := ["a", "", "b"];
    ThreeLines(s);
    FedThree(isSplit);
    var chunks := ChunksOf(ls, isSplit);
    JoinAppend(["a"], ["b"]);
    JoinAppend(["a"], [""]);
    JoinAppend(["a", ""], ["b"]);
    assert |Join(["a", "b"])| == 3;
    assert ["a"] + ["b"] == ["a", "b"];
    assert |Join(ls)| == 4;
    assert LeadingBlank(ls) == 0 && ls[0..] == ls;
    LinesConserve(s);
  }

  function CountNewlines(s: string): nat {
    if s == "" then 0 else CountNewlines(s[..|s| - 1]) + if s[|s| - 1] == '\n' then 1 else 0
  }

  // The windows that start at i and every `step` characters after it.
  ghost function Windows(text: string, i: nat, window: nat, step: nat): seq<Chunk>
    requires step > 0
    decreases |text| - i
  {
    if i >= |text| then []
    else
      [Chunk("", 1 + CountNewlines(text[..i]), 0, text[i..if i + window < |text| then i + window else |text|])]
      + Windows(text, i + step, window, step)
  }

  // chunk_window.
  method ChunkWindow(text: string, window: nat, overlap: nat) returns (chunks: seq<Chunk>)
    requires overlap < window
    ensures chunks == Windows(text, 0, window, window - overlap)
  {
    hide CountNewlines;
    chunks := [];
    var i := 0;
    while i < |text|
      invariant Windows(text, 0, window, window - overlap) == chunks + Windows(text, i, window, window - overlap)
      decreases |text| - i
    {
      var end := if i + window < |text| then i + window else |text|;
      var line := LineAt(text, i);
      ghost var rest := Windows(text, i + (window - overlap), window, window - overlap);
      ghost var before := chunks;
      chunks := chunks + [Chunk("", line, 0, text[i..end])];
      assert before + ([Chunk("", line, 0, text[i..end])] + rest) == chunks + rest;
      i := i + (window - overlap);
    }
  }

  method LineAt(text: string, i: nat) returns (line: nat)
    requires i < |text|
    ensures line == 1 + CountNewlines(text[..i])
  {
    line := 1;
    for j := 0 to i
      invariant line == 1 + CountNewlines(text[..j])
    {
      assert text[..j + 1][..j] == text[..j];
      if text[j] == '\n' {
        line := line + 1;
      }
    }
  }

  // The first `step` characters of each chunk, one after the other.
  ghost function Heads(chunks: seq<Chunk>, step: nat): string {
    if chunks == [] then ""
    else
      var c := chunks[0].content;
      c[..if step < |c| then step else |c|] + Heads(chunks[1..], step)
  }

  // With an overlap smaller than the window nothing is lost and nothing doubled once
  // the overlaps are cut off.
  lemma {:induction false} WindowsConserve(text: string, i: nat, window: nat, step: nat)
    requires 0 < step <= window
    ensures Heads(Windows(text, i, window, step), step) == if i < |text| then text[i..] else ""
    decreases |text| - i
  {
    hide CountNewlines, Heads;
    if i < |text| {
      WindowsConserve(text, i + step, window, step);
      var end := if i + window < |text| then i + window else |text|;
      var c := Chunk("", 1 + CountNewlines(text[..i]), 0, text[i..end]);
      HeadsFirst(c, Windows(text, i + step, window, step), step);
      HeadPiece(text, i, end, step);
    } else {
      assert Heads([], step) == "" by { HeadsNone(step); }
    }
  }

  lemma HeadsNone(step: nat)
    ensures Heads([], step) == ""
  {
  }

  lemma HeadsFirst(c: Chunk, rest: seq<Chunk>, step: nat)
    ensures Heads([c] + rest, step)
         == c.content[..if step < |c.content| then step else |c.content|] + Heads(rest, step)
  {
    assert ([c] + rest)[1..] == rest;
  }

  lemma HeadPiece(text: string, i: nat, end: nat, step: nat)
    requires i < end <= |text| && (end == |text| || i + step <= end)
    ensures var c := text[i..end];
            text[i..] == c[..if step < |c| then step else |c|] + if i + step < |text| then text[i + step..] else ""
  {
    var c := text[i..end];
    if i + step < |text| {
      assert c[..step] == text[i..i + step];
    } else {
      assert c[..|c|] == c == text[i..];
    }
  }

  // Chunk k starts k steps in and carries the number of the line it starts on.
  lemma {:induction false} WindowAt(text: string, i: nat, window: nat, step: nat, k: nat)
    requires step > 0 && k < |Windows(text, i, window, step)|
    ensures var c, at := Windows(text, i, window, step)[k], i + k * step;
            && at < |text|
            && c.line == 1 + |set q | 0 <= q < at && text[q] == '\n'|
            && c.heading == "" && c.endLine == 0
            && c.content == text[at..if at + window < |text| then at + window else |text|]
    decreases |text| - i
  {
    hide CountNewlines;
    if k > 0 {
      WindowAt(text, i + step, window, step, k - 1);
      assert Windows(text, i, window, step)[1..] == Windows(text, i + step, window, step);
      assert i + step + (k - 1) * step == i + k * step;
    } else {
      NewlinesCounted(text, i);
    }
  }

  lemma {:induction false} NewlinesCounted(text: string, n: nat)
    requires n <= |text|
    ensures CountNewlines(text[..n]) == |set q | 0 <= q < n && text[q] == '\n'|
  {
    if n > 0 {
      NewlinesCounted(text, n - 1);
      assert text[..n][..n - 1] == text[..n - 1];
      OneMoreNewline(text, n - 1);
    }
  }

  lemma OneMoreNewline(text: string, n: nat)
    requires n < |text|
    ensures |set q | 0 <= q < n + 1 && text[q] == '\n'| ==
            |set q | 0 <= q < n && text[q] == '\n'| + if text[n] == '\n' then 1 else 0
  {
    var found := set q | 0 <= q < n + 1 && text[q] == '\n';
    var before := set q | 0 <= q < n && text[q] == '\n';
    if text[n] == '\n' {
      assert found == before + {n};
    } else {
      assert found == before;
    }
  }
}
