// Turning a free-text query into an FTS5 MATCH expression, and reading such
// expressions back by the query syntax of FTS5.

module FtsQuery {
  import opened Options

  predicate IsSpace(c: char) {
    c == ' ' || 9 <= c as int <= 13
  }

  // The length of the run of non-space characters at the front.
  function WordLength(s: string): (n: nat)
    ensures n <= |s|
    ensures forall k :: 0 <= k < n ==> !IsSpace(s[k])
    ensures n < |s| ==> IsSpace(s[n])
  {
    if s == "" || IsSpace(s[0]) then 0 else 1 + WordLength(s[1..])
  }

  // The whitespace-separated words of a query.
  ghost function Words(s: string): seq<string>
    decreases |s|
  {
    if s == "" then []
    else if IsSpace(s[0]) then Words(s[1..])
    else [s[..WordLength(s)]] + Words(s[WordLength(s)..])
  }

  // Words of a single character are dropped.
  ghost function LongWords(ws: seq<string>): seq<string> {
    if ws == [] then []
    else LongWords(ws[..|ws| - 1]) + if |ws[|ws| - 1]| < 2 then [] else [ws[|ws| - 1]]
  }

  ghost function Terms(query: string): seq<string> {
    LongWords(Words(query))
  }

  function Escape(t: string): string {
    if t == "" then "" else Escape(t[..|t| - 1]) + if t[|t| - 1] == '"' then "\"\"" else [t[|t| - 1]]
  }

  function Quote(t: string): string {
    "\"" + Escape(t) + "\""
  }

  ghost function Print(ts: seq<string>): string {
    if ts == [] then ""
    else if |ts| == 1 then Quote(ts[0])
    else Print(ts[..|ts| - 1]) + " OR " + Quote(ts[|ts| - 1])
  }

  // build_fts_match.
  method BuildMatch(query: string) returns (out: string)
    ensures out == Print(Terms(query))
  {
    hide Words, WordLength, LongWords, Escape, Print, IsSpace;
    out := "";
    var i, n := 0, |query|;
    ghost var done := [];
    NothingYet(query);
    while i < n
      invariant 0 <= i <= n
      invariant Words(query) == done + Words(query[i..])
      invariant out == Print(LongWords(done))
      decreases n - i
    {
      i := SkipSpaces(query, i);
      var start := i;
      i := SkipWord(query, i);
      if i <= start {
        EndOfQuery(query, start);
        continue;
      }
      var term := query[start..i];
      WordAt(query, start, i);
      assert done + ([term] + Words(query[i..])) == (done + [term]) + Words(query[i..]);
      TermAdded(done, term);
      done := done + [term];
      if |term| < 2 {
        continue;
      }
      var quoted := QuoteLoop(term);
      if out != "" {
        out := out + " OR ";
      }
      out := out + quoted;
    }
    assert query[n..] == "";
    NoWords();
    assert done + [] == done;
  }

  method SkipSpaces(query: string, i0: nat) returns (i: nat)
    requires i0 <= |query|
    ensures i0 <= i <= |query| && Words(query[i..]) == Words(query[i0..])
    ensures i < |query| ==> !IsSpace(query[i])
  {
    hide WordLength;
    i := i0;
    while i < |query| && IsSpace(query[i])
      invariant i0 <= i <= |query| && Words(query[i..]) == Words(query[i0..])
    {
      assert query[i..][1..] == query[i + 1..];
      i := i + 1;
    }
  }

  method SkipWord(query: string, i0: nat) returns (i: nat)
    requires i0 <= |query|
    ensures i == i0 + WordLength(query[i0..])
  {
    i := i0;
    while i < |query| && !IsSpace(query[i])
      invariant i0 <= i <= |query|
      invariant WordLength(query[i0..]) == i - i0 + WordLength(query[i..])
    {
      assert query[i..][1..] == query[i + 1..];
      i := i + 1;
    }
  }

  method QuoteLoop(term: string) returns (quoted: string)
    ensures quoted == Quote(term)
  {
    quoted := "\"";
    for k := 0 to |term|
      invariant quoted == "\"" + Escape(term[..k])
    {
      assert term[..k + 1][..k] == term[..k];
      if term[k] == '"' {
        quoted := quoted + "\"\"";
      } else {
        quoted := quoted + [term[k]];
      }
    }
    assert term[..|term|] == term;
    quoted := quoted + "\"";
  }

  lemma NothingYet(query: string)
    ensures Print(LongWords([])) == "" && query[0..] == query && [] + Words(query) == Words(query)
  {
  }

  lemma NoWords()
    ensures Words("") == []
  {
  }

  lemma EndOfQuery(query: string, i: nat)
    requires i <= |query| && (i < |query| ==> !IsSpace(query[i]))
    requires WordLength(query[i..]) == 0
    ensures i == |query|
  {
  }

  lemma WordAt(query: string, start: nat, i: nat)
    requires start < i <= |query| && i == start + WordLength(query[start..])
    ensures Words(query[start..]) == [query[start..i]] + Words(query[i..])
  {
    hide WordLength;
    var s := query[start..];
    assert s[..i - start] == query[start..i] && s[i - start..] == query[i..];
  }

  lemma TermAdded(done: seq<string>, term: string)
    ensures LongWords(done + [term]) == if |term| < 2 then LongWords(done) else LongWords(done) + [term]
    ensures |term| >= 2 ==>
              Print(LongWords(done + [term])) ==
                  (if Print(LongWords(done)) == "" then "" else Print(LongWords(done)) + " OR ")
                                                 + Quote(term)
  {
    hide Quote;
    assert (done + [term])[..|done|] == done;
    var ts := LongWords(done);
    assert (ts + [term])[..|ts|] == ts;
    PrintNonempty(ts);
  }

  lemma PrintNonempty(ts: seq<string>)
    ensures Print(ts) == "" <==> ts == []
  {
    if |ts| == 1 {
      assert |Quote(ts[0])| >= 2;
    }
  }

  // ---- Reading a MATCH expression (section 3 of the FTS5 documentation) ----

  datatype Token = Str(text: string) | Or | Bareword(text: string) | Symbol(c: char)

  predicate IsBare(c: char) {
    '0' <= c <= '9' || 'A' <= c <= 'Z' || 'a' <= c <= 'z' || c == '_' || c as int == 26 || c as int > 127
  }

  function BareLength(s: string): (n: nat)
    ensures n <= |s|
  {
    if s == "" || !IsBare(s[0]) then 0 else 1 + BareLength(s[1..])
  }

  // After an opening quote: the text up to the closing quote, a doubled quote
  // standing for one, and what follows; nothing if the string does not end.
  function LexString(s: string): (r: Option<(string, string)>)
    ensures r.Some? ==> |r.value.1| < |s|
  {
    if s == "" then None
    else if s[0] == '"' && !(|s| > 1 && s[1] == '"') then Some(("", s[1..]))
    else
      var r := LexString(if s[0] == '"' then s[2..] else s[1..]);
      if r.None? then None else Some(([s[0]] + r.value.0, r.value.1))
  }

  function Lex(s: string): Option<seq<Token>>
    decreases |s|
  {
    if s == "" then Some([])
    else if s[0] == '"' then
      var r := LexString(s[1..]);
      if r.None? then None
      else
        var rest := Lex(r.value.1);
        if rest.None? then None else Some([Str(r.value.0)] + rest.value)
    else if IsBare(s[0]) then
      var w := s[..BareLength(s)];
      var rest := Lex(s[BareLength(s)..]);
      if rest.None? then None else Some([if w == "OR" then Or else Bareword(w)] + rest.value)
    else
      var rest := Lex(s[1..]);
      if rest.None? || s[0] in " \t\n\r" then rest else Some([Symbol(s[0])] + rest.value)
  }

  // string (OR string)*
  function ParseAlternatives(toks: seq<Token>): Option<seq<string>> {
    if |toks| == 0 || !toks[0].Str? then None
    else if |toks| == 1 then Some([toks[0].text])
    else if toks[1] != Or then None
    else
      var rest := ParseAlternatives(toks[2..]);
      if rest.None? then None else Some([toks[0].text] + rest.value)
  }

  // The alternatives a MATCH expression asks for, if it is a plain list of strings.
  function Parse(s: string): Option<seq<string>> {
    var toks := Lex(s);
    if toks.None? then None else ParseAlternatives(toks.value)
  }

  lemma {:induction false} EscapeFirst(t: string)
    requires t != ""
    ensures Escape(t) == (if t[0] == '"' then "\"\"" else [t[0]]) + Escape(t[1..])
  {
    var n := |t| - 1;
    if n > 0 {
      EscapeFirst(t[..n]);
      assert t[1..][..n - 1] == t[..n][1..];
    }
  }

  // An escaped term followed by the closing quote reads back as the term itself.
  lemma {:induction false} LexEscaped(t: string, rest: string)
    requires rest == "" || rest[0] != '"'
    ensures LexString(Escape(t) + "\"" + rest) == Some((t, rest))
    decreases |t|
  {
    hide Escape;
    if t == "" {
      EscapeNone();
      assert ("" + "\"" + rest)[1..] == rest;
    } else {
      EscapeFirst(t);
      LexEscaped(t[1..], rest);
      var s := Escape(t) + "\"" + rest;
      var s' := Escape(t[1..]) + "\"" + rest;
      assert t == [t[0]] + t[1..];
      if t[0] == '"' {
        assert s == "\"\"" + s';
        assert s[2..] == s';
      } else {
        assert s == [t[0]] + s';
        assert s[1..] == s';
      }
    }
  }

  lemma EscapeNone()
    ensures Escape("") == ""
  {
  }

  lemma {:induction false} PrintFirst(ts: seq<string>)
    requires |ts| > 1
    ensures Print(ts) == Quote(ts[0]) + " OR " + Print(ts[1..])
  {
    hide Quote;
    var n := |ts| - 1;
    if n > 1 {
      PrintFirst(ts[..n]);
      assert ts[1..][..n - 1] == ts[..n][1..];
    }
  }

  ghost function TokensOf(ts: seq<string>): seq<Token>
    requires ts != []
  {
    if |ts| == 1 then [Str(ts[0])] else [Str(ts[0]), Or] + TokensOf(ts[1..])
  }

  // Quoting makes one string token, whatever the term contains.
  lemma LexQuote(t: string, rest: string)
    requires rest == "" || rest[0] != '"'
    requires Lex(rest).Some?
    ensures Lex(Quote(t) + rest) == Some([Str(t)] + Lex(rest).value)
  {
    hide LexString, Escape;
    var s := Quote(t) + rest;
    assert s[1..] == Escape(t) + "\"" + rest;
    LexEscaped(t, rest);
  }

  lemma LexOr(s: string)
    requires s != "" && s[0] == '"' && Lex(s).Some?
    ensures Lex(" OR " + s) == Some([Or] + Lex(s).value)
  {
    var a, b, c := " OR " + s, "OR " + s, " " + s;
    assert c[1..] == s;
    assert Lex(c) == Lex(s);
    assert BareLength(b) == 2 by {
      assert b[1..] == "R " + s && b[1..][1..] == c;
      assert BareLength(c) == 0;
      assert BareLength("R " + s) == 1;
    }
    assert b[..2] == "OR" && b[2..] == c;
    assert a[1..] == b;
  }

  lemma {:induction false} LexPrint(ts: seq<string>)
    requires ts != []
    ensures Print(ts) != "" && Print(ts)[0] == '"'
    ensures Lex(Print(ts)) == Some(TokensOf(ts))
  {
    hide Lex, Escape;
    if |ts| == 1 {
      LexNone();
      LexQuote(ts[0], "");
      assert Quote(ts[0]) + "" == Quote(ts[0]);
      assert [Str(ts[0])] + [] == [Str(ts[0])];
    } else {
      PrintFirst(ts);
      LexPrint(ts[1..]);
      LexOr(Print(ts[1..]));
      LexQuote(ts[0], " OR " + Print(ts[1..]));
      assert Print(ts) == Quote(ts[0]) + (" OR " + Print(ts[1..]));
      assert [Str(ts[0])] + ([Or] + TokensOf(ts[1..])) == [Str(ts[0]), Or] + TokensOf(ts[1..]);
    }
  }

  lemma LexNone()
    ensures Lex("") == Some([])
  {
  }

  lemma {:induction false} ParseTokens(ts: seq<string>)
    requires ts != []
    ensures ParseAlternatives(TokensOf(ts)) == Some(ts)
  {
    if |ts| > 1 {
      ParseTokens(ts[1..]);
      assert TokensOf(ts)[2..] == TokensOf(ts[1..]);
      assert [ts[0]] + ts[1..] == ts;
    } else {
      assert ts == [ts[0]];
    }
  }

  // Whatever the query holds, FTS5 reads the built expression as an alternative of
  // exactly the query's terms; no term means no expression.
  lemma MatchMeansTerms(query: string)
    ensures if Terms(query) == [] then Print(Terms(query)) == "" else Parse(Print(Terms(query))) == Some(Terms(query))
  {
    hide Lex, Terms;
    var ts := Terms(query);
    if ts != [] {
      LexPrint(ts);
      ParseTokens(ts);
    }
  }

  // ---- which words are terms ----

  lemma {:induction false} LongWordsAre(ws: seq<string>, w: string)
    ensures w in LongWords(ws) <==> w in ws && |w| >= 2
  {
    if ws != [] {
      var n := |ws| - 1;
      LongWordsAre(ws[..n], w);
      assert ws == ws[..n] + [ws[n]];
    }
  }

  // A space, or one of the five control characters from tab to carriage return.
  ghost predicate Blank(c: char) {
    c == ' ' || c == '\t' || c == '\n' || c == '\U{000B}' || c == '\U{000C}' || c == '\r'
  }

  lemma BlankIsSpace(c: char)
    ensures Blank(c) <==> IsSpace(c)
  {
  }

  // A word of the query stands from i to j: all there is between two blanks.
  ghost predicate StandsAt(query: string, i: nat, j: nat, w: string) {
    && i < j <= |query| && w == query[i..j]
    && (forall k :: i <= k < j ==> !Blank(query[k]))
    && (i > 0 ==> Blank(query[i - 1]))
    && (j < |query| ==> Blank(query[j]))
  }

  ghost predicate Stands(query: string, from: nat, w: string) {
    exists i: nat, j: nat :: from <= i && StandsAt(query, i, j, w)
  }

  lemma PassBlank(query: string, from: nat, w: string)
    requires from < |query| && Blank(query[from])
    ensures Stands(query, from, w) <==> Stands(query, from + 1, w)
  {
    if i: nat, j: nat :| from <= i && StandsAt(query, i, j, w) {
      assert i != from;
    }
  }

  lemma PassWord(query: string, from: nat, to: nat, w: string)
    requires from < to <= |query| && StandsAt(query, from, to, query[from..to])
    ensures Stands(query, from, w) <==> w == query[from..to] || Stands(query, to, w)
  {
    if i: nat, j: nat :| from <= i && StandsAt(query, i, j, w) {
      if i < to {
        SameStand(query, from, to, i, j, w);
      }
    }
  }

  lemma SameStand(query: string, from: nat, to: nat, i: nat, j: nat, w: string)
    requires from < to <= |query| && StandsAt(query, from, to, query[from..to])
    requires StandsAt(query, i, j, w) && from <= i < to
    ensures i == from && j == to
  {
    hide Blank;
  }

  lemma {:induction false} WordsStand(query: string, from: nat, w: string)
    requires from <= |query| && (0 < from < |query| ==> Blank(query[from - 1]) || Blank(query[from]))
    ensures w in Words(query[from..]) <==> Stands(query, from, w)
    decreases |query| - from
  {
    hide Stands, Blank, IsSpace, WordLength;
    var s := query[from..];
    if from == |query| {
      NothingStands(query, w);
    } else {
      BlankIsSpace(query[from]);
      if IsSpace(s[0]) {
        assert s[1..] == query[from + 1..];
        WordsStand(query, from + 1, w);
        PassBlank(query, from, w);
      } else {
        var to := from + WordLength(s);
        assert s[..WordLength(s)] == query[from..to] && s[WordLength(s)..] == query[to..];
        WordStands(query, from);
        WordsStand(query, to, w);
        PassWord(query, from, to, w);
      }
    }
  }

  lemma NothingStands(query: string, w: string)
    ensures !Stands(query, |query|, w)
  {
  }

  // The first word, up to the next blank, stands where it starts.
  lemma WordStands(query: string, from: nat)
    requires from < |query| && !Blank(query[from]) && (from > 0 ==> Blank(query[from - 1]))
    ensures var to := from + WordLength(query[from..]);
            StandsAt(query, from, to, query[from..to]) && (to < |query| ==> Blank(query[to]))
  {
    hide Blank, IsSpace;
    forall c: char ensures Blank(c) <==> IsSpace(c) {
      BlankIsSpace(c);
    }
    var s, n := query[from..], WordLength(query[from..]);
    assert forall k :: 0 <= k < |s| ==> s[k] == query[from + k];
    assert forall k :: from <= k < from + n ==> query[k] == s[k - from];
    assert !IsSpace(s[0]);
  }

  // A term is a word of at least two characters, whatever they are.
  lemma TermIff(query: string, w: string)
    ensures w in Terms(query) <==> |w| >= 2 && exists i: nat, j: nat :: StandsAt(query, i, j, w)
  {
    hide StandsAt;
    LongWordsAre(Words(query), w);
    WordsStand(query, 0, w);
    assert query[0..] == query;
  }

  // So words of quotes only are terms, unless they are a single quote.
  lemma QuotesAreTerms(query: string)
    requires forall i :: 0 <= i < |query| ==> query[i] == '"'
    ensures Terms(query) == if |query| >= 2 then [query] else []
    ensures Terms("\"\"") == ["\"\""]
  {
    OneWord(query);
    OneWord("\"\"");
  }

  lemma OneWord(w: string)
    requires forall i :: 0 <= i < |w| ==> !IsSpace(w[i])
    ensures Terms(w) == if |w| >= 2 then [w] else []
  {
    if w != "" {
      assert WordLength(w) == |w|;
      assert w[..|w|] == w && w[|w|..] == "";
      assert Words("") == [] && Words(w) == [w] + [] == [w];
      assert [w][..0] == [];
      assert LongWords([w]) == LongWords([]) + if |w| < 2 then [] else [w];
    }
  }
}
