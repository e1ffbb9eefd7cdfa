/** Splitting text after each newline and putting it back together, and the
    white-space trims the config splicers share. */
module TextLines {
  import opened Wrappers

  predicate Blank(s: string) { forall i :: 0 <= i < |s| ==> Space(s[i]) }

  function TrimStart(s: string): (r: string) {
    if s != [] && Space(s[0]) then TrimStart(s[1..]) else s
  }

  function TrimEnd(s: string): (r: string)
    ensures r <= s && Blank(s[|r|..])
    ensures r != [] ==> !Space(r[|r| - 1])
  {
    if s != [] && Space(s[|s| - 1]) then TrimEnd(s[..|s| - 1]) else s
  }

  lemma {:induction false} TrimEndIs(s: string, w: string)
    requires s == [] || !Space(s[|s| - 1])
    requires Blank(w)
    ensures TrimEnd(s + w) == s
  {
    if w == [] {
      assert s + w == s;
    } else {
      var n := |w| - 1;
      assert (s + w)[..|s + w| - 1] == s + w[..n];
      TrimEndIs(s, w[..n]);
    }
  }

  lemma {:induction false} TrimStartAppend(s: string, w: string)
    requires Blank(w)
    ensures TrimStart(s) == [] ==> TrimStart(s + w) == []
    ensures TrimStart(s) != [] ==> TrimStart(s + w) == TrimStart(s) + w
  {
    if s == [] {
      assert s + w == w;
      TrimEmpty(w);
    } else if Space(s[0]) {
      assert (s + w)[1..] == s[1..] + w;
      TrimStartAppend(s[1..], w);
    }
  }

  lemma {:induction false} TrimEmpty(w: string)
    requires Blank(w)
    ensures TrimStart(w) == []
  {
    if w != [] { TrimEmpty(w[1..]); }
  }

  // A line: at least one character, and a newline nowhere but last.
  predicate Line(l: string) { l != [] && forall i :: 0 <= i < |l| - 1 ==> l[i] != '\n' }

  predicate Closed(s: string) { s == [] || s[|s| - 1] == '\n' }

  // The position just past the first newline, or the end of the text.
  function LineEnd(s: string): (r: nat)
    requires s != []
    ensures 0 < r <= |s| && Breaks(s, r)
  {
    if s[0] == '\n' || |s| == 1 then 1 else 1 + LineEnd(s[1..])
  }

  ghost predicate Breaks(s: string, e: nat) {
    && 0 < e <= |s|
    && (forall i :: 0 <= i < e - 1 ==> s[i] != '\n')
    && (e == |s| || s[e - 1] == '\n')
  }

  function First(s: string): (r: string)
    requires s != []
    ensures 0 < |r| <= |s|
  {
    s[..LineEnd(s)]
  }

  function Rest(s: string): (r: string)
    requires s != []
    ensures |r| < |s|
  {
    s[LineEnd(s)..]
  }

  lemma Halves(s: string)
    requires s != []
    ensures s == First(s) + Rest(s) && Line(First(s))
    ensures Rest(s) == [] || Closed(First(s))
  {}

  lemma BreaksOnce(s: string, e: nat)
    requires Breaks(s, e)
    ensures s != [] && LineEnd(s) == e
  {}

  lemma HalvesAre(l: string, t: string)
    requires Line(l) && (t == [] || Closed(l))
    ensures First(l + t) == l && Rest(l + t) == t
  {
    BreaksOnce(l + t, |l|);
  }

  function Lines(s: string): (r: seq<string>)
    decreases |s|
  {
    if s == [] then [] else [First(s)] + Lines(Rest(s))
  }

  function Join(ls: seq<string>): (r: string) {
    if ls == [] then "" else ls[0] + Join(ls[1..])
  }

  ghost predicate Split(ls: seq<string>) {
    && (forall i :: 0 <= i < |ls| ==> Line(ls[i]))
    && (forall i :: 0 <= i < |ls| - 1 ==> Closed(ls[i]))
  }

  lemma NoLines()
    ensures Lines([]) == [] && Split([]) && Join([]) == ""
  {}

  lemma LinesCons(l: string, t: string)
    requires Line(l) && (t == [] || Closed(l))
    ensures Lines(l + t) == [l] + Lines(t)
  {
    hide First, Rest, Line, Closed;
    HalvesAre(l, t);
  }

  lemma OneLine(l: string)
    requires Line(l)
    ensures Lines(l) == [l]
  {
    assert l + [] == l;
    LinesCons(l, []);
    NoLines();
  }

  lemma SplitCons(l: string, ls: seq<string>)
    requires Split(ls) && Line(l) && (ls != [] ==> Closed(l))
    ensures Split([l] + ls) && Join([l] + ls) == l + Join(ls)
  {}

  lemma SplitFirst(ls: seq<string>)
    requires Split(ls) && ls != []
    ensures Line(ls[0]) && Split(ls[1..]) && Join(ls) == ls[0] + Join(ls[1..])
    ensures |ls| > 1 ==> Closed(ls[0])
    ensures |ls| == 1 ==> Join(ls[1..]) == ""
  {}

  lemma {:induction false} JoinLines(s: string)
    ensures Join(Lines(s)) == s && Split(Lines(s))
    decreases |s|
  {
    hide First, Rest, Line, Closed, Split, Join;
    if s == [] {
      NoLines();
    } else {
      JoinLines(Rest(s));
      Halves(s);
      SplitCons(First(s), Lines(Rest(s)));
    }
  }

  lemma {:induction false} LinesJoin(ls: seq<string>)
    requires Split(ls)
    ensures Lines(Join(ls)) == ls
  {
    hide Line, Closed, Split, Join, Lines;
    if ls == [] {
      NoLines();
    } else {
      SplitFirst(ls);
      LinesJoin(ls[1..]);
      LinesCons(ls[0], Join(ls[1..]));
    }
  }

  lemma ClosedRest(a: string, b: string)
    requires Closed(a + b)
    ensures Closed(b)
  {}

  lemma {:induction false} LinesAppend(s: string, t: string)
    requires Closed(s)
    ensures Lines(s + t) == Lines(s) + Lines(t)
    decreases |s|
  {
    hide First, Rest, Line;
    if s == [] {
      assert s + t == t;
    } else {
      var l, u := First(s), Rest(s);
      Halves(s);
      ClosedRest(l, u);
      LinesAppend(u, t);
      assert s + t == l + (u + t);
      if u == [] { assert l == s; }
      LinesCons(l, u + t);
    }
  }

  lemma {:induction false} JoinAppend(a: seq<string>, b: seq<string>)
    ensures Join(a + b) == Join(a) + Join(b)
  {
    if a == [] {
      assert a + b == b;
    } else {
      assert (a + b)[1..] == a[1..] + b;
      JoinAppend(a[1..], b);
    }
  }
}
