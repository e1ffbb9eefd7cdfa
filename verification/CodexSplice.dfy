/** The Codex registration splice: drop the tgw-context tables of a TOML file line
    by line and append the generated fragment. */
module CodexSplice {
  import opened Wrappers
  import opened TextLines

  // A closing bracket is followed by white space and perhaps a comment.
  predicate Tail(t: string) { TrimStart(t) == [] || TrimStart(t)[0] == '#' }

  ghost predicate Table(line: string) {
    var u := TrimStart(line);
    u != [] && u[0] == '[' && exists j :: 0 < j < |u| && u[j] == ']' && Tail(u[j + 1..])
  }

  const Heads: set<string> := {
    "mcp_servers.\"tgw-context\"", "mcp_servers.tgw-context",
    "mcp_servers.\"tgw-context\".env", "mcp_servers.tgw-context.env"
  }

  predicate Close(x: string) { x != [] && x[0] == ']' && Tail(x[1..]) }

  predicate After(v: string, h: string) { h <= v && Close(TrimStart(v[|h|..])) }

  ghost predicate Context(line: string) {
    var u := TrimStart(line);
    u != [] && u[0] == '[' && exists h :: h in Heads && After(TrimStart(u[1..]), h)
  }

  // The line without its trailing carriage returns and newlines.
  function Chomp(line: string): (r: string)
    ensures r <= line && Blank(line[|r|..])
  {
    if line != [] && line[|line| - 1] in "\r\n" then Chomp(line[..|line| - 1]) else line
  }

  ghost predicate IsTable(line: string) { Table(Chomp(line)) }
  ghost predicate IsContext(line: string) { Context(Chomp(line)) }

  // Trailing white space does not change what a line is.

  lemma TailTrailing(t: string, w: string)
    requires Blank(w)
    ensures Tail(t + w) == Tail(t)
  {
    TrimStartAppend(t, w);
  }

  lemma CloseTrailing(x: string, w: string)
    requires Blank(w)
    ensures Close(TrimStart(x + w)) == Close(TrimStart(x))
  {
    TrimStartAppend(x, w);
    var y := TrimStart(x);
    if y != [] {
      assert (y + w)[1..] == y[1..] + w;
      TailTrailing(y[1..], w);
    }
  }

  lemma HeadEnds(h: string)
    requires h in Heads
    ensures h != [] && !Space(h[|h| - 1])
  {}

  lemma AfterTrailing(v: string, h: string, w: string)
    requires Blank(w) && h in Heads
    ensures After(v + w, h) == After(v, h)
  {
    HeadEnds(h);
    if h <= v {
      assert (v + w)[|h|..] == v[|h|..] + w;
      CloseTrailing(v[|h|..], w);
    }
  }

  lemma BlankHasNoHead(w: string, h: string)
    requires TrimStart(w) == [] && h in Heads
    ensures !After(TrimStart(w), h)
  {}

  lemma ContextTrailing(line: string, w: string)
    requires Blank(w)
    ensures Context(line + w) == Context(line)
  {
    hide After, TrimStart, Heads;
    TrimStartAppend(line, w);
    var u := TrimStart(line);
    if u != [] {
      assert (u + w)[1..] == u[1..] + w;
      TrimStartAppend(u[1..], w);
      var v := TrimStart(u[1..]);
      forall h | h in Heads ensures After(TrimStart(u[1..] + w), h) == After(v, h) {
        if v == [] {
          BlankHasNoHead(u[1..], h);
          BlankHasNoHead(u[1..] + w, h);
        } else {
          AfterTrailing(v, h, w);
        }
      }
    }
  }

  lemma ChompTrailing(line: string, w: string)
    requires Blank(w)
    ensures IsContext(line + w) == IsContext(line)
  {
    var l, c, d := line + w, Chomp(line + w), Chomp(line);
    ContextTrailing(c, l[|c|..]);
    ContextTrailing(d, line[|d|..]);
    ContextTrailing(line, w);
    assert l == c + l[|c|..];
    assert line == d + line[|d|..];
  }

  // A bracketed name without white space, brackets or comment signs.
  predicate Plain(n: string) {
    n != [] && forall i :: 0 <= i < |n| ==> !Space(n[i]) && n[i] != '[' && n[i] != ']' && n[i] != '#'
  }

  lemma BracketHead(n: string, h: string)
    requires Plain(n) && h in Heads
    ensures After(n + "]", h) <==> h == n
  {
    HeadEnds(h);
    var v := n + "]";
    if h <= v {
      var x := v[|h|..];
      if |h| < |n| {
        assert x[0] == n[|h|] && TrimStart(x) == x;
      } else if |h| == |n| {
        assert h == v[..|h|] == n;
        assert x == "]" && TrimStart(x) == x && x[1..] == [];
      } else {
        assert v == h + x && h[|h| - 1] == ']';
        NoBracket(h);
      }
    }
  }

  lemma NoBracket(h: string)
    requires h in Heads
    ensures h[|h| - 1] != ']'
  {}

  /** A bracketed name is a table header always, and a managed one exactly when it is one
      of the four names. */
  lemma HeaderExactly(n: string)
    requires Plain(n)
    ensures Table("[" + n + "]")
    ensures Context("[" + n + "]") <==>
      || n == "mcp_servers.tgw-context" || n == "mcp_servers.\"tgw-context\""
      || n == "mcp_servers.tgw-context.env" || n == "mcp_servers.\"tgw-context\".env"
  {
    hide After;
    var line := "[" + n + "]";
    assert line[1..] == n + "]";
    assert TrimStart(line) == line && TrimStart(n + "]") == n + "]";
    assert line[|line| - 1] == ']' && line[|line|..] == [];
    forall h | h in Heads ensures After(n + "]", h) <==> h == n { BracketHead(n, h); }
  }

  // The filter.

  // Whether the loop is skipping after a line, given whether it was before.
  ghost function Skips(line: string, skipping: bool): bool {
    IsContext(line) || (skipping && !IsTable(line))
  }

  ghost function Skipping(ls: seq<string>): bool {
    ls != [] && Skips(ls[|ls| - 1], Skipping(ls[..|ls| - 1]))
  }

  ghost function Retained(ls: seq<string>): seq<string> {
    if ls == [] then []
    else Retained(ls[..|ls| - 1]) + if Skipping(ls) then [] else [ls[|ls| - 1]]
  }

  // Line i belongs to a tgw-context table: one opens at or before it and no other
  // table has opened since.
  ghost predicate Inside(ls: seq<string>, i: int)
    requires 0 <= i < |ls|
  {
    exists k :: 0 <= k <= i && IsContext(ls[k]) && Unbroken(ls, k, i)
  }

  ghost predicate Unbroken(ls: seq<string>, k: int, i: int)
    requires 0 <= k <= i < |ls|
  {
    forall j :: k < j <= i ==> IsTable(ls[j]) ==> IsContext(ls[j])
  }

  lemma {:induction false} SkippingIsInside(ls: seq<string>)
    requires ls != []
    ensures Skipping(ls) == Inside(ls, |ls| - 1)
  {
    hide IsContext, IsTable;
    var n := |ls| - 1;
    var init := ls[..n];
    if IsContext(ls[n]) {
      assert Unbroken(ls, n, n);
    } else if n > 0 {
      SkippingIsInside(init);
      if Skipping(ls) {
        var k :| 0 <= k <= n - 1 && IsContext(init[k]) && Unbroken(init, k, n - 1);
        assert Unbroken(ls, k, n) by {
          forall j | k < j <= n && IsTable(ls[j]) ensures IsContext(ls[j]) {
            if j < n { assert init[j] == ls[j]; }
          }
        }
      }
      if Inside(ls, n) {
        var k :| 0 <= k <= n && IsContext(ls[k]) && Unbroken(ls, k, n);
        assert init[k] == ls[k];
        assert Unbroken(init, k, n - 1) by {
          forall j | k < j <= n - 1 && IsTable(init[j]) ensures IsContext(init[j]) {
            assert init[j] == ls[j];
          }
        }
      }
    }
  }

  // `at` lists, in order, the positions of exactly the lines outside the tables.
  ghost predicate Outside(ls: seq<string>, at: seq<nat>) {
    && (forall x :: 0 <= x < |at| ==> at[x] < |ls|)
    && (forall x, y :: 0 <= x < y < |at| ==> at[x] < at[y])
    && (forall i :: 0 <= i < |ls| ==> (i in at <==> !Inside(ls, i)))
  }

  lemma InsidePrefix(ls: seq<string>, n: nat, i: nat)
    requires i < n <= |ls|
    ensures Inside(ls[..n], i) == Inside(ls, i)
  {
    hide IsContext, IsTable;
    var p := ls[..n];
    forall k | 0 <= k <= i ensures Unbroken(p, k, i) == Unbroken(ls, k, i) {
      if Unbroken(ls, k, i) {
        forall j | k < j <= i && IsTable(p[j]) ensures IsContext(p[j]) { assert p[j] == ls[j]; }
      }
      if Unbroken(p, k, i) {
        forall j | k < j <= i && IsTable(ls[j]) ensures IsContext(ls[j]) { assert p[j] == ls[j]; }
      }
    }
  }

  /** Exactly the lines outside tgw-context tables are retained, in order. */
  lemma {:induction false} RetainedExactly(ls: seq<string>) returns (at: seq<nat>)
    ensures Outside(ls, at)
    ensures |Retained(ls)| == |at| && forall x :: 0 <= x < |at| ==> Retained(ls)[x] == ls[at[x]]
  {
    hide Inside, IsContext, IsTable, Skipping, Retained;
    FilterNone();
    at := [];
    if ls != [] {
      var n := |ls| - 1;
      assert ls == ls[..n] + [ls[n]];
      FilterStep(ls[..n], ls[n]);
      at := RetainedExactly(ls[..n]);
      forall i | 0 <= i < n ensures Inside(ls[..n], i) == Inside(ls, i) { InsidePrefix(ls, n, i); }
      SkippingIsInside(ls);
      if !Skipping(ls) { at := at + [n]; }
    }
  }

  lemma {:induction false} RetainedFrom(ls: seq<string>)
    ensures forall l :: l in Retained(ls) ==> l in ls && !IsContext(l)
  {
    hide IsContext, IsTable;
    if ls != [] {
      var n := |ls| - 1;
      RetainedFrom(ls[..n]);
    }
  }

  lemma {:induction false} RetainedAll(ls: seq<string>)
    requires forall l :: l in ls ==> !IsContext(l)
    ensures !Skipping(ls) && Retained(ls) == ls
  {
    hide IsContext, IsTable;
    if ls != [] {
      var n := |ls| - 1;
      RetainedAll(ls[..n]);
      assert ls == ls[..n] + [ls[n]];
    }
  }

  lemma {:induction false} RetainedSplit(ls: seq<string>)
    requires Split(ls)
    ensures Split(Retained(ls))
  {
    hide IsContext, IsTable, Line, Closed;
    if ls != [] {
      var n := |ls| - 1;
      var r, init := Retained(ls), Retained(ls[..n]);
      RetainedSplit(ls[..n]);
      RetainedFrom(ls[..n]);
      forall i | 0 <= i < |init| ensures Closed(init[i]) {
        assert init[i] in ls[..n];
      }
    }
  }

  lemma {:induction false} RetainedAppend(a: seq<string>, b: seq<string>)
    requires !Skipping(a)
    ensures Retained(a + b) == Retained(a) + Retained(b)
    ensures Skipping(a + b) == Skipping(b)
  {
    hide IsContext, IsTable;
    if b == [] {
      assert a + b == a;
    } else {
      var n := |b| - 1;
      assert (a + b)[..|a + b| - 1] == a + b[..n];
      RetainedAppend(a, b[..n]);
    }
  }

  // The merged file.

  ghost function Prefix(ls: seq<string>): string {
    if Retained(ls) == [] then "" else TrimEnd(Join(Retained(ls))) + "\n\n"
  }

  ghost function Spliced(content: string, fragment: string): string {
    Prefix(Lines(content)) + fragment
  }

  /** All retained text but its trailing white space opens the merged file, and the
      fragment closes it. */
  lemma KeptText(content: string, fragment: string) returns (body: string, blanks: string)
    ensures Join(Retained(Lines(content))) == body + blanks && Blank(blanks)
    ensures Spliced(content, fragment) ==
            if Retained(Lines(content)) == [] then fragment else body + "\n\n" + fragment
  {
    hide Join, Retained, Lines, Blank;
    var s := Join(Retained(Lines(content)));
    body := TrimEnd(s);
    blanks := s[|body|..];
  }

  lemma CutLast(s: string, w: string)
    requires Line(s) && !Space(s[|s| - 1]) && Blank(w)
    requires forall l :: l in Lines(s + w) ==> !IsContext(l)
    ensures Lines(s + "\n") == [s + "\n"] && !IsContext(s + "\n")
  {
    hide IsContext;
    OneLine(s + "\n");
    var f := LineEnd(s + w);
    assert f >= |s|;
    var x := w[..f - |s|];
    assert First(s + w) == s + x;
    assert Lines(s + w)[0] == s + x;
    ChompTrailing(s, x);
    ChompTrailing(s, "\n");
  }

  // A line cut off inside trailing white space is still not a context table.
  lemma {:induction false} CutLines(s: string, w: string)
    requires s != [] && !Space(s[|s| - 1]) && Blank(w)
    requires forall l :: l in Lines(s + w) ==> !IsContext(l)
    ensures forall l :: l in Lines(s + "\n") ==> !IsContext(l)
    decreases |s|
  {
    hide IsContext, Lines, First, Rest;
    var l, u := First(s), Rest(s);
    Halves(s);
    if u == [] {
      assert s == l;
      CutLast(s, w);
    } else {
      assert s[|s| - 1] == u[|u| - 1];
      assert s + w == l + (u + w) && s + "\n" == l + (u + "\n");
      LinesCons(l, u + w);
      LinesCons(l, u + "\n");
      CutLines(u, w);
    }
  }

  lemma BlankLine()
    ensures !IsContext("\n") && Lines("\n") == ["\n"]
  {
    assert Chomp("\n") == "";
    OneLine("\n");
  }

  lemma TrimmedLines(s: string)
    requires forall l :: l in Lines(s) ==> !IsContext(l)
    ensures forall l :: l in Lines(TrimEnd(s) + "\n") ==> !IsContext(l)
  {
    hide IsContext, Lines;
    BlankLine();
    var y := TrimEnd(s);
    if y == [] {
      assert y + "\n" == "\n";
    } else {
      assert s == y + s[|y|..];
      CutLines(y, s[|y|..]);
    }
  }

  /** The kept part of a merged file holds no context table and ends a line. */
  lemma PrefixClean(ls: seq<string>)
    requires Split(ls)
    ensures Closed(Prefix(ls))
    ensures forall l :: l in Lines(Prefix(ls)) ==> !IsContext(l)
  {
    hide IsContext, Retained, Lines, Join, TrimEnd, Split;
    var r := Retained(ls);
    if r == [] {
      EmptyLines(Prefix(ls));
    } else {
      RetainedFrom(ls);
      RetainedSplit(ls);
      LinesJoin(r);
      TrimmedLines(Join(r));
      var y := TrimEnd(Join(r));
      BlankLine();
      LinesAppend(y + "\n", "\n");
      assert y + "\n\n" == (y + "\n") + "\n";
    }
  }

  // The fragment's own lines that a later splice would take for the user's.
  ghost function Leftover(fragment: string): seq<string> { Retained(Lines(fragment)) }

  lemma SecondPrefix(content: string, fragment: string)
    ensures Retained(Lines(Spliced(content, fragment))) ==
            Lines(Prefix(Lines(content))) + Leftover(fragment)
    ensures Join(Retained(Lines(Spliced(content, fragment)))) ==
            Prefix(Lines(content)) + Join(Leftover(fragment))
  {
    hide Retained, IsContext;
    JoinLines(content);
    var p := Prefix(Lines(content));
    PrefixClean(Lines(content));
    LinesAppend(p, fragment);
    RetainedAll(Lines(p));
    RetainedAppend(Lines(p), Lines(fragment));
    JoinLines(p);
    JoinAppend(Lines(p), Leftover(fragment));
  }

  lemma {:induction false} JoinBlank(s: string, t: string)
    requires s == [] || !Space(s[|s| - 1])
    ensures TrimEnd(s + "\n\n" + t) == s <==> Blank(t)
  {
    var x := s + "\n\n" + t;
    if Blank(t) {
      assert x == s + ("\n\n" + t);
      TrimEndIs(s, "\n\n" + t);
    } else {
      var i :| 0 <= i < |t| && !Space(t[i]);
      assert x[|s|..][2 + i] == t[i];
    }
  }

  /** Splicing twice equals splicing once exactly when the fragment leaves nothing
      behind but white space, and nothing at all in a file with no other lines. */
  lemma IdempotentExactly(content: string, fragment: string)
    ensures Spliced(Spliced(content, fragment), fragment) == Spliced(content, fragment)
       <==> if Retained(Lines(content)) == [] then Leftover(fragment) == []
            else Blank(Join(Leftover(fragment)))
  {
    hide Retained, Lines, Join, Prefix, Blank;
    var again := Spliced(content, fragment);
    SamePrefix(Prefix(Lines(again)), Prefix(Lines(content)), fragment);
    if Retained(Lines(content)) == [] {
      EmptyPrefix(content, fragment);
    } else {
      KeptPrefix(content, fragment);
    }
  }

  lemma SamePrefix(p: string, q: string, t: string)
    ensures p + t == q + t <==> p == q
  {
    if p + t == q + t {
      assert p == (p + t)[..|p|] && q == (q + t)[..|q|];
    }
  }

  lemma EmptyPrefix(content: string, fragment: string)
    requires Retained(Lines(content)) == []
    ensures Prefix(Lines(Spliced(content, fragment))) == Prefix(Lines(content)) <==> Leftover(fragment) == []
  {
    hide Retained, Join;
    SecondPrefix(content, fragment);
    EmptyLines(Prefix(Lines(content)));
    assert Retained(Lines(Spliced(content, fragment))) == Leftover(fragment);
  }

  lemma KeptPrefix(content: string, fragment: string)
    requires Retained(Lines(content)) != []
    ensures Prefix(Lines(Spliced(content, fragment))) == Prefix(Lines(content))
       <==> Blank(Join(Leftover(fragment)))
  {
    hide Retained, Join, Blank, Lines, Spliced, Leftover;
    var p := Prefix(Lines(content));
    var y, t := TrimEnd(Join(Retained(Lines(content)))), Join(Leftover(fragment));
    SecondPrefix(content, fragment);
    EmptyLines(p);
    JoinBlank(y, t);
    assert p == y + "\n\n";
    assert Prefix(Lines(Spliced(content, fragment))) == TrimEnd(p + t) + "\n\n";
    SamePrefix(TrimEnd(p + t), y, "\n\n");
  }

  lemma EmptyLines(s: string)
    ensures Lines(s) == [] <==> s == []
  {}

  // A fragment of managed tables only: it opens with one, and has no other table.
  ghost predicate ManagedOnly(fragment: string) {
    var ls := Lines(fragment);
    && (ls != [] ==> IsContext(ls[0]))
    && (forall i :: 0 <= i < |ls| ==> IsTable(ls[i]) ==> IsContext(ls[i]))
  }

  lemma {:induction false} ManagedInside(ls: seq<string>)
    requires ls != [] ==> IsContext(ls[0])
    requires forall i :: 0 <= i < |ls| ==> IsTable(ls[i]) ==> IsContext(ls[i])
    ensures Retained(ls) == [] && (ls != [] ==> Skipping(ls))
  {
    hide IsContext, IsTable;
    if ls != [] {
      ManagedInside(ls[..|ls| - 1]);
    }
  }

  /** For a fragment of managed tables only, splicing twice equals splicing once. */
  lemma ManagedIdempotent(content: string, fragment: string)
    requires ManagedOnly(fragment)
    ensures Spliced(Spliced(content, fragment), fragment) == Spliced(content, fragment)
  {
    ManagedInside(Lines(fragment));
    IdempotentExactly(content, fragment);
  }

  lemma FilterNone()
    ensures !Skipping([]) && Retained([]) == []
  {}

  lemma FilterStep(ls: seq<string>, line: string)
    ensures Skipping(ls + [line]) == Skips(line, Skipping(ls))
    ensures Retained(ls + [line]) == Retained(ls) + if Skipping(ls + [line]) then [] else [line]
  {}

  datatype Outcome = Merged(text: string) | InlineLayout | Changed

  /** The projection. `existing` is whether the parsed file has a tgw-context entry;
      `agrees` whether a merged text parses to the expected document. */
  method Project(content: string, fragment: string, existing: bool, agrees: string -> bool)
    returns (r: Outcome)
    ensures r.Merged? ==> r.text == Spliced(content, fragment)
    ensures r.InlineLayout? <==> existing && forall l :: l in Lines(content) ==> !IsContext(l)
    ensures r.Changed? ==> !agrees(Spliced(content, fragment))
    ensures r.Merged? ==> agrees(r.text)
  {
    hide IsContext, IsTable, Join, TrimEnd, Skipping, Retained, Lines;
    FilterNone();
    var ls := Lines(content);
    var retained: seq<string> := [];
    var matched, skipping := false, false;
    for i := 0 to |ls|
      invariant retained == Retained(ls[..i])
      invariant skipping == Skipping(ls[..i])
      invariant matched <==> exists l :: l in ls[..i] && IsContext(l)
    {
      var line := ls[i];
      assert ls[..i + 1] == ls[..i] + [line];
      FilterStep(ls[..i], line);
      var context := ContextTable(line);
      if context {
        matched, skipping := true, true;
        continue;
      }
      if skipping {
        var table := AnyTable(line);
        if table { skipping := false; }
      }
      if !skipping { retained := retained + [line]; }
    }
    assert ls[..|ls|] == ls;
    if existing && !matched { return InlineLayout; }
    var prefix := if retained == [] then "" else TrimEnd(Join(retained)) + "\n\n";
    var merged := prefix + fragment;
    if !agrees(merged) { return Changed; }
    return Merged(merged);
  }

  method ContextTable(line: string) returns (b: bool)
    ensures b == IsContext(line)
  {
    var u := TrimStart(Chomp(line));
    if u == [] || u[0] != '[' { return false; }
    var v := TrimStart(u[1..]);
    b := exists h :: h in Heads && After(v, h);
  }

  method AnyTable(line: string) returns (b: bool)
    ensures b == IsTable(line)
  {
    var u := TrimStart(Chomp(line));
    if u == [] || u[0] != '[' { return false; }
    b := exists j :: 0 < j < |u| && u[j] == ']' && Tail(u[j + 1..]);
  }
}
