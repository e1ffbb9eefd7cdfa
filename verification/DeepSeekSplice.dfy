/** The DeepSeek registration splice: locate the tgw-context row of a YAML patch,
    bound it lexically, and put the generated row there at the row's own indent. */
module DeepSeekSplice {
  import opened Wrappers
  import opened TextLines

  function Leading(line: string): (r: nat)
    ensures r <= |line| && (forall i :: 0 <= i < r ==> line[i] == ' ')
    ensures r < |line| ==> line[r] != ' '
  {
    if line != [] && line[0] == ' ' then 1 + Leading(line[1..]) else 0
  }

  // A line that can still belong to a row whose dash stands at `indent`.
  predicate Deeper(line: string, indent: nat) { Blank(line) || Leading(line) > indent }

  // How far the deeper lines at the start of a text reach.
  function Reach(t: string, indent: nat): (r: nat)
    decreases |t|
  {
    if t == [] || !Deeper(First(t), indent) then 0 else |First(t)| + Reach(Rest(t), indent)
  }

  // The row that starts a text: its first line and the deeper lines after it.
  function Extent(t: string, indent: nat): (r: nat) {
    if t == [] then 0 else |First(t)| + Reach(Rest(t), indent)
  }

  // Text that cannot continue a row.
  predicate Shallow(t: string, indent: nat) { t == [] || !Deeper(First(t), indent) }

  lemma {:induction false} ReachParts(t: string, indent: nat) returns (a: string, b: string)
    ensures t == a + b && |a| == Reach(t, indent)
    ensures Closed(a) || b == []
    ensures forall l :: l in Lines(a) ==> Deeper(l, indent)
    ensures Shallow(b, indent)
    decreases |t|
  {
    hide Deeper, First, Rest, Lines, Line;
    if Shallow(t, indent) {
      NoLines();
      return [], t;
    }
    Halves(t);
    var l := First(t);
    var u;
    u, b := ReachParts(Rest(t), indent);
    a := l + u;
    assert t == l + (u + b);
    LinesCons(l, u);
  }

  // The reach is the only cut with deeper lines before it and none right after.
  lemma {:induction false} ReachIs(a: string, b: string, indent: nat)
    requires Closed(a) || b == []
    requires forall l :: l in Lines(a) ==> Deeper(l, indent)
    requires Shallow(b, indent)
    ensures Reach(a + b, indent) == |a|
    decreases |a|
  {
    hide Deeper, First, Rest, Line;
    if a == [] {
      assert a + b == b;
    } else {
      Halves(a);
      var l, u := First(a), Rest(a);
      assert l in Lines(a);
      if Closed(a) { ClosedRest(l, u); }
      assert a + b == l + (u + b);
      if u == [] { assert l == a; }
      HalvesAre(l, u + b);
      ReachIs(u, b, indent);
    }
  }

  /** The scan that bounds a row, against its specification. */
  method RowEnd(text: string, start: nat, indent: nat) returns (end: nat)
    requires start < |text|
    ensures end == start + Extent(text[start..], indent)
  {
    hide Deeper, First, Rest;
    var cursor := start + |First(text[start..])|;
    end := cursor;
    NextLine(text, start);
    while cursor < |text|
      invariant start <= cursor <= |text| && end == cursor
      invariant cursor + Reach(text[cursor..], indent) == start + Extent(text[start..], indent)
    {
      var line := First(text[cursor..]);
      if !Deeper(line, indent) { break; }
      NextLine(text, cursor);
      end := cursor + |line|;
      cursor := end;
    }
  }

  lemma NextLine(text: string, at: nat)
    requires at < |text|
    ensures at + |First(text[at..])| <= |text|
    ensures text[at + |First(text[at..])|..] == Rest(text[at..])
  {}

  // Where the row's mapping starts gives its line and the column of its dash.

  function Last(s: string, c: char): (r: int)
    ensures -1 <= r < |s| && (r >= 0 ==> s[r] == c)
    ensures forall i :: r < i < |s| ==> s[i] != c
  {
    if s == [] || s[|s| - 1] == c then |s| - 1 else Last(s[..|s| - 1], c)
  }

  datatype Place = Place(start: nat, end: nat, indent: nat)

  // The row's dash stands at `indent`, with a space after it.
  predicate Dashed(t: string, indent: nat) {
    |t| >= indent + 2 && t[indent] == '-' && t[indent + 1] == ' '
  }

  function LineStart(text: string, mark: nat): (r: nat)
    requires mark <= |text|
    ensures r <= mark && Opens(text, r, mark)
  {
    Last(text[..mark], '\n') + 1
  }

  // The line that holds `mark` starts at `at`.
  ghost predicate Opens(text: string, at: nat, mark: nat) {
    at <= mark <= |text| && (at == 0 || text[at - 1] == '\n') && forall i :: at <= i < mark ==> text[i] != '\n'
  }

  function Locate(text: string, mark: nat): (r: Option<Place>)
    requires mark <= |text|
  {
    var start := LineStart(text, mark);
    var dash := DashAt(text[start..mark]);
    if dash < 0 then None else Some(Place(start, start + Extent(text[start..], dash), dash))
  }

  // The dash that, with one space, ends a row's lead; -1 for any other layout.
  function DashAt(prefix: string): (r: int)
    ensures r >= -1
    ensures r >= 0 <==> |prefix| >= 2 && Dashed(prefix, |prefix| - 2)
    ensures r >= 0 ==> r == |prefix| - 2
  {
    var dash := Last(prefix, '-');
    assert dash >= 0 && prefix[dash..] == "- " ==> prefix[dash + 1] == prefix[dash..][1];
    assert 0 <= dash == |prefix| - 2 ==> prefix[dash..] == [prefix[dash], prefix[dash + 1]];
    if dash < 0 || prefix[dash..] != "- " then -1 else dash
  }

  /** What was located: complete lines, then a row whose dash ends the lead of its line. */
  lemma LocateParts(text: string, mark: nat) returns (before: string, t: string)
    requires mark <= |text| && Locate(text, mark).Some?
    ensures var p := Locate(text, mark).value;
      && text == before + t && |before| == p.start && Closed(before)
      && Dashed(t, p.indent) && mark == p.start + p.indent + 2
      && (forall i :: 0 <= i < p.indent ==> t[i] != '\n')
      && p.end == p.start + Extent(t, p.indent)
  {
    hide Extent, LineStart, DashAt;
    var start := LineStart(text, mark);
    before, t := text[..start], text[start..];
    var prefix := text[start..mark];
    assert prefix == t[..mark - start];
  }

  lemma {:induction false} StartIs(text: string, at: nat, mark: nat)
    requires Opens(text, at, mark)
    ensures LineStart(text, mark) == at
  {}

  /** A row laid out that way is found where it stands. */
  lemma LocateIs(before: string, t: string, indent: nat)
    requires Closed(before) && Dashed(t, indent)
    requires forall i :: 0 <= i < indent ==> t[i] != '\n'
    ensures Locate(before + t, |before| + indent + 2) ==
            Some(Place(|before|, |before| + Extent(t, indent), indent))
  {
    hide Extent, LineStart, DashAt;
    var text, start := before + t, |before|;
    var mark := start + indent + 2;
    assert Opens(text, start, mark) by {
      assert forall i :: start <= i < mark ==> text[i] == t[i - start];
    }
    StartIs(text, start, mark);
    assert text[start..mark] == t[..indent + 2];
    assert text[start..] == t;
  }

  // Moving a row to another indent.

  function Spaces(n: nat): (r: string)
    ensures |r| == n && forall i :: 0 <= i < n ==> r[i] == ' '
  {
    seq(n, _ => ' ')
  }

  function Shift(line: string, from: nat, to: nat): (r: Option<string>) {
    if Blank(line) then Some(line)
    else if Leading(line) < from then None
    else Some(Spaces(to) + line[from..])
  }

  function Shifted(ls: seq<string>, from: nat, to: nat): (r: Option<seq<string>>)
    ensures r.Some? <==> forall i :: 0 <= i < |ls| ==> Shift(ls[i], from, to).Some?
    ensures r.Some? ==>
      && |r.value| == |ls|
      && forall i :: 0 <= i < |ls| ==> r.value[i] == Shift(ls[i], from, to).value
  {
    if ls == [] then Some([])
    else
      var n := |ls| - 1;
      var init := Shifted(ls[..n], from, to);
      if init.None? || Shift(ls[n], from, to).None? then None
      else Some(init.value + [Shift(ls[n], from, to).value])
  }

  function Reindented(row: string, from: nat, to: nat): (r: Option<string>) {
    var ls := Shifted(Lines(row), from, to);
    if ls.None? then None else Some(Join(ls.value))
  }

  method Reindent(row: string, from: nat, to: nat) returns (r: Option<string>)
    ensures r == Reindented(row, from, to)
  {
    hide Shift;
    var ls := Lines(row);
    var rewritten: seq<string> := [];
    for i := 0 to |ls|
      invariant |rewritten| == i
      invariant forall k :: 0 <= k < i ==> Shift(ls[k], from, to) == Some(rewritten[k])
    {
      var line := Shift(ls[i], from, to);
      if line.None? { return None; }
      rewritten := rewritten + [line.value];
    }
    assert Shifted(ls, from, to).value == rewritten;
    return Some(Join(rewritten));
  }

  lemma LeadingIs(line: string, n: nat)
    requires n <= |line| && forall i :: 0 <= i < n ==> line[i] == ' '
    requires n < |line| ==> line[n] != ' '
    ensures Leading(line) == n
  {}

  lemma NotBlank(line: string, n: nat)
    requires Leading(line) >= n && !Blank(line)
    ensures n < |line| && !Blank(line[n..])
  {}

  // Text put behind some spaces.
  lemma Padded(body: string, to: nat)
    requires !Blank(body) && Line(body)
    ensures var r := Spaces(to) + body;
      Line(r) && Closed(r) == Closed(body) && !Blank(r) && Leading(r) == to + Leading(body)
  {
    var r := Spaces(to) + body;
    NotBlank(body, Leading(body));
    var k :| 0 <= k < |body| && !Space(body[k]);
    assert r[to + k] == body[k];
    assert forall i :: to <= i < |r| ==> r[i] == body[i - to];
    LeadingIs(r, to + Leading(body));
  }

  lemma Unpadded(line: string, from: nat)
    requires Line(line) && !Blank(line) && Leading(line) >= from
    ensures line == Spaces(from) + line[from..]
    ensures !Blank(line[from..]) && Line(line[from..])
    ensures Closed(line[from..]) == Closed(line) && Leading(line) == from + Leading(line[from..])
  {}

  /** A shifted line keeps its text, its depth below the dash and its ending. */
  lemma ShiftKeeps(line: string, from: nat, to: nat)
    requires Line(line) && Shift(line, from, to).Some?
    ensures var r := Shift(line, from, to).value;
      && Line(r) && Closed(r) == Closed(line) && Blank(r) == Blank(line)
      && (!Blank(line) ==> Leading(r) == Leading(line) - from + to)
      && (if Blank(line) then r == line
          else |line| >= from && line == Spaces(from) + line[from..] && r == Spaces(to) + line[from..])
      && (Deeper(r, to) == Deeper(line, from))
      && Shift(r, to, from) == Some(line)
  {
    hide Spaces, Leading, Blank, Line, Closed;
    if !Blank(line) {
      Unpadded(line, from);
      Padded(line[from..], to);
      var r := Spaces(to) + line[from..];
      assert r[to..] == line[from..];
    }
  }

  lemma ShiftedSplit(ls: seq<string>, from: nat, to: nat)
    requires Split(ls) && Shifted(ls, from, to).Some?
    ensures var r := Shifted(ls, from, to).value;
      && Split(r) && Shifted(r, to, from) == Some(ls)
      && forall i :: 0 <= i < |ls| ==> Closed(r[i]) == Closed(ls[i]) && Deeper(r[i], to) == Deeper(ls[i], from)
  {
    hide Shift, Line, Closed, Deeper;
    var r := Shifted(ls, from, to).value;
    forall i | 0 <= i < |ls|
      ensures Line(r[i]) && Closed(r[i]) == Closed(ls[i]) && Deeper(r[i], to) == Deeper(ls[i], from)
      ensures Shift(r[i], to, from) == Some(ls[i])
    {
      ShiftKeeps(ls[i], from, to);
    }
    assert Shifted(r, to, from).value == ls;
  }

  /** Moving a row to another indent can be undone. */
  lemma ReindentRoundTrip(row: string, from: nat, to: nat)
    requires Reindented(row, from, to).Some?
    ensures Reindented(Reindented(row, from, to).value, to, from) == Some(row)
  {
    hide Shifted, Split;
    JoinLines(row);
    ShiftedSplit(Lines(row), from, to);
    LinesJoin(Shifted(Lines(row), from, to).value);
  }

  // The lines of a row whose dash stands at `indent`.
  ghost predicate RowLines(ls: seq<string>, indent: nat) {
    && ls != [] && Split(ls) && Dashed(ls[0], indent)
    && forall i :: 1 <= i < |ls| ==> Deeper(ls[i], indent)
  }

  lemma FirstDashed(t: string, indent: nat)
    requires Dashed(t, indent) && forall i :: 0 <= i < indent ==> t[i] != '\n'
    ensures Dashed(First(t), indent)
  {}

  lemma ExtentParts(t: string, indent: nat) returns (row: string, after: string)
    requires Dashed(t, indent) && forall i :: 0 <= i < indent ==> t[i] != '\n'
    ensures t == row + after && |row| == Extent(t, indent)
    ensures RowLines(Lines(row), indent) && Shallow(after, indent)
    ensures after == [] || Closed(row)
  {
    hide Deeper, First, Rest, Lines, Line, Split, Reach, Shallow;
    Halves(t);
    FirstDashed(t, indent);
    var l, u := First(t), [];
    u, after := ReachParts(Rest(t), indent);
    row := l + u;
    assert t == l + (u + after);
    LinesCons(l, u);
    JoinLines(row);
  }

  /** A row moved to another indent is a row there, with only spaces before its dash. */
  lemma ShiftedRow(ls: seq<string>, from: nat, to: nat)
    requires RowLines(ls, from) && Shifted(ls, from, to).Some?
    ensures var r := Shifted(ls, from, to).value; RowLines(r, to) && Leading(r[0]) == to
  {
    hide Split, Deeper, Closed, Shifted, Leading, Spaces;
    var r := Shifted(ls, from, to).value;
    ShiftedSplit(ls, from, to);
    SplitFirst(ls);
    assert Shift(ls[0], from, to) == Some(r[0]);
    ShiftedDash(ls[0], from, to);
  }

  lemma ShiftedDash(l: string, from: nat, to: nat)
    requires Line(l) && Dashed(l, from) && Shift(l, from, to).Some?
    ensures var r := Shift(l, from, to).value; Dashed(r, to) && Leading(r) == to
  {}

  lemma RowExtent(ls: seq<string>, after: string, indent: nat)
    requires RowLines(ls, indent) && Shallow(after, indent)
    requires after == [] || Closed(Join(ls))
    ensures Extent(Join(ls) + after, indent) == |Join(ls)|
  {
    hide Deeper, Reach, Split, Join, Shallow, First, Rest, Line, Lines;
    SplitFirst(ls);
    var l, u := ls[0], Join(ls[1..]);
    LinesJoin(ls[1..]);
    assert Join(ls) + after == l + (u + after);
    if after != [] {
      ClosedRest(l, u);
      if u == [] { assert l == Join(ls); }
    } else if |ls| == 1 {
      assert u + after == [];
    }
    if u == [] && after == [] { assert u + after == []; }
    HalvesAre(l, u + after) by {
      if |ls| > 1 { assert Closed(l); }
    }
    ReachIs(u, after, indent);
  }

  // An extent stops at the end of a line or of the text.
  lemma ExtentStops(row: string, after: string, indent: nat)
    requires row != [] && Extent(row + after, indent) == |row|
    ensures after == [] || Closed(row)
  {
    hide Deeper, Reach, Shallow, First, Rest, Line, Lines;
    var t := row + after;
    Halves(t);
    var a, b := ReachParts(Rest(t), indent);
    assert t == (First(t) + a) + b;
    assert row == t[..|row|] == First(t) + a;
    assert after == t[|row|..] == b;
    if a == [] { assert row == First(t); } else { assert row[|row| - 1] == a[|a| - 1]; }
  }

  lemma LeadingPrefix(a: string, t: string)
    requires Leading(a) < |a|
    ensures Leading(a + t) == Leading(a)
  {
    assert forall i :: 0 <= i < |a| ==> (a + t)[i] == a[i];
    LeadingIs(a + t, Leading(a));
  }

  /** A row put behind complete lines is found again, and its end is found at its own
      end exactly when it closes its last line or ends the text. */
  lemma PlacedRow(before: string, ls: seq<string>, after: string, indent: nat)
    requires Closed(before) && RowLines(ls, indent) && Leading(ls[0]) == indent
    requires Shallow(after, indent)
    ensures var d := before + (Join(ls) + after);
      && |d| >= |before| + indent + 2
      && var p := Locate(d, |before| + indent + 2);
      && p.Some? && p.value.start == |before| && p.value.indent == indent
      && (p.value.end == |before| + |Join(ls)| <==> after == [] || Closed(Join(ls)))
  {
    hide Deeper, Extent, Locate, Split, Join, Shallow, Leading;
    SplitFirst(ls);
    var l, u := ls[0], Join(ls[1..]);
    var t := Join(ls) + after;
    assert t == l + (u + after);
    DashedPrefix(l, u + after, indent);
    LocateIs(before, t, indent);
    if after == [] || Closed(Join(ls)) {
      RowExtent(ls, after, indent);
    } else if Extent(t, indent) == |Join(ls)| {
      ExtentStops(Join(ls), after, indent);
    }
  }

  lemma DashedPrefix(l: string, t: string, indent: nat)
    requires Dashed(l, indent) && Leading(l) == indent
    ensures Dashed(l + t, indent) && forall i :: 0 <= i < indent ==> (l + t)[i] != '\n'
  {}

  // The projection. `marks` is what the YAML parser reports: where the mappings with
  // the tgw-context identity start, or nothing for a text it refuses.

  type Marks = string -> Option<seq<nat>>

  datatype Target = Fails | NoRow | Row(place: Place)

  function TargetRow(text: string, marks: Marks): (r: Target) {
    var ms := marks(text);
    if ms.None? || |ms.value| > 1 then Fails
    else if ms.value == [] then NoRow
    else if ms.value[0] > |text| || Locate(text, ms.value[0]).None? then Fails
    else Row(Locate(text, ms.value[0]).value)
  }

  lemma TargetParts(text: string, marks: Marks) returns (before: string, row: string, after: string)
    requires TargetRow(text, marks).Row?
    ensures var p := TargetRow(text, marks).place;
      && text == before + (row + after) && |before| == p.start && |before| + |row| == p.end
      && text[..p.start] == before && text[p.start..p.end] == row && text[p.end..] == after
      && Closed(before) && RowLines(Lines(row), p.indent) && Shallow(after, p.indent)
      && (after == [] || Closed(row))
  {
    hide Locate, Extent, RowLines, Shallow, Closed, Lines;
    var t;
    before, t := LocateParts(text, marks(text).value[0]);
    row, after := ExtentParts(t, TargetRow(text, marks).place.indent);
    Pieces(before, row, after);
  }

  lemma Pieces(before: string, row: string, after: string)
    ensures var text := before + (row + after);
      && text[..|before|] == before && text[|before|..|before| + |row|] == row
      && text[|before| + |row|..] == after
  {}

  function Base(current: string): (r: string)
    ensures Closed(r) && current <= r
  {
    if current == [] || current[|current| - 1] == '\n' then current else current + "\n"
  }

  ghost predicate Within(p: Target, text: string) {
    p.Row? ==> p.place.start <= p.place.end <= |text|
  }

  lemma TargetWithin(text: string, marks: Marks)
    ensures Within(TargetRow(text, marks), text)
  {
    if TargetRow(text, marks).Row? { var _, _, _ := TargetParts(text, marks); }
  }

  function Desired(current: string, fragment: string, cur: Target, s: Place): (r: Option<string>)
    requires Within(Row(s), fragment) && Within(cur, current)
  {
    match cur
    case Fails => None
    case NoRow => Some(Base(current) + fragment)
    case Row(c) =>
      var repl := Reindented(fragment[s.start..s.end], s.indent, c.indent);
      if repl.None? then None else Some(current[..c.start] + (repl.value + current[c.end..]))
  }

  function Projected(current: string, fragment: string, marks: Marks): (r: Option<string>) {
    var src, cur := TargetRow(fragment, marks), TargetRow(current, marks);
    TargetWithin(current, marks);
    TargetWithin(fragment, marks);
    if !src.Row? then None
    else
      var d := Desired(current, fragment, cur, src.place);
      if d.Some? && TargetRow(d.value, marks).Row? then d else None
  }

  /** Over an existing row only the row changes, and it becomes the generated row at the
      old row's indent. A second projection, with the parser finding the row where the
      first put it, changes nothing exactly when the generated row closes its last line
      or nothing follows the old row. */
  lemma SpliceTwice(current: string, fragment: string, marks: Marks)
    returns (before: string, row: string, after: string, repl: string)
    requires TargetRow(fragment, marks).Row? && TargetRow(current, marks).Row?
    requires Projected(current, fragment, marks).Some?
    ensures var d := Projected(current, fragment, marks).value;
      var c, s := TargetRow(current, marks).place, TargetRow(fragment, marks).place;
      && current == before + (row + after) && |before| == c.start && |before| + |row| == c.end
      && d == before + (repl + after)
      && s.start <= s.end <= |fragment|
      && Reindented(fragment[s.start..s.end], s.indent, c.indent) == Some(repl)
      && Reindented(repl, c.indent, s.indent) == Some(fragment[s.start..s.end])
      && (marks(d) == Some([c.start + c.indent + 2]) ==>
          (Projected(d, fragment, marks) == Some(d) <==> after == [] || Closed(fragment[s.start..s.end])))
  {
    hide Locate, Extent, RowLines, Shallow, Closed, Lines, Reindented;
    var c, s := TargetRow(current, marks).place, TargetRow(fragment, marks).place;
    before, row, after := TargetParts(current, marks);
    var _, source, _ := TargetParts(fragment, marks);
    repl := Reindented(source, s.indent, c.indent).value;
    ReindentRoundTrip(source, s.indent, c.indent);
    var ls := RowMoves(source, s.indent, c.indent);
    PlacedRow(before, ls, after, c.indent);
    var d := before + (repl + after);
    Pieces(before, repl, after);
    if marks(d) == Some([c.start + c.indent + 2]) {
      var p := TargetRow(d, marks).place;
      TargetWithin(d, marks);
      assert TargetRow(d, marks) == Row(Place(|before|, p.end, c.indent));
      SpliceAgain(before, repl, after, p.end);
    }
  }

  lemma RowMoves(source: string, from: nat, to: nat) returns (ls: seq<string>)
    requires RowLines(Lines(source), from) && Reindented(source, from, to).Some?
    ensures RowLines(ls, to) && Leading(ls[0]) == to
    ensures Join(ls) == Reindented(source, from, to).value
    ensures Closed(Join(ls)) == Closed(source)
  {
    ls := Shifted(Lines(source), from, to).value;
    ShiftedRow(Lines(source), from, to);
    ShiftedSplit(Lines(source), from, to);
    JoinLines(source);
    JoinClosed(Lines(source));
    JoinClosed(ls);
  }

  lemma {:induction false} JoinClosed(ls: seq<string>)
    requires Split(ls) && ls != []
    ensures Join(ls) != [] && Closed(Join(ls)) == Closed(ls[|ls| - 1])
  {
    SplitFirst(ls);
    if |ls| == 1 {
      assert Join(ls) == ls[0];
    } else {
      JoinClosed(ls[1..]);
      var u := Join(ls[1..]);
      assert (ls[0] + u)[|ls[0] + u| - 1] == u[|u| - 1];
    }
  }

  lemma SpliceAgain(before: string, repl: string, after: string, end: nat)
    requires |before| <= end <= |before + (repl + after)|
    ensures var d := before + (repl + after);
      d[..|before|] + (repl + d[end..]) == d <==> end == |before| + |repl|
  {}

  lemma SameIndent(ls: seq<string>, k: nat)
    requires RowLines(ls, k)
    ensures Shifted(ls, k, k).Some? <==> Leading(ls[0]) == k
    ensures Shifted(ls, k, k).Some? ==> Shifted(ls, k, k).value == ls
  {
    hide Shifted, Split, Spaces;
    assert !Space(ls[0][k]);
    forall i | 0 <= i < |ls|
      ensures i > 0 || Leading(ls[0]) == k ==> Shift(ls[i], k, k) == Some(ls[i])
      ensures i == 0 && Leading(ls[0]) != k ==> Shift(ls[0], k, k).None?
    {
      if Leading(ls[i]) >= k { assert Spaces(k) + ls[i][k..] == ls[i]; }
    }
    assert Leading(ls[0]) == k ==> Shifted(ls, k, k).Some?;
    if Shifted(ls, k, k).Some? {
      assert Shift(ls[0], k, k).Some?;
      assert forall i :: 0 <= i < |ls| ==> Shifted(ls, k, k).value[i] == ls[i];
    }
  }

  lemma SameRow(row: string, k: nat)
    requires RowLines(Lines(row), k)
    ensures Reindented(row, k, k).Some? <==> Leading(row) == k
    ensures Reindented(row, k, k).Some? ==> Reindented(row, k, k).value == row
  {
    hide Shifted, Split, Lines, Leading, Join;
    var ls := Lines(row);
    JoinLines(row);
    SameIndent(ls, k);
    SplitFirst(ls);
    LeadingDash(ls[0], k, Join(ls[1..]));
  }

  lemma LeadingDash(l: string, k: nat, t: string)
    requires Dashed(l, k)
    ensures Leading(l + t) == k <==> Leading(l) == k
  {
    assert (l + t)[k] == l[k];
    LeadingPrefix(l, t);
  }

  lemma LocateShift(base: string, text: string, mark: nat)
    requires Closed(base) && mark <= |text| && Locate(text, mark).Some?
    ensures var p := Locate(text, mark).value;
      Locate(base + text, |base| + mark) == Some(Place(|base| + p.start, |base| + p.end, p.indent))
  {
    hide Locate, Extent;
    var before, t := LocateParts(text, mark);
    LocateIs(base + before, t, Locate(text, mark).value.indent);
    assert base + text == (base + before) + t;
  }

  /** Without a row the fragment is appended behind complete lines. A second projection,
      with the parser finding the row there, changes nothing exactly when the fragment's
      own row has only spaces before its dash; otherwise it refuses. */
  lemma AppendTwice(current: string, fragment: string, marks: Marks)
    requires TargetRow(fragment, marks).Row? && TargetRow(current, marks).NoRow?
    requires Projected(current, fragment, marks).Some?
    ensures var d := Projected(current, fragment, marks).value;
      var s := TargetRow(fragment, marks).place;
      && d == Base(current) + fragment
      && s.start <= s.end <= |fragment|
      && (marks(d) == Some([|Base(current)| + marks(fragment).value[0]]) ==>
          Projected(d, fragment, marks) ==
          if Leading(fragment[s.start..s.end]) == s.indent then Some(d) else None)
  {
    hide Locate, RowLines, Shallow, Closed, Lines, Reindented, Leading;
    var s := TargetRow(fragment, marks).place;
    var before, row, after := TargetParts(fragment, marks);
    var base := Base(current);
    var d := base + fragment;
    if marks(d) == Some([|base| + marks(fragment).value[0]]) {
      LocateShift(base, fragment, marks(fragment).value[0]);
      TargetWithin(d, marks);
      SameRow(row, s.indent);
      assert d == (base + before) + (row + after);
      Pieces(base + before, row, after);
    }
  }

  // A row of complete lines, or one that ends the text, is the target where it stands.
  lemma TargetIs(before: string, ls: seq<string>, after: string, indent: nat, marks: Marks)
    requires Closed(before) && RowLines(ls, indent) && Leading(ls[0]) == indent
    requires Shallow(after, indent) && (after == [] || Closed(Join(ls)))
    requires marks(before + (Join(ls) + after)) == Some([|before| + indent + 2])
    ensures TargetRow(before + (Join(ls) + after), marks) == Row(Place(|before|, |before| + |Join(ls)|, indent))
  {
    hide RowLines, Locate, Shallow, Leading, Join, Closed;
    PlacedRow(before, ls, after, indent);
  }

  // Two lines of a row.
  lemma TwoLines(first: string, second: string, indent: nat)
    requires Line(first) && Closed(first) && Dashed(first, indent) && Line(second) && Leading(second) > indent
    ensures RowLines([first, second], indent) && Split([first, second])
    ensures Join([first, second]) == first + second && Closed(first + second) == Closed(second)
  {
    hide Leading;
    var ls := [first, second];
    assert ls[1..] == [second] && [second][1..] == [];
    assert Join([second]) == second + "" == second;
    assert (first + second)[|first + second| - 1] == second[|second| - 1];
  }

  // A line without its newline, and the line it runs into.
  lemma Glued(l: string, note: string)
    requires Line(l) && !Closed(l) && Leading(l) < |l| && Line(note)
    ensures Line(l + note) && Leading(l + note) == Leading(l)
  {
    LeadingPrefix(l, note);
  }

  lemma RowSame(first: string, second: string, indent: nat)
    requires Line(first) && Closed(first) && Dashed(first, indent) && Leading(first) == indent
    requires Line(second) && Leading(second) > indent
    ensures Reindented(first + second, indent, indent) == Some(first + second)
  {
    hide Leading, Line, RowLines, Join, Reindented, Lines, Split, Closed;
    TwoLines(first, second, indent);
    LinesJoin([first, second]);
    SameRow(first + second, indent);
    LeadingPrefix(first, second);
  }

  /** A generated row without a final newline runs into the line after the old row, and
      the second projection swallows that line. */
  lemma UnclosedRow(head: string, first: string, old_: string, new_: string, note: string, indent: nat, marks: Marks)
    requires Closed(head) && Line(first) && Closed(first) && Dashed(first, indent) && Leading(first) == indent
    requires Line(old_) && Closed(old_) && Leading(old_) > indent
    requires Line(new_) && !Closed(new_) && indent < Leading(new_) < |new_|
    requires Line(note) && Shallow(note, indent)
    requires marks(head + (first + new_)) == marks(head + (first + old_ + note)) == marks(head + (first + new_ + note))
             == Some([|head| + indent + 2])
    ensures var fragment := head + (first + new_);
      && Projected(head + (first + old_ + note), fragment, marks) == Some(head + (first + new_ + note))
      && Projected(head + (first + new_ + note), fragment, marks) == Some(fragment)
  {
    hide Leading, Line, Shallow, TargetRow, Reindented, Closed, Dashed, Projected;
    var row, once := first + new_, first + new_ + note;
    assert row + [] == row && once + [] == once && first + (new_ + note) == once;
    NothingShallow(indent);
    Glued(new_, note);
    TwoLineTarget(head, first, new_, [], indent, marks);
    TwoLineTarget(head, first, old_, note, indent, marks);
    TwoLineTarget(head, first, new_ + note, [], indent, marks);
    RowSame(first, new_, indent);
    OverRow(head, row, first + old_, note, indent, marks);
    OverRow(head, row, once, [], indent, marks);
  }

  lemma TwoLineTarget(head: string, first: string, second: string, after: string, indent: nat, marks: Marks)
    requires Closed(head) && Line(first) && Closed(first) && Dashed(first, indent) && Leading(first) == indent
    requires Line(second) && Leading(second) > indent && Shallow(after, indent) && (after == [] || Closed(second))
    requires marks(head + (first + second + after)) == Some([|head| + indent + 2])
    ensures TargetRow(head + (first + second + after), marks) == Row(Place(|head|, |head| + |first + second|, indent))
  {
    hide Leading, Line, Shallow, RowLines, Join, TargetRow, Split, Closed, Dashed;
    TwoLines(first, second, indent);
    TargetIs(head, [first, second], after, indent, marks);
  }

  // Projecting a row over another at the same place and indent.
  lemma OverRow(head: string, row: string, was: string, after: string, indent: nat, marks: Marks)
    requires TargetRow(head + row, marks) == Row(Place(|head|, |head| + |row|, indent))
    requires TargetRow(head + (was + after), marks) == Row(Place(|head|, |head| + |was|, indent))
    requires Reindented(row, indent, indent) == Some(row) && TargetRow(head + (row + after), marks).Row?
    ensures Projected(head + (was + after), head + row, marks) == Some(head + (row + after))
  {
    hide TargetRow, Reindented;
    assert row + [] == row;
    Pieces(head, row, []);
    Pieces(head, was, after);
  }

  lemma NothingShallow(indent: nat)
    ensures Shallow([], indent)
  {}

  const Head := "- insert:\n"
  const Opening := "  - id: tgw-context\n"
  const Old := "    command: x\n"
  const New := "    command: y"
  const Note := "# note\n"

  lemma OpeningLine()
    ensures Line(Opening) && Closed(Opening) && Dashed(Opening, 2) && Leading(Opening) == 2
  {
    hide Leading;
    LeadingIs(Opening, 2);
  }

  lemma OldLine()
    ensures Line(Old) && Leading(Old) == 4 && Closed(Old)
  {
    hide Leading;
    LeadingIs(Old, 4);
  }

  lemma NewLine()
    ensures Line(New) && Leading(New) == 4 < |New| && !Closed(New)
  {
    hide Leading;
    LeadingIs(New, 4);
  }

  lemma NoteLine()
    ensures Line(Note) && Shallow(Note, 2)
  {
    assert Note + [] == Note;
    HalvesAre(Note, []);
    LeadingIs(Note, 0);
    assert !Space(Note[0]);
  }

  lemma HeadLine()
    ensures |Head| == 10 && Closed(Head)
  {}

  /** Such a patch store and fragment: the comment after the row becomes part of the
      command, and is gone after the second projection. */
  lemma UnclosedRowExample(marks: Marks)
    requires marks(Head + (Opening + New)) == marks(Head + (Opening + Old + Note)) == marks(Head + (Opening + New + Note)) == Some([14])
    ensures Projected(Head + (Opening + Old + Note), Head + (Opening + New), marks) == Some(Head + (Opening + New + Note))
    ensures Projected(Head + (Opening + New + Note), Head + (Opening + New), marks) == Some(Head + (Opening + New))
  {
    hide Leading, Line, Shallow, Closed, Dashed, Projected, Head, Opening, Old, New, Note;
    HeadLine();
    OpeningLine();
    OldLine();
    NewLine();
    NoteLine();
    UnclosedRow(Head, Opening, Old, New, Note, 2, marks);
  }

  /* ---- which lines a row owns, by their characters ---- */

  // Blank, or further in than the dash.
  predicate Below(line: string, indent: nat) {
    Blank(line) || (|line| > indent && forall i :: 0 <= i <= indent ==> line[i] == ' ')
  }

  // Something other than white space stands no further in than the dash.
  ghost predicate Stops(line: string, indent: nat) {
    exists k :: 0 <= k <= indent && k < |line| && (forall i :: 0 <= i < k ==> line[i] == ' ') && !Space(line[k])
  }

  lemma DeeperIs(line: string, indent: nat)
    ensures Deeper(line, indent) <==> Below(line, indent)
    ensures Stops(line, indent) ==> !Below(line, indent)
  {
    hide Leading;
    if Stops(line, indent) {
      var k :| 0 <= k <= indent && k < |line| && (forall i :: 0 <= i < k ==> line[i] == ' ') && !Space(line[k]);
      assert Space(' ');
    }
  }

  // A row as the text shows it: its dash line, the lines below it, then the end or a
  // line that stops it.
  ghost predicate Shown(row: seq<string>, next: string, more: string, indent: nat) {
    && row != [] && Split(row) && Dashed(row[0], indent)
    && (forall i :: 1 <= i < |row| ==> Below(row[i], indent))
    && if next == [] then more == []
       else Line(next) && Stops(next, indent) && (more == [] || Closed(next)) && Closed(Join(row))
  }

  lemma ShownShallow(next: string, more: string, indent: nat)
    requires Line(next) && Stops(next, indent) && (more == [] || Closed(next))
    ensures Shallow(next + more, indent)
  {
    hide Stops, Below, Line, First, Deeper, Closed;
    HalvesAre(next, more);
    DeeperIs(next, indent);
    assert next != [] by { LineSome(next); }
  }

  lemma LineSome(l: string)
    requires Line(l)
    ensures l != []
  {}

  lemma ShownLines(row: seq<string>, next: string, more: string, indent: nat)
    requires Shown(row, next, more, indent)
    ensures RowLines(row, indent) && Shallow(next + more, indent)
    ensures next + more == [] || Closed(Join(row))
  {
    hide Below, Deeper, Split, Dashed, Stops, Closed, Line, Join, First;
    forall i | 1 <= i < |row| ensures Deeper(row[i], indent) { DeeperIs(row[i], indent); }
    if next == [] {
      NothingShallow(indent);
      assert next + more == [];
    } else {
      ShownShallow(next, more, indent);
    }
  }

  /** The target row is exactly the row that the text shows: no line below the dash is
      left out, and no line that stands at or before it is taken in. */
  lemma RowIs(head: string, row: seq<string>, next: string, more: string, indent: nat, marks: Marks)
    requires Closed(head) && Shown(row, next, more, indent)
    requires marks(head + (Join(row) + (next + more))) == Some([|head| + indent + 2])
    ensures TargetRow(head + (Join(row) + (next + more)), marks) == Row(Place(|head|, |head| + |Join(row)|, indent))
  {
    hide Shallow, Locate, Extent, Closed, Split;
    ShownLines(row, next, more, indent);
    var after := next + more;
    var t := Join(row) + after;
    hide Shown;
    RowExtent(row, after, indent);
    RowDash(row, after, indent);
    hide RowLines, Join, Dashed;
    LocateIs(head, t, indent);
    DashedLong(t, indent);
  }

  lemma RowDash(row: seq<string>, after: string, indent: nat)
    requires RowLines(row, indent)
    ensures Dashed(Join(row) + after, indent) && forall i :: 0 <= i < indent ==> (Join(row) + after)[i] != '\n'
  {
    hide Join, Split, Deeper;
    SplitFirst(row);
    var t := Join(row) + after;
    assert t == row[0] + (Join(row[1..]) + after);
    assert forall i :: 0 <= i < |row[0]| ==> t[i] == row[0][i];
  }

  lemma DashedLong(t: string, indent: nat)
    requires Dashed(t, indent)
    ensures |t| >= indent + 2
  {}

  /** What a projection over a shown row does to the text: everything before the dash line
      and everything from the stopping line on stays, character for character, and in
      between stands the generated row at the old indent. */
  lemma ProjectedIs(head: string, row: seq<string>, next: string, more: string, indent: nat,
                    fragHead: string, fragRow: seq<string>, fragNext: string, fragMore: string, fragIndent: nat, marks: Marks)
    requires Closed(head) && Shown(row, next, more, indent)
    requires Closed(fragHead) && Shown(fragRow, fragNext, fragMore, fragIndent)
    requires marks(head + (Join(row) + (next + more))) == Some([|head| + indent + 2])
    requires marks(fragHead + (Join(fragRow) + (fragNext + fragMore))) == Some([|fragHead| + fragIndent + 2])
    ensures
      var repl := Reindented(Join(fragRow), fragIndent, indent);
      var d := Projected(head + (Join(row) + (next + more)), fragHead + (Join(fragRow) + (fragNext + fragMore)), marks);
      && (repl.None? ==> d.None?)
      && (d.Some? ==> d.value == head + (repl.value + (next + more)))
      && (repl.Some? && TargetRow(head + (repl.value + (next + more)), marks).Row? ==> d.Some?)
  {
    hide Shown, Join, TargetRow, Reindented, Closed;
    RowIs(head, row, next, more, indent, marks);
    RowIs(fragHead, fragRow, fragNext, fragMore, fragIndent, marks);
    Pieces(head, Join(row), next + more);
    Pieces(fragHead, Join(fragRow), fragNext + fragMore);
  }

  const Sibling := "  - id: other\n"
  const NewClosed := "    command: y\n"

  lemma SiblingLine()
    ensures Line(Sibling) && Closed(Sibling) && Stops(Sibling, 2)
  {
    assert Sibling[0] == ' ' && Sibling[1] == ' ' && !Space(Sibling[2]);
  }

  lemma ClosedLine()
    ensures Line(NewClosed) && Closed(NewClosed) && Leading(NewClosed) == 4
  {
    hide Leading;
    LeadingIs(NewClosed, 4);
  }

  lemma BelowIs(l: string, indent: nat)
    requires Leading(l) > indent
    ensures Below(l, indent)
  {
    hide Leading;
    DeeperIs(l, indent);
  }

  lemma TwoShown(first: string, second: string, next: string, more: string, indent: nat)
    requires Line(first) && Closed(first) && Dashed(first, indent) && Line(second) && Closed(second) && Below(second, indent)
    requires if next == [] then more == [] else Line(next) && Stops(next, indent) && Closed(next)
    ensures Shown([first, second], next, more, indent) && Join([first, second]) == first + second
  {
    hide Below, Dashed, Stops, Line;
    var ls := [first, second];
    assert ls[1..] == [second] && [second][1..] == [];
    assert Join([second]) == second + "" == second;
    LineSome(second);
    assert (first + second)[|first + second| - 1] == second[|second| - 1];
  }

  /** A sibling row at the same indent, with whatever follows it, survives. */
  lemma SiblingKept(more: string, marks: Marks)
    requires marks(Head + (Opening + Old + (Sibling + more))) == Some([14])
    requires marks(Head + (Opening + NewClosed)) == Some([14])
    requires TargetRow(Head + (Opening + NewClosed + (Sibling + more)), marks).Row?
    ensures Projected(Head + (Opening + Old + (Sibling + more)), Head + (Opening + NewClosed), marks)
         == Some(Head + (Opening + NewClosed + (Sibling + more)))
  {
    hide Leading, Line, Closed, Dashed, Projected, Head, Opening, Old, NewClosed, Sibling, Shown, Stops, Below, TargetRow, Reindented, Join;
    HeadLine();
    OpeningLine();
    OldLine();
    ClosedLine();
    BelowIs(Old, 2);
    BelowIs(NewClosed, 2);
    SiblingLine();
    TwoShown(Opening, Old, Sibling, more, 2);
    TwoShown(Opening, NewClosed, [], [], 2);
    RowSame(Opening, NewClosed, 2);
    assert Opening + NewClosed + ([] + []) == Opening + NewClosed;
    ProjectedIs(Head, [Opening, Old], Sibling, more, 2, Head, [Opening, NewClosed], [], [], 2, marks);
  }

  /** Which inputs are refused whatever they hold: a fragment without exactly one row, a
      store the parser refuses or with several, and a result without exactly one. */
  lemma RefusedUnlessOne(current: string, fragment: string, marks: Marks)
    ensures var d := Projected(current, fragment, marks);
      d.Some? ==>
        && marks(fragment).Some? && |marks(fragment).value| == 1
        && marks(current).Some? && |marks(current).value| <= 1
        && marks(d.value).Some? && |marks(d.value).value| == 1
  {}

  /** The projection, against its specification. */
  method Project(current: string, fragment: string, marks: Marks) returns (r: Option<string>)
    ensures r == Projected(current, fragment, marks)
  {
    var src := TargetRow(fragment, marks);
    if !src.Row? { return None; }
    TargetWithin(fragment, marks);
    TargetWithin(current, marks);
    var s := src.place;
    var desired: string;
    match TargetRow(current, marks) {
      case Fails => return None;
      case NoRow =>
        var separator := if current == [] || current[|current| - 1] == '\n' then "" else "\n";
        desired := current + separator + fragment;
        assert separator == "" ==> current + separator == current;
      case Row(c) =>
        var replacement := Reindent(fragment[s.start..s.end], s.indent, c.indent);
        if replacement.None? { return None; }
        desired := current[..c.start] + replacement.value + current[c.end..];
        assert desired == current[..c.start] + (replacement.value + current[c.end..]);
    }
    if !TargetRow(desired, marks).Row? { return None; }
    return Some(desired);
  }
}
