/** Trailing-comma removal: what it deletes, what it keeps, and when a second pass
    still finds something. */
module JsonCommas {
  import opened Wrappers
  import JsonComments

  datatype Mode = Code | Text(esc: bool)

  function Next(m: Mode, ch: char): Mode {
    match m
    case Code => if ch == '"' then Text(false) else Code
    case Text(esc) => if esc then Text(false) else if ch == '\\' then Text(true) else if ch == '"' then Code else m
  }

  predicate Blank(ch: char) { ch == ' ' || ch == '\t' || ch == '\r' || ch == '\n' }

  // The first character that is not blank.
  function Solid(s: string): Option<char> {
    if s == "" then None else if Blank(s[0]) then Solid(s[1..]) else Some(s[0])
  }

  predicate Closes(c: Option<char>) { c == Some(']') || c == Some('}') }

  // A comma outside strings whose next solid character closes a container.
  predicate Doomed(m: Mode, s: string) {
    m == Code && s != "" && s[0] == ',' && Closes(Solid(s[1..]))
  }

  function Trimmed(m: Mode, s: string): string
    decreases |s|
  {
    if s == "" then ""
    else (if Doomed(m, s) then "" else [s[0]]) + Trimmed(Next(m, s[0]), s[1..])
  }

  method FirstSolid(text: string, start: nat) returns (j: nat)
    requires start <= |text|
    ensures start <= j <= |text|
    ensures Solid(text[start..]) == if j < |text| then Some(text[j]) else None
  {
    j := start;
    while j < |text| && Blank(text[j])
      invariant start <= j <= |text| && Solid(text[start..]) == Solid(text[j..])
    {
      assert text[j..][1..] == text[j + 1..];
      j := j + 1;
    }
  }

  // The text is trimmed up to i; the rest is still to come.
  ghost predicate Pending(text: string, i: nat, m: Mode, out: string) {
    i <= |text| && Trimmed(Code, text) == out + Trimmed(m, text[i..])
  }

  lemma PendingStart(text: string)
    ensures Pending(text, 0, Code, "")
  {}

  lemma PendingStep(text: string, i: nat, m: Mode, out: string)
    requires i < |text| && Pending(text, i, m, out)
    ensures Pending(text, i + 1, Next(m, text[i]), if Doomed(m, text[i..]) then out else out + [text[i]])
  {}

  lemma PendingEnd(text: string, m: Mode, out: string)
    requires Pending(text, |text|, m, out)
    ensures out == Trimmed(Code, text)
  {}

  method RemoveTrailingCommas(text: string) returns (out: string, changed: bool)
    ensures out == Trimmed(Code, text)
    ensures changed <==> out != text
  {
    hide Pending, Solid;
    var inStr, esc := false, false;
    out, changed := "", false;
    var i := 0;
    PendingStart(text);
    while i < |text|
      invariant i <= |text| && (esc ==> inStr)
      invariant Pending(text, i, if inStr then Text(esc) else Code, out)
      invariant if changed then |out| < i else out == text[..i]
    {
      var ch := text[i];
      PendingStep(text, i, if inStr then Text(esc) else Code, out);
      assert text[i..][0] == ch && text[i..][1..] == text[i + 1..];
      if inStr {
        out := out + [ch];
        if esc { esc := false; } else if ch == '\\' { esc := true; } else if ch == '"' { inStr := false; }
      } else if ch == '"' {
        out, inStr := out + [ch], true;
      } else {
        var drop := false;
        if ch == ',' {
          var j := FirstSolid(text, i + 1);
          drop := j < |text| && (text[j] == ']' || text[j] == '}');
        }
        if drop {
          changed := true;
        } else {
          out := out + [ch];
        }
      }
      i := i + 1;
    }
    PendingEnd(text, if inStr then Text(esc) else Code, out);
    assert text[..i] == text;
  }

  /* ---- what removal leaves alone ---- */

  // The string literals of a text, with `cur` the one being read.
  function Literals(m: Mode, cur: string, s: string): seq<string>
    decreases |s|
  {
    if s == "" then (if m == Code then [] else [cur])
    else
      var next := Next(m, s[0]);
      if m == Code then Literals(next, "", s[1..])
      else if next == Code then [cur] + Literals(Code, "", s[1..])
      else Literals(next, cur + [s[0]], s[1..])
  }

  lemma {:induction false} SameLiterals(m: Mode, cur: string, s: string)
    ensures Literals(m, cur, Trimmed(m, s)) == Literals(m, cur, s)
    decreases |s|
  {
    if s != "" {
      var next := Next(m, s[0]);
      var t := Trimmed(next, s[1..]);
      if Doomed(m, s) {
        assert Trimmed(m, s) == t;
        SameLiterals(m, "", s[1..]);
        SameLiteralsEmpty(cur, t, s[1..]);
      } else {
        assert Trimmed(m, s) == [s[0]] + t && ([s[0]] + t)[1..] == t;
        SameLiterals(next, if m == Code || next == Code then "" else cur + [s[0]], s[1..]);
      }
    }
  }

  // Outside strings the current literal does not matter.
  lemma SameLiteralsEmpty(cur: string, t: string, s: string)
    ensures Literals(Code, cur, t) == Literals(Code, "", t)
    ensures Literals(Code, cur, s) == Literals(Code, "", s)
  {}

  /* ---- repeating the pass ---- */

  // The first solid character of s is itself a doomed comma.
  predicate DoomedFirst(s: string) {
    s != "" && if Blank(s[0]) then DoomedFirst(s[1..]) else Doomed(Code, s)
  }

  lemma {:induction false} SolidAfter(s: string)
    ensures DoomedFirst(s) ==> Closes(Solid(Trimmed(Code, s)))
    ensures !DoomedFirst(s) ==> Solid(Trimmed(Code, s)) == Solid(s)
  {
    if s != "" {
      var t := Trimmed(Code, s[1..]);
      if Doomed(Code, s) {
        assert Trimmed(Code, s) == t;
        SolidAfterDoomed(s[1..]);
      } else if Blank(s[0]) {
        SolidAfter(s[1..]);
        assert Trimmed(Code, s) == [s[0]] + t && ([s[0]] + t)[1..] == t;
      } else {
        assert Trimmed(Code, s)[0] == s[0];
      }
    }
  }

  lemma {:induction false} SolidAfterDoomed(s: string)
    requires Closes(Solid(s))
    ensures Solid(Trimmed(Code, s)) == Solid(s)
  {
    var t := Trimmed(Code, s[1..]);
    assert Trimmed(Code, s) == [s[0]] + t && ([s[0]] + t)[1..] == t;
    if Blank(s[0]) {
      SolidAfterDoomed(s[1..]);
    }
  }

  // No comma that is kept stands right before a doomed one.
  predicate Settled(m: Mode, s: string)
    decreases |s|
  {
    s == "" ||
    (Settled(Next(m, s[0]), s[1..]) && (m == Code && s[0] == ',' && !Doomed(m, s) ==> !DoomedFirst(s[1..])))
  }

  /** A second pass changes nothing exactly when no kept comma outside strings is
      directly followed, but for blanks, by a removed one. */
  lemma {:induction false} IdempotentExactly(m: Mode, s: string)
    ensures Trimmed(m, Trimmed(m, s)) == Trimmed(m, s) <==> Settled(m, s)
    ensures |Trimmed(m, Trimmed(m, s))| <= |Trimmed(m, s)| <= |s|
    decreases |s|
  {
    if s != "" {
      var next := Next(m, s[0]);
      var t := Trimmed(next, s[1..]);
      IdempotentExactly(next, s[1..]);
      if Doomed(m, s) {
        assert Trimmed(m, s) == t;
      } else {
        var u := Trimmed(m, s);
        assert u == [s[0]] + t && u[1..] == t;
        SolidAfter(s[1..]);
        if Doomed(m, u) {
          assert Trimmed(m, u) == Trimmed(next, t);
        } else {
          assert Trimmed(m, u) == [s[0]] + Trimmed(next, t);
          assert Trimmed(m, u)[1..] == Trimmed(next, t);
        }
      }
    }
  }

  lemma SecondPassExample()
    ensures Trimmed(Code, ",,]") == ",]" && Trimmed(Code, ",]") == "]"
  {}

  lemma {:induction false} SolidExactly(s: string, j: nat)
    requires j < |s| && s[j] !in " \t\r\n" && forall k :: 0 <= k < j ==> s[k] in " \t\r\n"
    ensures Solid(s) == Some(s[j])
  {
    if j > 0 { SolidExactly(s[1..], j - 1); }
  }

  lemma {:induction false} SolidAt(s: string) returns (j: nat)
    requires Solid(s).Some?
    ensures j < |s| && Solid(s) == Some(s[j]) && s[j] !in " \t\r\n" && forall k :: 0 <= k < j ==> s[k] in " \t\r\n"
  {
    if Blank(s[0]) {
      var i := SolidAt(s[1..]);
      j := i + 1;
    } else {
      j := 0;
    }
  }

  // The comma at the front is followed, past white space, by a closing bracket or brace.
  ghost predicate Trailing(s: string) {
    s != "" && s[0] == ','
    && exists j :: 1 <= j < |s| && s[j] in "]}" && forall k :: 1 <= k < j ==> s[k] in " \t\r\n"
  }

  /** Which commas go, by their characters alone. */
  lemma DoomedExactly(m: Mode, s: string)
    ensures Doomed(m, s) <==> m == Code && Trailing(s)
  {
    if Doomed(m, s) {
      var j := SolidAt(s[1..]);
      assert s[j + 1] == s[1..][j] && forall k :: 1 <= k < j + 1 ==> s[k] == s[1..][k - 1];
    }
    if m == Code && Trailing(s) {
      var j :| 1 <= j < |s| && s[j] in "]}" && forall k :: 1 <= k < j ==> s[k] in " \t\r\n";
      SolidExactly(s[1..], j - 1);
    }
  }

  /** Inside a literal nothing goes until the character that ends it. */
  lemma {:induction false} LiteralKept(s: string, esc: bool)
    ensures var n := JsonComments.LiteralRest(s, esc);
      Trimmed(Text(esc), s) == s[..n] + Trimmed(Code, s[n..])
  {
    if s != "" {
      var n, t := JsonComments.LiteralRest(s, esc), s[1..];
      assert Trimmed(Text(esc), s) == [s[0]] + Trimmed(Next(Text(esc), s[0]), t);
      if !esc && s[0] == '"' {
        assert s[..1] == [s[0]];
      } else {
        LiteralKept(t, !esc && s[0] == '\\');
        assert s[..n] == [s[0]] + t[..n - 1] && s[n..] == t[n - 1..];
      }
    }
  }

  /** The pass by the text alone: a literal is copied to its end, as the comment pass
      reads it; outside literals a character goes exactly when it is a trailing comma. */
  lemma TrimmedExactly(s: string)
    requires s != ""
    ensures var n := 1 + JsonComments.LiteralRest(s[1..], false);
      Trimmed(Code, s) ==
        if s[0] == '"' then s[..n] + Trimmed(Code, s[n..])
        else (if Trailing(s) then "" else [s[0]]) + Trimmed(Code, s[1..])
  {
    hide Trimmed, Trailing, JsonComments.LiteralRest;
    StepExactly(s);
    if s[0] == '"' {
      LiteralKept(s[1..], false);
      var n := JsonComments.LiteralRest(s[1..], false);
      Glued(s, n, Trimmed(Code, s[1..][n..]));
    }
  }

  // One step outside literals.
  lemma StepExactly(s: string)
    requires s != ""
    ensures s[0] == '"' ==> Trimmed(Code, s) == [s[0]] + Trimmed(Text(false), s[1..])
    ensures s[0] != '"' ==> Trimmed(Code, s) == (if Trailing(s) then "" else [s[0]]) + Trimmed(Code, s[1..])
  {
    hide Solid;
    DoomedExactly(Code, s);
  }

  lemma Glued(s: string, n: nat, rest: string)
    requires s != "" && n < |s|
    ensures [s[0]] + (s[1..][..n] + rest) == s[..n + 1] + rest && s[1..][n..] == s[n + 1..]
  {}
}
