/** Comment removal against an independent tokenizer. */
module JsonComments {

  // A piece of the text: a double-quoted literal with its quotes (the last one
  // may be unterminated), a comment, or one other character.
  datatype Tok = Literal(s: string) | Comment(s: string) | Plain(c: char)

  function Spell(t: Tok): string {
    match t
    case Literal(s) => s
    case Comment(s) => s
    case Plain(c) => [c]
  }

  // Length of the rest of a literal, up to its closing quote or the end.
  function LiteralRest(s: string, esc: bool): (n: nat)
    ensures n <= |s|
  {
    if s == "" then 0
    else if !esc && s[0] == '"' then 1
    else 1 + LiteralRest(s[1..], !esc && s[0] == '\\')
  }

  function LineRest(s: string): (n: nat)
    ensures n <= |s|
  {
    if s == "" || s[0] == '\r' || s[0] == '\n' then 0 else 1 + LineRest(s[1..])
  }

  // Length of the rest of a block comment with its closer, or everything.
  function BlockRest(s: string): (n: nat)
    ensures n <= |s|
  {
    if |s| < 2 then |s| else if s[0] == '*' && s[1] == '/' then 2 else 1 + BlockRest(s[1..])
  }

  predicate LineOpens(s: string) { |s| >= 2 && s[0] == '/' && s[1] == '/' }

  predicate BlockOpens(s: string) { |s| >= 2 && s[0] == '/' && s[1] == '*' }

  function First(s: string): (t: Tok)
    requires s != ""
    ensures Spell(t) != "" && Spell(t) <= s
  {
    if s[0] == '"' then
      var n := 1 + LiteralRest(s[1..], false);
      assert s[..n] != "";
      Literal(s[..n])
    else if LineOpens(s) then
      var n := 2 + LineRest(s[2..]);
      assert s[..n] != "";
      Comment(s[..n])
    else if BlockOpens(s) then
      var n := 2 + BlockRest(s[2..]);
      assert s[..n] != "";
      Comment(s[..n])
    else Plain(s[0])
  }

  function Tokens(s: string): seq<Tok>
    decreases |s|
  {
    if s == "" then [] else [First(s)] + Tokens(s[|Spell(First(s))|..])
  }

  function Flat(ts: seq<Tok>): string {
    if ts == [] then "" else Spell(ts[0]) + Flat(ts[1..])
  }

  function NoComments(ts: seq<Tok>): seq<Tok> {
    if ts == [] then [] else (if ts[0].Comment? then [] else [ts[0]]) + NoComments(ts[1..])
  }

  function Literals(ts: seq<Tok>): seq<string> {
    if ts == [] then [] else (if ts[0].Literal? then [ts[0].s] else []) + Literals(ts[1..])
  }

  function Stripped(s: string): string { Flat(NoComments(Tokens(s))) }

  // What the loop still has to emit from inside or outside a literal.
  function Rest(s: string, inStr: bool, esc: bool): string {
    if inStr then s[..LiteralRest(s, esc)] + Stripped(s[LiteralRest(s, esc)..]) else Stripped(s)
  }

  // One character into a literal.
  lemma LiteralStep(s: string, esc: bool)
    requires s != "" && (esc || s[0] != '"')
    ensures var n, m := LiteralRest(s, esc), LiteralRest(s[1..], !esc && s[0] == '\\');
      n == 1 + m && s[..n] == [s[0]] + s[1..][..m] && s[n..] == s[1..][m..]
  {}

  lemma RestLiteral(s: string, esc: bool)
    requires s != ""
    ensures Rest(s, true, esc) ==
      [s[0]] + Rest(s[1..], esc || s[0] != '"', !esc && s[0] == '\\')
  {
    if !esc && s[0] == '"' {
      assert s[..1] == [s[0]];
    } else {
      LiteralStep(s, esc);
      var n, m := LiteralRest(s, esc), LiteralRest(s[1..], !esc && s[0] == '\\');
      Concat(s[0], s[1..][..m], Stripped(s[n..]));
    }
  }

  lemma Concat(c: char, a: string, b: string)
    ensures [c] + a + b == [c] + (a + b)
  {}

  lemma StrippedStep(s: string)
    requires s != ""
    ensures var t := First(s);
      Stripped(s) == (if t.Comment? then "" else Spell(t)) + Stripped(s[|Spell(t)|..])
  {
    var t := First(s);
    var tail := Tokens(s[|Spell(t)|..]);
    assert Tokens(s) == [t] + tail && ([t] + tail)[1..] == tail;
    if t.Comment? {
      assert NoComments(Tokens(s)) == NoComments(tail);
    } else {
      assert NoComments(Tokens(s)) == [t] + NoComments(tail);
      assert ([t] + NoComments(tail))[1..] == NoComments(tail);
    }
  }

  lemma RestQuote(s: string)
    requires s != "" && s[0] == '"'
    ensures Rest(s, false, false) == [s[0]] + Rest(s[1..], true, false)
  {
    StrippedStep(s);
    var m := LiteralRest(s[1..], false);
    assert s[..1 + m] == [s[0]] + s[1..][..m] && s[1 + m..] == s[1..][m..];
    Concat(s[0], s[1..][..m], Stripped(s[1 + m..]));
  }

  lemma RestComment(s: string, n: nat)
    requires (LineOpens(s) && n == 2 + LineRest(s[2..])) || (BlockOpens(s) && n == 2 + BlockRest(s[2..]))
    ensures Rest(s, false, false) == Rest(s[n..], false, false)
  {
    assert First(s) == Comment(s[..n]) && |s[..n]| == n;
    hide First, Stripped, LineRest, BlockRest, LiteralRest;
    StrippedStep(s);
  }

  lemma RestPlain(s: string)
    requires s != "" && s[0] != '"' && !LineOpens(s) && !BlockOpens(s)
    ensures Rest(s, false, false) == [s[0]] + Rest(s[1..], false, false)
  {}

  // The text is stripped up to i; the rest is still to come.
  ghost predicate Pending(text: string, i: nat, inStr: bool, esc: bool, out: string) {
    i <= |text| && Stripped(text) == out + Rest(text[i..], inStr, esc)
  }

  lemma PendingStart(text: string)
    ensures Pending(text, 0, false, false, "")
  {}

  lemma PendingEnd(text: string, inStr: bool, esc: bool, out: string)
    requires Pending(text, |text|, inStr, esc, out)
    ensures out == Stripped(text)
  {}

  // The next character is copied.
  lemma Copies(text: string, i: nat, inStr: bool, esc: bool, out: string)
    requires i < |text| && Pending(text, i, inStr, esc, out) && (esc ==> inStr)
    requires inStr || text[i] == '"' || (!LineOpens(text[i..]) && !BlockOpens(text[i..]))
    ensures if inStr then Pending(text, i + 1, esc || text[i] != '"', !esc && text[i] == '\\', out + [text[i]])
      else Pending(text, i + 1, text[i] == '"', false, out + [text[i]])
  {
    hide Rest, Stripped, Tokens, Flat, NoComments, LiteralRest;
    var s := text[i..];
    assert s[1..] == text[i + 1..];
    if inStr { RestLiteral(s, esc); } else if text[i] == '"' { RestQuote(s); } else { RestPlain(s); }
  }

  // A comment is skipped.
  lemma Skips(text: string, i: nat, n: nat, out: string)
    requires i + 2 <= n <= |text| && Pending(text, i, false, false, out)
    requires (LineOpens(text[i..]) && n == i + 2 + LineRest(text[i + 2..]))
      || (BlockOpens(text[i..]) && n == i + 2 + BlockRest(text[i + 2..]))
    ensures Pending(text, n, false, false, out)
  {
    hide Rest, Stripped, LineRest, BlockRest;
    assert text[i..][2..] == text[i + 2..];
    RestComment(text[i..], n - i);
    assert text[i..][n - i..] == text[n..];
  }

  method RemoveComments(text: string) returns (out: string, changed: bool)
    ensures out == Stripped(text)
    ensures changed <==> out != text
  {
    hide Pending;
    var inStr, esc := false, false;
    out, changed := "", false;
    var i := 0;
    PendingStart(text);
    while i < |text|
      invariant i <= |text| && (esc ==> inStr)
      invariant Pending(text, i, inStr, esc, out)
      invariant if changed then |out| < i else out == text[..i]
    {
      var ch := text[i];
      if inStr {
        Copies(text, i, inStr, esc, out);
        out := out + [ch];
        if esc { esc := false; } else if ch == '\\' { esc := true; } else if ch == '"' { inStr := false; }
        i := i + 1;
      } else if ch == '"' {
        Copies(text, i, inStr, esc, out);
        out, inStr, i := out + [ch], true, i + 1;
      } else if ch == '/' && i + 1 < |text| && text[i + 1] == '/' {
        var n := LineEnd(text, i + 2);
        Skips(text, i, n, out);
        changed, i := true, n;
      } else if ch == '/' && i + 1 < |text| && text[i + 1] == '*' {
        var n := BlockEnd(text, i + 2);
        Skips(text, i, n, out);
        changed, i := true, n;
      } else {
        Copies(text, i, inStr, esc, out);
        out, i := out + [ch], i + 1;
      }
    }
    PendingEnd(text, inStr, esc, out);
    assert text[..i] == text;
  }

  method LineEnd(text: string, start: nat) returns (i: nat)
    requires start <= |text|
    ensures i == start + LineRest(text[start..]) <= |text|
  {
    i := start;
    while i < |text| && text[i] != '\r' && text[i] != '\n'
      invariant start <= i <= |text|
      invariant start + LineRest(text[start..]) == i + LineRest(text[i..])
    {
      assert text[i..][1..] == text[i + 1..];
      i := i + 1;
    }
  }

  // The source leaves the index past the end when the comment is unterminated.
  method BlockEnd(text: string, start: nat) returns (i: nat)
    requires start <= |text|
    ensures i == start + BlockRest(text[start..]) <= |text|
  {
    i := start;
    while i + 1 < |text| && !(text[i] == '*' && text[i + 1] == '/')
      invariant start <= i <= |text|
      invariant start + BlockRest(text[start..]) == i + BlockRest(text[i..])
    {
      assert text[i..][1..] == text[i + 1..];
      i := i + 1;
    }
    i := if i + 2 <= |text| then i + 2 else |text|;
  }

  /* ---- tokenizing the output ---- */

  // A complete literal body: its closing quote is its last character.
  predicate Closed(s: string, esc: bool) {
    s != "" && if !esc && s[0] == '"' then |s| == 1 else Closed(s[1..], !esc && s[0] == '\\')
  }

  // A literal body that runs to the end of the text.
  predicate Open(s: string, esc: bool) {
    s == "" || ((esc || s[0] != '"') && Open(s[1..], !esc && s[0] == '\\'))
  }

  // What a comment-free token list looks like: a slash is not followed by a
  // slash or a star, and only the last literal may lack its closing quote.
  predicate Clean(ts: seq<Tok>) {
    ts == [] || (Clean(ts[1..]) && CleanHead(ts[0], ts[1..]))
  }

  predicate CleanHead(t: Tok, tail: seq<Tok>) {
    match t
    case Comment(_) => false
    case Literal(s) => s != "" && s[0] == '"' && (Closed(s[1..], false) || (Open(s[1..], false) && tail == []))
    case Plain(c) => c != '"' && (c == '/' ==> !Follows(Flat(tail)))
  }

  predicate Follows(s: string) { s != "" && (s[0] == '/' || s[0] == '*') }

  lemma {:induction false} LiteralShape(s: string, esc: bool)
    ensures var n := LiteralRest(s, esc); Closed(s[..n], esc) || (n == |s| && Open(s, esc))
  {
    if s != "" {
      var n := LiteralRest(s, esc);
      if !esc && s[0] == '"' {
        assert s[..1][0] == '"';
      } else {
        LiteralShape(s[1..], !esc && s[0] == '\\');
        LiteralStep(s, esc);
        assert s[..n][1..] == s[1..][..n - 1];
      }
    }
  }

  lemma {:induction false} ClosedRest(s: string, esc: bool, t: string)
    requires Closed(s, esc)
    ensures LiteralRest(s + t, esc) == |s|
  {
    if esc || s[0] != '"' {
      assert (s + t)[1..] == s[1..] + t;
      ClosedRest(s[1..], !esc && s[0] == '\\', t);
    }
  }

  lemma {:induction false} OpenRest(s: string, esc: bool)
    requires Open(s, esc)
    ensures LiteralRest(s, esc) == |s|
  {
    if s != "" {
      OpenRest(s[1..], !esc && s[0] == '\\');
    }
  }

  // The first character of the stripped text, when the text starts with no comment.
  lemma StrippedHead(s: string)
    requires s == "" || (!LineOpens(s) && !BlockOpens(s))
    ensures s == "" ==> Stripped(s) == ""
    ensures s != "" ==> Stripped(s) != "" && Stripped(s)[0] == s[0]
  {}

  lemma HeadClean(s: string)
    requires s != "" && !First(s).Comment?
    ensures CleanHead(First(s), NoComments(Tokens(s[|Spell(First(s))|..])))
  {
    if s[0] == '"' {
      LiteralShape(s[1..], false);
      var n := LiteralRest(s[1..], false);
      assert s[..1 + n][1..] == s[1..][..n];
      if n == |s| - 1 {
        assert s[..1 + n][1..] == s[1..] && s[1 + n..] == "";
      }
    } else if s[0] == '/' {
      StrippedHead(s[1..]);
    }
  }

  lemma {:induction false} TokensClean(s: string)
    ensures Clean(NoComments(Tokens(s)))
    decreases |s|
  {
    if s != "" {
      var t := First(s);
      var rest := s[|Spell(t)|..];
      TokensClean(rest);
      var tail := NoComments(Tokens(rest));
      assert Tokens(s)[1..] == Tokens(rest);
      if t.Comment? {
        assert NoComments(Tokens(s)) == tail;
      } else {
        HeadClean(s);
        assert NoComments(Tokens(s)) == [t] + tail && ([t] + tail)[1..] == tail;
      }
    }
  }

  // A clean head is what the tokenizer reads first.
  lemma FirstOfClean(t: Tok, tail: seq<Tok>)
    requires CleanHead(t, tail)
    ensures First(Spell(t) + Flat(tail)) == t
  {
    var s := Spell(t) + Flat(tail);
    match t
    case Literal(x) =>
      assert s[1..] == x[1..] + Flat(tail);
      if Closed(x[1..], false) {
        ClosedRest(x[1..], false, Flat(tail));
      } else {
        OpenRest(x[1..], false);
        assert x[1..] + "" == x[1..];
      }
      assert s[..|x|] == x;
    case Plain(c) =>
      assert s[1..] == Flat(tail);
      assert |s| >= 2 ==> s[1] == Flat(tail)[0];
  }

  lemma {:induction false} CleanRoundTrip(ts: seq<Tok>)
    requires Clean(ts)
    ensures Tokens(Flat(ts)) == ts
  {
    hide First, Spell, CleanHead;
    if ts != [] {
      var a, b := Spell(ts[0]), Flat(ts[1..]);
      FirstOfClean(ts[0], ts[1..]);
      CleanRoundTrip(ts[1..]);
      assert (a + b)[|a|..] == b;
      assert ts == [ts[0]] + ts[1..];
    }
  }

  /** Tokenizing the output gives exactly the input's tokens without its
      comments: no comment opener outside literals is left or created, and every
      literal survives, in order. */
  lemma OutputTokens(text: string)
    ensures Tokens(Stripped(text)) == NoComments(Tokens(text))
  {
    TokensClean(text);
    CleanRoundTrip(NoComments(Tokens(text)));
  }

  lemma {:induction false} Reads(s: string)
    ensures Flat(Tokens(s)) == s
    decreases |s|
  {
    if s != "" {
      var t := First(s);
      var rest := s[|Spell(t)|..];
      Reads(rest);
      assert Tokens(s)[1..] == Tokens(rest);
      assert s == Spell(t) + rest;
    }
  }

  lemma {:induction false} LiteralsKept(ts: seq<Tok>)
    ensures Literals(NoComments(ts)) == Literals(ts)
    ensures NoComments(NoComments(ts)) == NoComments(ts)
    ensures (forall t :: t in ts ==> !t.Comment?) <==> NoComments(ts) == ts
    ensures |NoComments(ts)| <= |ts|
  {
    if ts != [] {
      LiteralsKept(ts[1..]);
      var tail := NoComments(ts[1..]);
      if ts[0].Comment? {
        assert NoComments(ts) == tail && Literals(ts) == Literals(ts[1..]);
      } else {
        assert NoComments(ts) == [ts[0]] + tail && ([ts[0]] + tail)[1..] == tail;
        assert ts == [ts[0]] + ts[1..];
      }
    }
  }

  lemma SameLiterals(text: string)
    ensures Literals(Tokens(Stripped(text))) == Literals(Tokens(text))
  {
    OutputTokens(text);
    LiteralsKept(Tokens(text));
  }

  lemma Idempotent(text: string)
    ensures Stripped(Stripped(text)) == Stripped(text)
  {
    OutputTokens(text);
    LiteralsKept(Tokens(text));
  }

  /** Text is returned unchanged exactly when no comment opens outside a literal. */
  lemma UnchangedExactly(text: string)
    ensures Stripped(text) == text <==> forall t :: t in Tokens(text) ==> !t.Comment?
  {
    OutputTokens(text);
    Reads(text);
    LiteralsKept(Tokens(text));
  }

  /** What opens a token, by its characters: a double quote a literal, a slash with
      another or with a star a comment; how far each reaches is said below. */
  lemma FirstExactly(s: string)
    requires s != ""
    ensures var t := First(s);
      && (t.Literal? <==> s[0] == '"') && (t.Comment? <==> "//" <= s || "/*" <= s)
      && (t.Literal? ==> |Spell(t)| == 1 + LiteralRest(s[1..], false))
      && ("//" <= s ==> |Spell(t)| == 2 + LineRest(s[2..]))
      && ("/*" <= s ==> |Spell(t)| == 2 + BlockRest(s[2..]))
  {}

  /** A line comment ends before the first carriage return or newline, or with the text. */
  lemma {:induction false} LineRestExactly(s: string)
    ensures var n := LineRest(s);
      && (forall i :: 0 <= i < n ==> s[i] != '\r' && s[i] != '\n')
      && (n < |s| ==> s[n] == '\r' || s[n] == '\n')
  {
    if s != "" && s[0] != '\r' && s[0] != '\n' { LineRestExactly(s[1..]); }
  }

  // A block comment closes at position i.
  predicate ClosesAt(s: string, i: int) { 0 <= i < |s| - 1 && s[i] == '*' && s[i + 1] == '/' }

  /** A block comment ends with its first closer, or with the text when it has none. */
  lemma {:induction false} BlockRestExactly(s: string)
    ensures var n := BlockRest(s);
      if exists i :: ClosesAt(s, i) then ClosesAt(s, n - 2) && forall i :: 0 <= i < n - 2 ==> !ClosesAt(s, i)
      else n == |s|
  {
    if |s| >= 2 && !ClosesAt(s, 0) {
      BlockRestExactly(s[1..]);
      forall i | i >= 1 ensures ClosesAt(s, i) <==> ClosesAt(s[1..], i - 1) {}
      if i :| ClosesAt(s, i) { assert ClosesAt(s[1..], i - 1); }
      if exists i :: ClosesAt(s[1..], i) {
        var i :| ClosesAt(s[1..], i);
        assert ClosesAt(s, i + 1);
      }
    }
  }

  // Position i is escaped: a backslash stands before it that is not escaped itself.
  function EscapedAt(s: string, esc: bool, i: nat): bool
    requires i <= |s|
  {
    if i == 0 then esc else s[i - 1] == '\\' && !EscapedAt(s, esc, i - 1)
  }

  predicate EndsAt(s: string, esc: bool, i: int) { 0 <= i < |s| && s[i] == '"' && !EscapedAt(s, esc, i) }

  lemma {:induction false} EscapedTail(s: string, esc: bool, i: nat)
    requires s != "" && 1 <= i <= |s|
    ensures EscapedAt(s, esc, i) == EscapedAt(s[1..], !esc && s[0] == '\\', i - 1)
  {
    if i > 1 { EscapedTail(s, esc, i - 1); }
  }

  /** A literal ends with its first double quote that is not escaped, or with the text. */
  lemma {:induction false} LiteralRestExactly(s: string, esc: bool)
    ensures var n := LiteralRest(s, esc);
      if exists i :: EndsAt(s, esc, i) then EndsAt(s, esc, n - 1) && forall i :: 0 <= i < n - 1 ==> !EndsAt(s, esc, i)
      else n == |s|
  {
    if s != "" && !EndsAt(s, esc, 0) {
      var next := !esc && s[0] == '\\';
      LiteralRestExactly(s[1..], next);
      forall i | i >= 1 ensures EndsAt(s, esc, i) <==> EndsAt(s[1..], next, i - 1) {
        if i < |s| { EscapedTail(s, esc, i); }
      }
      if i :| EndsAt(s, esc, i) { assert EndsAt(s[1..], next, i - 1); }
      if i :| EndsAt(s[1..], next, i) { assert EndsAt(s, esc, i + 1); }
    }
  }
}
