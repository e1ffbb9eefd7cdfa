/** The single-quoted-string rewriter, and its simulation by a plain
    double-quote lexer. */
module JsonQuotes {
  import opened Wrappers

  // The rewriter's flags in_double, in_single and esc.
  datatype Mode = Outside | InDouble(esc: bool) | InSingle(esc: bool)

  // A lexer that knows double quotes and backslash escapes only.
  datatype LexMode = Code | Text(esc: bool)

  function Lex(m: LexMode, ch: char): LexMode {
    match m
    case Code => if ch == '"' then Text(false) else Code
    case Text(esc) => if esc then Text(false) else if ch == '\\' then Text(true) else if ch == '"' then Code else m
  }

  function LexAll(m: LexMode, s: string): LexMode {
    if s == "" then m else Lex(LexAll(m, s[..|s| - 1]), s[|s| - 1])
  }

  // Characters after which a single quote opens a string; None is the start.
  predicate Opens(prev: Option<char>) {
    prev == None || prev.value in {'{', '[', ':', ',', '\n', '\r', '\t', ' '}
  }

  function Prev(text: string, i: nat): Option<char>
    requires i <= |text|
  {
    if i == 0 then None else Some(text[i - 1])
  }

  function NextMode(m: Mode, prev: Option<char>, ch: char): Mode {
    match m
    case InDouble(esc) =>
      if esc then InDouble(false) else if ch == '\\' then InDouble(true) else if ch == '"' then Outside else m
    case InSingle(esc) =>
      if esc then InSingle(false) else if ch == '\\' then InSingle(true) else if ch == '\'' then Outside else m
    case Outside =>
      if ch == '"' then InDouble(false) else if ch == '\'' && Opens(prev) then InSingle(false) else Outside
  }

  function Emitted(m: Mode, prev: Option<char>, ch: char): string {
    match m
    case InDouble(_) => [ch]
    case InSingle(esc) => if esc then [ch] else if ch == '\'' then "\"" else if ch == '"' then "\\\"" else [ch]
    case Outside => if ch == '\'' && Opens(prev) then "\"" else [ch]
  }

  function ModeAt(text: string, i: nat): Mode
    requires i <= |text|
  {
    if i == 0 then Outside else NextMode(ModeAt(text, i - 1), Prev(text, i - 1), text[i - 1])
  }

  function Rewritten(text: string, i: nat): string
    requires i <= |text|
  {
    if i == 0 then ""
    else Rewritten(text, i - 1) + Emitted(ModeAt(text, i - 1), Prev(text, i - 1), text[i - 1])
  }

  method ReplaceSingleQuotedStrings(text: string) returns (out: string, changed: bool)
    ensures out == Rewritten(text, |text|)
    ensures changed <==> out != text
  {
    hide ModeAt, Rewritten, Opens;
    RewriteNone(text);
    var inDouble, inSingle, esc := false, false, false;
    out, changed := "", false;
    var i := 0;
    while i < |text|
      invariant i <= |text| && !(inDouble && inSingle) && (esc ==> inDouble || inSingle)
      invariant ModeAt(text, i) == if inDouble then InDouble(esc) else if inSingle then InSingle(esc) else Outside
      invariant out == Rewritten(text, i)
      invariant !changed ==> out == text[..i] && !inSingle
      invariant changed ==> exists k :: 0 <= k < i && k < |out| && out[k] != text[k]
    {
      var ch := text[i];
      RewriteNext(text, i);
      if inDouble {
        out := out + [ch];
        if esc { esc := false; } else if ch == '\\' { esc := true; } else if ch == '"' { inDouble := false; }
      } else if inSingle {
        if esc {
          out, esc := out + [ch], false;
        } else if ch == '\\' {
          out, esc := out + [ch], true;
        } else if ch == '\'' {
          out, inSingle, changed := out + ['"'], false, true;
        } else if ch == '"' {
          out, changed := out + "\\\"", true;
        } else {
          out := out + [ch];
        }
      } else if ch == '"' {
        out, inDouble := out + [ch], true;
      } else if ch == '\'' && Opens(Prev(text, i)) {
        ghost var before := out;
        out, inSingle := out + ['"'], true;
        if !changed { assert out[i] != text[i]; }
        changed := true;
      } else {
        out := out + [ch];
      }
      i := i + 1;
      assert text[..i] == text[..i - 1] + [ch];
    }
    assert text[..i] == text;
  }

  lemma RewriteNone(text: string)
    ensures ModeAt(text, 0) == Outside && Rewritten(text, 0) == ""
  {}

  lemma RewriteNext(text: string, i: nat)
    requires i < |text|
    ensures ModeAt(text, i + 1) == NextMode(ModeAt(text, i), Prev(text, i), text[i])
    ensures Rewritten(text, i + 1) == Rewritten(text, i) + Emitted(ModeAt(text, i), Prev(text, i), text[i])
  {}

  /* ---- the simulation ---- */

  function Abs(m: Mode): LexMode {
    match m
    case Outside => Code
    case InDouble(esc) => Text(esc)
    case InSingle(esc) => Text(esc)
  }

  lemma {:induction false} LexAppend(m: LexMode, s: string, t: string)
    ensures LexAll(m, s + t) == LexAll(LexAll(m, s), t)
  {
    if t == "" {
      assert s + t == s;
    } else {
      var n := |t| - 1;
      assert (s + t)[..|s + t| - 1] == s + t[..n];
      LexAppend(m, s, t[..n]);
    }
  }

  lemma LexOne(m: LexMode, ch: char)
    ensures LexAll(m, [ch]) == Lex(m, ch)
  {}

  lemma LexTwo(m: LexMode, a: char, b: char)
    ensures LexAll(m, [a, b]) == Lex(Lex(m, a), b)
  {
    assert [a, b][..1] == [a];
    LexOne(m, a);
  }

  // The plain lexer over what one step emits goes where the rewriter goes.
  lemma EmittedSimulates(m: Mode, prev: Option<char>, ch: char)
    ensures LexAll(Abs(m), Emitted(m, prev, ch)) == Abs(NextMode(m, prev, ch))
  {
    LexOne(Abs(m), ch);
    LexOne(Abs(m), '"');
    LexTwo(Abs(m), '\\', '"');
  }

  lemma SimulationStep(o: string, m: Mode, prev: Option<char>, ch: char)
    requires LexAll(Code, o) == Abs(m)
    ensures LexAll(Code, o + Emitted(m, prev, ch)) == Abs(NextMode(m, prev, ch))
  {
    LexAppend(Code, o, Emitted(m, prev, ch));
    EmittedSimulates(m, prev, ch);
  }

  lemma {:induction false} Simulation(text: string, i: nat)
    requires i <= |text|
    ensures LexAll(Code, Rewritten(text, i)) == Abs(ModeAt(text, i))
  {
    if i > 0 {
      Simulation(text, i - 1);
      SimulationStep(Rewritten(text, i - 1), ModeAt(text, i - 1), Prev(text, i - 1), text[i - 1]);
    }
  }

  // Within what one step emits the lexer does not leave or enter a string
  // before the last character.
  lemma InsideChunk(m: Mode, prev: Option<char>, ch: char, j: nat)
    requires j < |Emitted(m, prev, ch)|
    ensures LexAll(Abs(m), Emitted(m, prev, ch)[..j]).Text? <==> m != Outside
  {}

  /** At every emitted character the plain lexer is inside a string exactly when
      the rewriter was in its double- or single-quote state. */
  lemma EveryCharacter(text: string, i: nat, e: string, j: nat)
    requires i < |text| && e == Emitted(ModeAt(text, i), Prev(text, i), text[i]) && j < |e|
    ensures LexAll(Code, Rewritten(text, i) + e[..j]).Text? <==> ModeAt(text, i) != Outside
  {
    Simulation(text, i);
    LexAppend(Code, Rewritten(text, i), e[..j]);
    InsideChunk(ModeAt(text, i), Prev(text, i), text[i], j);
  }

  /* ---- a second pass changes nothing ---- */

  lemma {:induction false} PrefixOnly(s: string, t: string, i: nat)
    requires i <= |s|
    ensures ModeAt(s + t, i) == ModeAt(s, i) && Rewritten(s + t, i) == Rewritten(s, i)
  {
    if i > 0 {
      PrefixOnly(s, t, i - 1);
      assert (s + t)[i - 1] == s[i - 1];
      assert Prev(s + t, i - 1) == Prev(s, i - 1);
    }
  }

  // The mode of a second pass where the first was in m.
  function Second(m: Mode): Mode {
    match m
    case Outside => Outside
    case InDouble(esc) => InDouble(esc)
    case InSingle(esc) => InDouble(esc)
  }

  lemma AppendOne(o: string, c: char)
    ensures ModeAt(o + [c], |o| + 1) == NextMode(ModeAt(o, |o|), Prev(o, |o|), c)
    ensures Rewritten(o + [c], |o| + 1) == Rewritten(o, |o|) + Emitted(ModeAt(o, |o|), Prev(o, |o|), c)
  {
    PrefixOnly(o, [c], |o|);
    assert (o + [c])[|o|] == c && Prev(o + [c], |o|) == Prev(o, |o|);
  }

  // A second pass over o has returned o and mirrors mode m; outside strings
  // the last emitted character opens no more strings than the last one read.
  ghost predicate Mirrors(o: string, m: Mode, prev: Option<char>) {
    && ModeAt(o, |o|) == Second(m) && Rewritten(o, |o|) == o
    && (m == Outside ==> Prev(o, |o|) == prev || (prev == Some('\'') && Prev(o, |o|) == Some('"')))
  }

  lemma MirrorOne(o: string, m: Mode, prev: Option<char>, ch: char)
    requires Mirrors(o, m, prev) && |Emitted(m, prev, ch)| == 1
    ensures Mirrors(o + Emitted(m, prev, ch), NextMode(m, prev, ch), Some(ch))
  {
    hide ModeAt, Rewritten;
    var c := Emitted(m, prev, ch)[0];
    AppendOne(o, c);
    assert o + Emitted(m, prev, ch) == o + [c];
    assert Prev(o + [c], |o| + 1) == Some(c);
  }

  // An emitted escape pair inside a string is copied and leaves the mode alone.
  lemma EscapePair(o: string, p: string, q: string)
    requires ModeAt(o, |o|) == InDouble(false) && Rewritten(o, |o|) == o
    requires p == o + ['\\'] && q == p + ['"']
    ensures ModeAt(q, |q|) == InDouble(false) && Rewritten(q, |q|) == q
  {
    AppendOne(o, '\\');
    assert ModeAt(p, |p|) == InDouble(true) && Rewritten(p, |p|) == p;
    AppendOne(p, '"');
  }

  lemma MirrorTwo(o: string, prev: Option<char>)
    requires Mirrors(o, InSingle(false), prev)
    ensures Mirrors(o + Emitted(InSingle(false), prev, '"'), InSingle(false), Some('"'))
  {
    var p := o + ['\\'];
    var q := p + ['"'];
    EscapePair(o, p, q);
    assert q == o + Emitted(InSingle(false), prev, '"');
  }

  lemma MirrorStep(o: string, m: Mode, prev: Option<char>, ch: char)
    requires Mirrors(o, m, prev)
    ensures Mirrors(o + Emitted(m, prev, ch), NextMode(m, prev, ch), Some(ch))
  {
    if m == InSingle(false) && ch == '"' {
      MirrorTwo(o, prev);
    } else {
      MirrorOne(o, m, prev, ch);
    }
  }

  lemma {:induction false} SecondPass(text: string, i: nat)
    requires i <= |text|
    ensures Mirrors(Rewritten(text, i), ModeAt(text, i), Prev(text, i))
  {
    if i > 0 {
      SecondPass(text, i - 1);
      MirrorStep(Rewritten(text, i - 1), ModeAt(text, i - 1), Prev(text, i - 1), text[i - 1]);
    }
  }

  /** The rewriter is idempotent: a second pass returns its input, unchanged. */
  lemma Idempotent(text: string)
    ensures var o := Rewritten(text, |text|); Rewritten(o, |o|) == o
  {
    SecondPass(text, |text|);
  }

  /* ---- what the text means, to a reader of its own ---- */

  // A character of a string, escaped or not; an escaped double quote is a double quote.
  datatype Unit = Char(c: char) | Escape(c: char)

  datatype Token = Symbol(c: char) | String(units: seq<Unit>)

  // Between strings, or inside one that closes with `quote`.
  datatype Reader =
    | Between(done: seq<Token>)
    | Inside(done: seq<Token>, quote: char, units: seq<Unit>, esc: bool)

  function UnitOf(c: char): Unit { if c == '"' then Char('"') else Escape(c) }

  // `opens`: the character opens a string when it stands between strings.
  function Take(r: Reader, ch: char, opens: bool): Reader {
    match r
    case Between(done) => if opens then Inside(done, ch, [], false) else Between(done + [Symbol(ch)])
    case Inside(done, quote, units, esc) =>
      if esc then Inside(done, quote, units + [UnitOf(ch)], false)
      else if ch == '\\' then Inside(done, quote, units, true)
      else if ch == quote then Between(done + [String(units)])
      else Inside(done, quote, units + [Char(ch)], false)
  }

  // A single quote opens a string at the start and after one of these.
  predicate Introduces(prev: Option<char>) { prev == None || prev.value in "{[:,\n\r\t " }

  // A reader of both kinds of quotes, and one of double quotes only.
  function ReadBoth(text: string, i: nat): Reader
    requires i <= |text|
  {
    if i == 0 then Between([])
    else
      var ch := text[i - 1];
      Take(ReadBoth(text, i - 1), ch, ch == '"' || (ch == '\'' && Introduces(Prev(text, i - 1))))
  }

  function ReadDouble(text: string): Reader {
    if text == "" then Between([])
    else var ch := text[|text| - 1]; Take(ReadDouble(text[..|text| - 1]), ch, ch == '"')
  }

  // The same reading, whichever quote the open string closes with.
  predicate Alike(r: Reader, s: Reader) {
    match r
    case Between(done) => s == Between(done)
    case Inside(done, _, units, esc) => s == Inside(done, '"', units, esc)
  }

  // The reader's place and the rewriter's flags.
  predicate Agrees(r: Reader, m: Mode) {
    match m
    case Outside => r.Between?
    case InDouble(esc) => r.Inside? && r.quote == '"' && r.esc == esc
    case InSingle(esc) => r.Inside? && r.quote == '\'' && r.esc == esc
  }

  lemma OpensExactly(prev: Option<char>)
    ensures Opens(prev) <==> Introduces(prev)
  {}

  lemma {:induction false} ReadsModes(text: string, i: nat)
    requires i <= |text|
    ensures Agrees(ReadBoth(text, i), ModeAt(text, i))
  {
    hide Opens, Introduces;
    if i > 0 {
      ReadsModes(text, i - 1);
      OpensExactly(Prev(text, i - 1));
    }
  }

  lemma DoubleSnoc(s: string, ch: char)
    ensures ReadDouble(s + [ch]) == Take(ReadDouble(s), ch, ch == '"')
  {
    assert (s + [ch])[..|s|] == s;
  }

  lemma MeaningStep(o: string, r: Reader, m: Mode, prev: Option<char>, ch: char)
    requires Agrees(r, m) && Alike(r, ReadDouble(o))
    ensures Alike(Take(r, ch, ch == '"' || (ch == '\'' && Introduces(prev))), ReadDouble(o + Emitted(m, prev, ch)))
  {
    hide ReadDouble, Opens, Introduces;
    OpensExactly(prev);
    var e := Emitted(m, prev, ch);
    if |e| == 1 {
      assert o + e == o + [e[0]];
      DoubleSnoc(o, e[0]);
    } else {
      assert o + e == (o + ['\\']) + ['"'];
      DoubleSnoc(o, '\\');
      DoubleSnoc(o + ['\\'], '"');
    }
  }

  /** The rewriting keeps the meaning: a reader that knows double quotes only reads from
      the output the same symbols and strings, in order, with the same characters, as a
      reader of both kinds of quotes reads from the input. */
  lemma {:induction false} MeaningKept(text: string, i: nat)
    requires i <= |text|
    ensures Alike(ReadBoth(text, i), ReadDouble(Rewritten(text, i)))
  {
    if i > 0 {
      MeaningKept(text, i - 1);
      ReadsModes(text, i - 1);
      MeaningStep(Rewritten(text, i - 1), ReadBoth(text, i - 1), ModeAt(text, i - 1), Prev(text, i - 1), text[i - 1]);
    }
  }

  // Position i is a double quote, not escaped, inside a single-quoted string.
  predicate Doubled(text: string, i: nat)
    requires i < |text|
  {
    var r := ReadBoth(text, i);
    text[i] == '"' && r.Inside? && r.quote == '\'' && !r.esc
  }

  // Position i is a single quote that opens or closes a single-quoted string.
  predicate Delimits(text: string, i: nat)
    requires i < |text|
  {
    var r := ReadBoth(text, i);
    text[i] == '\'' && if r.Between? then Introduces(Prev(text, i)) else r.quote == '\'' && !r.esc
  }

  // Where the output of position k begins, when `at` gives the places of the characters.
  function From(at: seq<nat>, k: nat): nat
    requires k <= |at|
  {
    if k == 0 then 0 else at[k - 1] + 1
  }

  // What the output holds for position k.
  ghost predicate Here(text: string, k: nat, out: string, at: seq<nat>) {
    && k < |text| && k < |at| && at[k] < |out|
    && at[k] == From(at, k) + (if Doubled(text, k) then 1 else 0)
    && (Doubled(text, k) ==> out[From(at, k)] == '\\')
    && out[at[k]] == if Delimits(text, k) then '"' else text[k]
  }

  // `at` gives the place of every input character in the output.
  ghost predicate Aligned(text: string, i: nat, out: string, at: seq<nat>) {
    |at| == i <= |text| && |out| == From(at, i) && forall k :: 0 <= k < i ==> Here(text, k, out, at)
  }

  lemma EmittedExactly(text: string, i: nat)
    requires i < |text|
    ensures var c := if Delimits(text, i) then '"' else text[i];
      Emitted(ModeAt(text, i), Prev(text, i), text[i]) == if Doubled(text, i) then ['\\', c] else [c]
  {
    hide ReadBoth, ModeAt, Opens, Introduces;
    ReadsModes(text, i);
    OpensExactly(Prev(text, i));
  }

  /** Character by character: the output is the input with a backslash put before exactly
      the unescaped double quotes of single-quoted strings, and with exactly the single
      quotes that open or close such a string turned into double quotes. */
  lemma {:induction false} AlignedExactly(text: string, i: nat) returns (at: seq<nat>)
    requires i <= |text|
    ensures Aligned(text, i, Rewritten(text, i), at)
  {
    hide Doubled, Delimits, Emitted, ModeAt, Aligned;
    at := [];
    if i == 0 {
      AlignNone(text);
    } else {
      var init := AlignedExactly(text, i - 1);
      EmittedExactly(text, i - 1);
      AlignStep(text, i - 1, Rewritten(text, i - 1), init);
      at := init + [|Rewritten(text, i)| - 1];
    }
  }

  lemma AlignNone(text: string)
    ensures Aligned(text, 0, "", [])
  {}

  lemma HereStays(text: string, k: nat, o: string, at: seq<nat>, n: string, next: seq<nat>)
    requires Here(text, k, o, at) && o <= n && at <= next
    ensures Here(text, k, n, next)
  {
    hide Doubled, Delimits;
  }

  lemma AlignStep(text: string, i: nat, o: string, at: seq<nat>)
    requires i < |text| && Aligned(text, i, o, at)
    ensures var c := if Delimits(text, i) then '"' else text[i];
      var n := o + if Doubled(text, i) then ['\\', c] else [c];
      Aligned(text, i + 1, n, at + [|n| - 1])
  {
    hide Doubled, Delimits;
    var c := if Delimits(text, i) then '"' else text[i];
    var n := o + if Doubled(text, i) then ['\\', c] else [c];
    var next := at + [|n| - 1];
    assert From(next, i) == From(at, i) == |o|;
    assert Here(text, i, n, next);
    forall k | 0 <= k < i ensures Here(text, k, n, next) { HereStays(text, k, o, at, n, next); }
  }
}
