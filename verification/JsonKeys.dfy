/** The single-quoted-key rewriter: a loop of whole-text substitutions that is
    bounded only by the single quotes it consumes. */
module JsonKeys {
  import opened Wrappers

  // The pattern: an opener, blanks, a quoted key, blanks, a colon.
  datatype Match = Match(prefix: string, key: string, length: nat)

  predicate KeyChar(c: char) { c != '\'' && c != '\\' && c != '\n' && c != '\r' }

  function Spaces(s: string): (n: nat)
    ensures n <= |s| && (n < |s| ==> !Space(s[n]))
    ensures forall k :: 0 <= k < n ==> Space(s[k])
  {
    if s == "" || !Space(s[0]) then 0 else 1 + Spaces(s[1..])
  }

  function KeyLength(s: string): (n: nat)
    ensures n <= |s| && (n < |s| ==> !KeyChar(s[n]))
    ensures forall k :: 0 <= k < n ==> KeyChar(s[k])
  {
    if s == "" || !KeyChar(s[0]) then 0 else 1 + KeyLength(s[1..])
  }

  // A match that starts at the first character.  Each repetition is followed
  // by a character outside its class, so the greedy choice is the only one.
  function MatchHere(s: string): (r: Option<Match>)
    ensures r.Some? ==> 0 < r.value.length <= |s|
  {
    if s == "" || (s[0] != '{' && s[0] != ',') then None
    else
      var p := 1 + Spaces(s[1..]);
      if p == |s| || s[p] != '\'' then None
      else
        var k := KeyLength(s[p + 1..]);
        var q := p + 1 + k;
        if k == 0 || q == |s| || s[q] != '\'' then None
        else
          var e := q + 1 + Spaces(s[q + 1..]);
          if e == |s| || s[e] != ':' then None
          else Some(Match(s[..p], s[p + 1..q], e + 1))
  }

  // What the pattern says of matched text.
  ghost predicate Matched(s: string, m: Match) {
    var p, k := |m.prefix|, |m.key|;
    && 0 < p && 0 < k && p + k + 3 <= m.length <= |s|
    && s[..p] == m.prefix && s[p] == '\'' && s[p + 1..p + 1 + k] == m.key && s[p + 1 + k] == '\''
    && s[m.length - 1] == ':'
    && (forall i :: p + k + 2 <= i < m.length - 1 ==> Space(s[i]))
    && s[0] in {'{', ','} && (forall i :: 1 <= i < p ==> Space(s[i]))
    && (forall i :: 0 <= i < k ==> KeyChar(m.key[i]))
  }

  lemma MatchShape(s: string, m: Match)
    requires MatchHere(s) == Some(m)
    ensures Matched(s, m)
  {}

  function Escaped(key: string): string {
    if key == "" then "" else (if key[0] == '"' then ['\\', '"'] else [key[0]]) + Escaped(key[1..])
  }

  function Replacement(m: Match): string {
    m.prefix + ['"'] + Escaped(m.key) + ['"', ':']
  }

  // One pass of the substitution, and how many matches it replaced.
  function Substituted(s: string): string
    decreases |s|
  {
    if s == "" then ""
    else match MatchHere(s)
      case Some(m) => Replacement(m) + Substituted(s[m.length..])
      case None => [s[0]] + Substituted(s[1..])
  }

  function Matches(s: string): nat
    decreases |s|
  {
    if s == "" then 0
    else match MatchHere(s)
      case Some(m) => 1 + Matches(s[m.length..])
      case None => Matches(s[1..])
  }

  /* ---- the termination measure ---- */

  function Quotes(s: string): nat {
    if s == "" then 0 else (if s[0] == '\'' then 1 else 0) + Quotes(s[1..])
  }

  lemma {:induction false} QuotesAppend(s: string, t: string)
    ensures Quotes(s + t) == Quotes(s) + Quotes(t)
  {
    if s == "" {
      assert s + t == t;
    } else {
      assert (s + t)[1..] == s[1..] + t;
      QuotesAppend(s[1..], t);
    }
  }

  lemma {:induction false} NoQuotes(s: string)
    requires forall i :: 0 <= i < |s| ==> s[i] != '\''
    ensures Quotes(s) == 0
  {
    if s != "" { NoQuotes(s[1..]); }
  }

  lemma {:induction false} EscapedQuotes(key: string)
    requires forall i :: 0 <= i < |key| ==> KeyChar(key[i])
    ensures Quotes(Escaped(key)) == 0
  {
    if key != "" {
      EscapedQuotes(key[1..]);
      var head := if key[0] == '"' then ['\\', '"'] else [key[0]];
      NoQuotes(head);
      QuotesAppend(head, Escaped(key[1..]));
    }
  }

  lemma TwoQuotes(a: string, b: string, c: string)
    requires Quotes(a) == 0 && Quotes(b) == 0 && Quotes(c) == 0
    ensures Quotes(a + ['\''] + b + ['\''] + c) == 2
  {
    assert Quotes(['\'']) == 1;
    QuotesAppend(a, ['\'']);
    QuotesAppend(a + ['\''], b);
    QuotesAppend(a + ['\''] + b, ['\'']);
    QuotesAppend(a + ['\''] + b + ['\''], c);
  }

  lemma ReplacementQuotes(m: Match)
    requires Quotes(m.prefix) == 0 && forall i :: 0 <= i < |m.key| ==> KeyChar(m.key[i])
    ensures Quotes(Replacement(m)) == 0
  {
    EscapedQuotes(m.key);
    NoQuotes(['"', ':']);
    NoQuotes(['"']);
    QuotesAppend(m.prefix, ['"']);
    QuotesAppend(m.prefix + ['"'], Escaped(m.key));
    QuotesAppend(m.prefix + ['"'] + Escaped(m.key), ['"', ':']);
  }

  // The matched text holds exactly two single quotes and its replacement none.
  lemma MatchQuotes(s: string, m: Match)
    requires MatchHere(s) == Some(m)
    ensures Quotes(s[..m.length]) == 2 && Quotes(Replacement(m)) == 0
  {
    hide MatchHere, Quotes, Replacement;
    MatchShape(s, m);
    var p, q := |m.prefix|, |m.prefix| + |m.key| + 1;
    var tail := s[q + 1..m.length];
    NoQuotes(m.prefix);
    NoQuotes(m.key);
    NoQuotes(tail);
    TwoQuotes(m.prefix, m.key, tail);
    assert s[..m.length] == s[..p] + ['\''] + s[p + 1..q] + ['\''] + tail;
    ReplacementQuotes(m);
  }

  /** Every match of a pass consumes two single quotes. */
  lemma {:induction false} PassConsumesQuotes(s: string)
    ensures Quotes(Substituted(s)) + 2 * Matches(s) == Quotes(s)
    decreases |s|
  {
    hide MatchHere, Replacement, Quotes;
    if s != "" {
      match MatchHere(s)
      case Some(m) =>
        MatchQuotes(s, m);
        PassConsumesQuotes(s[m.length..]);
        QuotesAppend(Replacement(m), Substituted(s[m.length..]));
        QuotesAppend(s[..m.length], s[m.length..]);
        assert s == s[..m.length] + s[m.length..];
      case None =>
        PassConsumesQuotes(s[1..]);
        QuotesAppend([s[0]], Substituted(s[1..]));
        QuotesAppend([s[0]], s[1..]);
        assert s == [s[0]] + s[1..];
    }
  }

  // What a reader of the double-quoted key gets back.
  function Unescaped(s: string): string {
    if s == "" then ""
    else if s[0] == '\\' && |s| > 1 then [s[1]] + Unescaped(s[2..])
    else [s[0]] + Unescaped(s[1..])
  }

  /** The rewritten key reads back as the key that was quoted. */
  lemma {:induction false} KeyRoundTrip(key: string)
    requires forall i :: 0 <= i < |key| ==> KeyChar(key[i])
    ensures Unescaped(Escaped(key)) == key
  {
    if key != "" {
      KeyRoundTrip(key[1..]);
      var head := if key[0] == '"' then ['\\', '"'] else [key[0]];
      assert Escaped(key) == head + Escaped(key[1..]);
      assert Escaped(key)[|head|..] == Escaped(key[1..]);
      assert key == [key[0]] + key[1..];
    }
  }

  // The substitution repeated until it finds nothing.
  function Fixpoint(text: string): string
    decreases Quotes(text)
  {
    PassConsumesQuotes(text);
    if Matches(text) == 0 then text else Fixpoint(Substituted(text))
  }

  // No quoted key is left anywhere.
  ghost predicate Settled(s: string) {
    forall i :: 0 <= i < |s| ==> MatchHere(s[i..]) == None
  }

  lemma {:induction false} NoMatchesExactly(s: string)
    ensures Matches(s) == 0 <==> Settled(s)
    ensures Matches(s) == 0 ==> Substituted(s) == s
    decreases |s|
  {
    hide MatchHere, Settled;
    SettledStep(s);
    if s != "" && MatchHere(s).None? {
      NoMatchesExactly(s[1..]);
    }
  }

  lemma SettledStep(s: string)
    ensures s == "" ==> Settled(s)
    ensures s != "" ==> (Settled(s) <==> MatchHere(s).None? && Settled(s[1..]))
  {
    hide MatchHere;
    if s != "" {
      assert s[0..] == s;
      assert forall i :: 0 < i < |s| ==> s[i..] == s[1..][i - 1..];
      if Settled(s) {
        forall i | 0 <= i < |s[1..]| ensures MatchHere(s[1..][i..]) == None { assert s[1..][i..] == s[i + 1..]; }
      }
      if MatchHere(s).None? && Settled(s[1..]) {
        forall i | 0 <= i < |s| ensures MatchHere(s[i..]) == None {
          if i > 0 { assert MatchHere(s[1..][i - 1..]) == None; }
        }
      }
    }
  }

  method ReplaceSingleQuotedKeys(text: string) returns (out: string, changed: bool)
    ensures out == Fixpoint(text) && Settled(out)
    ensures changed <==> !Settled(text)
    ensures !changed ==> out == text
    ensures Quotes(out) <= Quotes(text) && (Quotes(text) - Quotes(out)) % 2 == 0
  {
    hide Settled, Substituted, Matches, Quotes;
    out, changed := text, false;
    while true
      invariant Fixpoint(out) == Fixpoint(text)
      invariant if changed then !Settled(text) else out == text
      invariant Quotes(out) <= Quotes(text) && (Quotes(text) - Quotes(out)) % 2 == 0
      decreases Quotes(out)
    {
      var next, count := Substituted(out), Matches(out);
      PassConsumesQuotes(out);
      NoMatchesExactly(out);
      if count == 0 { break; }
      out, changed := next, true;
    }
  }

  lemma {:induction false} SpacesIs(t: string, n: nat)
    requires n < |t| && !Space(t[n]) && forall i :: 0 <= i < n ==> Space(t[i])
    ensures Spaces(t) == n
  {
    hide Space;
    if n > 0 { SpacesIs(t[1..], n - 1); }
  }

  lemma {:induction false} KeyLengthIs(t: string, n: nat)
    requires n < |t| && !KeyChar(t[n]) && forall i :: 0 <= i < n ==> KeyChar(t[i])
    ensures KeyLength(t) == n
  {
    hide KeyChar;
    if n > 0 { KeyLengthIs(t[1..], n - 1); }
  }

  /** A match is found wherever the pattern fits, and it is the only one there. */
  lemma MatchExactly(s: string, m: Match)
    ensures MatchHere(s) == Some(m) <==> Matched(s, m)
  {
    if MatchHere(s) == Some(m) {
      MatchShape(s, m);
    }
    if Matched(s, m) { MatchFits(s, m); }
  }

  lemma MatchedSpaces(s: string, m: Match)
    requires Matched(s, m)
    ensures Spaces(s[1..]) == |m.prefix| - 1
    ensures Spaces(s[|m.prefix| + 2 + |m.key|..]) == m.length - 1 - (|m.prefix| + 2 + |m.key|)
  {
    assert !Space('\'') && !Space(':');
    hide Space, KeyChar, Spaces;
    SpacesFrom(s, 1, |m.prefix|);
    SpacesFrom(s, |m.prefix| + 2 + |m.key|, m.length - 1);
  }

  lemma MatchedKey(s: string, m: Match)
    requires Matched(s, m)
    ensures KeyLength(s[|m.prefix| + 1..]) == |m.key|
  {
    assert !KeyChar('\'');
    hide Space, KeyChar, KeyLength;
    var p, k := |m.prefix|, |m.key|;
    var key := s[p + 1..p + 1 + k];
    forall i | p + 1 <= i < p + 1 + k ensures KeyChar(s[i]) {
      assert s[i] == key[i - p - 1];
    }
    KeyFrom(s, p + 1, p + 1 + k);
  }

  lemma MatchFits(s: string, m: Match)
    requires Matched(s, m)
    ensures MatchHere(s) == Some(m)
  {
    hide Space, KeyChar, Spaces, KeyLength, MatchHere;
    MatchedSpaces(s, m);
    MatchedKey(s, m);
    MatchBuilt(s, |m.prefix|, |m.key|, m.length);
  }

  lemma MatchBuilt(s: string, p: nat, k: nat, n: nat)
    requires 0 < p && 0 < k && p + k + 3 <= n <= |s| && (s[0] == '{' || s[0] == ',')
    requires Spaces(s[1..]) == p - 1 && s[p] == '\''
    requires KeyLength(s[p + 1..]) == k && s[p + 1 + k] == '\''
    requires Spaces(s[p + 2 + k..]) == n - 1 - (p + 2 + k) && s[n - 1] == ':'
    ensures MatchHere(s) == Some(Match(s[..p], s[p + 1..p + 1 + k], n))
  {
    hide Space, KeyChar, Spaces, KeyLength;
  }

  lemma SpacesFrom(s: string, from: nat, to: nat)
    requires from <= to < |s| && !Space(s[to]) && forall i :: from <= i < to ==> Space(s[i])
    ensures Spaces(s[from..]) == to - from
  {
    hide Space;
    var t := s[from..];
    assert forall i :: 0 <= i < |t| ==> t[i] == s[from + i];
    SpacesIs(t, to - from);
  }

  lemma KeyFrom(s: string, from: nat, to: nat)
    requires from <= to < |s| && !KeyChar(s[to]) && forall i :: from <= i < to ==> KeyChar(s[i])
    ensures KeyLength(s[from..]) == to - from
  {
    hide KeyChar;
    var t := s[from..];
    assert forall i :: 0 <= i < |t| ==> t[i] == s[from + i];
    KeyLengthIs(t, to - from);
  }

  /** A match is replaced by its own prefix, its key between double quotes, and a colon. */
  lemma ReplacementReads(m: Match) returns (body: string)
    requires forall i :: 0 <= i < |m.key| ==> KeyChar(m.key[i])
    ensures Replacement(m) == m.prefix + ['"'] + body + ['"', ':'] && Unescaped(body) == m.key
  {
    body := Escaped(m.key);
    KeyRoundTrip(m.key);
  }
}
