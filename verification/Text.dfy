// Strings as the components split, join and compare them, over the ASCII characters.
module Text {
  predicate IsSpace(c: char) {
    9 <= c as int <= 13 || 28 <= c as int <= 32
  }

  function Lower(c: char): char {
    if 'A' <= c <= 'Z' then (c as int + 32) as char else c
  }

  function LowerAll(s: string): string {
    if s == "" then "" else [Lower(s[0])] + LowerAll(s[1..])
  }

  predicate StartsWord(s: string) {
    s != "" && !IsSpace(s[0])
  }

  /** One more character in front of the first word. */
  function Grow(c: char, ts: seq<string>): seq<string>
    requires ts != []
  {
    [[c] + ts[0]] + ts[1..]
  }

  /** The words of a string, split on white space. */
  function Tokens(s: string): (ts: seq<string>)
    ensures StartsWord(s) ==> ts != []
  {
    if s == "" then []
    else if IsSpace(s[0]) then Tokens(s[1..])
    else if StartsWord(s[1..]) then Grow(s[0], Tokens(s[1..]))
    else [[s[0]]] + Tokens(s[1..])
  }

  /** Words joined by single spaces. */
  function Join(ts: seq<string>): string {
    if ts == [] then "" else if |ts| == 1 then ts[0] else ts[0] + " " + Join(ts[1..])
  }

  predicate IsToken(t: string) {
    t != "" && forall c :: c in t ==> !IsSpace(c)
  }

  predicate AreTokens(ts: seq<string>) {
    forall t :: t in ts ==> IsToken(t)
  }

  lemma {:induction false} TokensAreTokens(s: string)
    ensures AreTokens(Tokens(s))
  {
    if s != "" {
      TokensAreTokens(s[1..]);
      if StartsWord(s) {
        assert IsToken([s[0]]);
        if StartsWord(s[1..]) {
          var rest := Tokens(s[1..]);
          assert IsToken(rest[0]);
          assert forall c :: c in [s[0]] + rest[0] ==> c == s[0] || c in rest[0];
        }
      }
    }
  }

  lemma {:induction false} TokensOfWord(t: string, s: string)
    requires IsToken(t) && !StartsWord(s)
    ensures Tokens(t + s) == [t] + Tokens(s)
  {
    assert t[0] in t;
    assert (t + s)[1..] == t[1..] + s;
    if |t| == 1 {
      assert t[1..] + s == s;
      assert t == [t[0]];
    } else {
      assert forall c :: c in t[1..] ==> c in t;
      assert t[1] in t;
      TokensOfWord(t[1..], s);
      assert [t[0]] + t[1..] == t;
    }
  }

  /** Splitting undoes joining. */
  lemma {:induction false} TokensOfJoin(ts: seq<string>)
    requires AreTokens(ts)
    ensures Tokens(Join(ts)) == ts
  {
    if |ts| == 1 {
      TokensOfWord(ts[0], "");
      assert ts[0] + "" == ts[0];
    } else if |ts| > 1 {
      TokensOfJoin(ts[1..]);
      var rest := Join(ts[1..]);
      TokensOfWord(ts[0], " " + rest);
      assert (" " + rest)[1..] == rest;
      assert ts[0] + " " + rest == ts[0] + (" " + rest);
    }
  }

  lemma GrowConcat(c: char, ts: seq<string>, us: seq<string>)
    ensures ts != [] ==> Grow(c, ts + us) == Grow(c, ts) + us
    ensures [[c]] + (ts + us) == ([[c]] + ts) + us
  {
  }

  lemma TokensCons(c: char, s: string)
    ensures Tokens([c] + s) ==
      if IsSpace(c) then Tokens(s)
      else if StartsWord(s) then Grow(c, Tokens(s))
      else [[c]] + Tokens(s)
  {
    assert ([c] + s)[1..] == s;
  }

  /** A space separates words. */
  lemma {:induction false} TokensAcrossSpace(a: string, b: string)
    ensures Tokens(a + " " + b) == Tokens(a) + Tokens(b)
    decreases |a|
  {
    hide Tokens;
    if a == "" {
      TokensCons(' ', b);
      NoTokens();
      assert a + " " + b == [' '] + b;
      assert [] + Tokens(b) == Tokens(b);
    } else {
      var rest := a[1..] + " " + b;
      TokensAcrossSpace(a[1..], b);
      TokensCons(a[0], a[1..]);
      TokensCons(a[0], rest);
      assert a == [a[0]] + a[1..] && a + " " + b == [a[0]] + rest;
      assert StartsWord(rest) == StartsWord(a[1..]);
      GrowConcat(a[0], Tokens(a[1..]), Tokens(b));
    }
  }

  lemma NoTokens()
    ensures Tokens("") == []
  {
  }

  function RightStrip(s: string): string {
    if s != "" && IsSpace(s[|s| - 1]) then RightStrip(s[..|s| - 1]) else s
  }

  function LeftStrip(s: string): string {
    if s != "" && IsSpace(s[0]) then LeftStrip(s[1..]) else s
  }

  function Strip(s: string): string {
    RightStrip(LeftStrip(s))
  }

  /** Nothing to strip at either end. */
  predicate IsStripped(s: string) {
    s == "" || (!IsSpace(s[0]) && !IsSpace(s[|s| - 1]))
  }

  lemma {:induction false} RightStripped(s: string)
    ensures |RightStrip(s)| <= |s| && RightStrip(s) == s[..|RightStrip(s)|]
    ensures RightStrip(s) != "" ==> !IsSpace(RightStrip(s)[|RightStrip(s)| - 1])
    ensures s != "" && !IsSpace(s[0]) ==> RightStrip(s) != ""
  {
    if s != "" && IsSpace(s[|s| - 1]) {
      RightStripped(s[..|s| - 1]);
    }
  }

  lemma {:induction false} LeftStripped(s: string)
    ensures LeftStrip(s) == "" || !IsSpace(LeftStrip(s)[0])
  {
    if s != "" && IsSpace(s[0]) {
      LeftStripped(s[1..]);
    }
  }

  lemma StripStrips(s: string)
    ensures IsStripped(Strip(s))
    ensures IsStripped(s) ==> Strip(s) == s
  {
    LeftStripped(s);
    RightStripped(LeftStrip(s));
  }

  predicate AllSpace(s: string) {
    forall c :: c in s ==> IsSpace(c)
  }

  lemma {:induction false} RightStripDrops(s: string) returns (right: string)
    ensures s == RightStrip(s) + right && AllSpace(right)
  {
    right := "";
    if s != "" && IsSpace(s[|s| - 1]) {
      right := RightStripDrops(s[..|s| - 1]);
      right := right + [s[|s| - 1]];
    }
  }

  lemma {:induction false} LeftStripDrops(s: string) returns (left: string)
    ensures s == left + LeftStrip(s) && AllSpace(left)
  {
    left := "";
    if s != "" && IsSpace(s[0]) {
      left := LeftStripDrops(s[1..]);
      left := [s[0]] + left;
    }
  }

  /** Stripping takes white space from both ends and nothing else. */
  lemma StripMeaning(s: string) returns (left: string, right: string)
    ensures s == left + Strip(s) + right && AllSpace(left) && AllSpace(right) && IsStripped(Strip(s))
  {
    left := LeftStripDrops(s);
    right := RightStripDrops(LeftStrip(s));
    StripStrips(s);
    assert s == left + (Strip(s) + right);
  }

  /** The white space of ASCII: tab to carriage return, the four separators, and the space. */
  lemma SpaceTable(c: char)
    ensures IsSpace(c) <==>
      c in {'\t', '\n', '\U{0B}', '\U{0C}', '\r', '\U{1C}', '\U{1D}', '\U{1E}', '\U{1F}', ' '}
  {
  }

  const UPPER := "ABCDEFGHIJKLMNOPQRSTUVWXYZ"
  const LOWER := "abcdefghijklmnopqrstuvwxyz"

  /** Capitals become the small letters of the same place in the alphabet; nothing else changes. */
  lemma LowerTable(c: char)
    ensures c in UPPER ==> exists i :: 0 <= i < 26 && UPPER[i] == c && LOWER[i] == Lower(c)
    ensures c !in UPPER ==> Lower(c) == c
  {
    if 'A' <= c <= 'Z' {
      LettersInOrder(c as int - 65);
    }
  }

  lemma LettersInOrder(i: nat)
    requires i < 26
    ensures UPPER[i] as int == i + 65 && LOWER[i] as int == i + 97
  {
  }

  /** A number as it is printed. */
  function Decimal(n: nat): string {
    if n < 10 then [(n + 48) as char] else Decimal(n / 10) + [(n % 10 + 48) as char]
  }

  predicate EndsWith(s: string, suffix: string) {
    |suffix| <= |s| && s[|s| - |suffix|..] == suffix
  }

  predicate StandsAt(s: string, part: string, i: nat) {
    i + |part| <= |s| && s[i..i + |part|] == part
  }

  predicate Contains(s: string, part: string) {
    exists i: nat | i <= |s| :: StandsAt(s, part, i)
  }
}
