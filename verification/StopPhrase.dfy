// Recognising at the end of a chunk's transcript that the speaker is done, or wants time to think.
module StopPhrase {
  import opened Text

  const STOP_PHRASE_VARIANTS: set<string> := {"that's it", "thats it", "that is it"}

  const HOLD_PHRASE_VARIANTS: set<string> := {
    "hold up", "hold on", "wait", "wait a sec", "wait a second",
    "let me think", "one sec", "one second", "give me a second",
    "hang on", "just a sec", "just a second"
  }

  predicate IsWordChar(c: char) {
    'a' <= c <= 'z' || 'A' <= c <= 'Z' || '0' <= c <= '9' || c == '_'
  }

  predicate Keeps(c: char) {
    IsWordChar(c) || IsSpace(c) || c == '\''
  }

  /** Lower case, punctuation dropped. */
  function Clean(s: string): string {
    if s == "" then "" else (if Keeps(s[0]) then [Lower(s[0])] else []) + Clean(s[1..])
  }

  /** Collapsing white space to single spaces and trimming is splitting and joining. */
  function Normalize(text: string): string {
    Join(NormalTokens(text))
  }

  function NormalTokens(text: string): seq<string> {
    Tokens(Clean(text))
  }

  predicate Ends(normalized: string, variant: string) {
    normalized == variant || EndsWith(normalized, " " + variant)
  }

  predicate MatchHoldPhrase(text: string) {
    exists v :: v in HOLD_PHRASE_VARIANTS && Ends(Normalize(text), v)
  }

  /** The search of match_stop_phrase, with the variants tried in the given order. */
  function MatchStopPhrase(text: string, variants: seq<string>): (r: (bool, string)) {
    if variants == [] then (false, text)
    else if Normalize(text) == variants[0] then (true, "")
    else if EndsWith(Normalize(text), " " + variants[0]) then (true, DropLast(text, |Tokens(variants[0])|))
    else MatchStopPhrase(text, variants[1..])
  }

  /** The words of the original text without the last n. */
  function DropLast(text: string, n: nat): string {
    var words := Tokens(text);
    Join(if n <= |words| then words[..|words| - n] else [])
  }

  // Normalisation, word by word.

  /** The words that keep a character, cleaned. */
  function Kept(ts: seq<string>): seq<string> {
    if ts == [] then [] else (if Clean(ts[0]) == "" then [] else [Clean(ts[0])]) + Kept(ts[1..])
  }

  lemma {:induction false} CleanConcat(a: string, b: string)
    ensures Clean(a + b) == Clean(a) + Clean(b)
  {
    if a == "" {
      assert a + b == b;
    } else {
      assert (a + b)[1..] == a[1..] + b;
      CleanConcat(a[1..], b);
      var first := if Keeps(a[0]) then [Lower(a[0])] else [];
      assert first + (Clean(a[1..]) + Clean(b)) == (first + Clean(a[1..])) + Clean(b);
    }
  }

  lemma LowerKeepsSpaces(c: char)
    ensures IsSpace(Lower(c)) == IsSpace(c)
  {
  }

  /** Cleaning leaves a word in front iff the first word keeps a character. */
  lemma {:induction false} CleanStartsWord(s: string)
    ensures StartsWord(Clean(s)) <==> StartsWord(s) && Clean(Tokens(s)[0]) != ""
  {
    if s != "" {
      LowerKeepsSpaces(s[0]);
      CleanStartsWord(s[1..]);
      if StartsWord(s[1..]) {
        CleanConcat([s[0]], Tokens(s[1..])[0]);
      }
    }
  }

  lemma KeptCons(t: string, ts: seq<string>)
    ensures Kept([t] + ts) == (if Clean(t) == "" then [] else [Clean(t)]) + Kept(ts)
  {
    assert ([t] + ts)[1..] == ts;
  }

  /** One more character in front, not white space, that is kept. */
  lemma WordwiseConsKept(c: char, rest: string)
    requires !IsSpace(c) && Keeps(c) && NormalTokens(rest) == Kept(Tokens(rest))
    ensures NormalTokens([c] + rest) == Kept(Tokens([c] + rest))
  {
    hide Kept, Tokens;
    var ts, x := Tokens(rest), Clean(rest);
    LowerKeepsSpaces(c);
    CleanStartsWord(rest);
    assert Clean([c] + rest) == [Lower(c)] + x by {
      assert ([c] + rest)[1..] == rest;
    }
    TokensCons(c, rest);
    TokensCons(Lower(c), x);
    if StartsWord(rest) {
      assert Clean([c] + ts[0]) == [Lower(c)] + Clean(ts[0]) by {
        assert ([c] + ts[0])[1..] == ts[0];
      }
      KeptCons([c] + ts[0], ts[1..]);
      KeptCons(ts[0], ts[1..]);
      assert ts == [ts[0]] + ts[1..];
      var later := Kept(ts[1..]);
      assert [] + later == later && ([Clean(ts[0])] + later)[1..] == later;
      assert [Lower(c)] + "" == [Lower(c)];
    } else {
      KeptCons([c], ts);
      assert Clean([c]) == [Lower(c)] + Clean("") == [Lower(c)];
    }
  }

  /** One more character in front, not white space, that is dropped. */
  lemma WordwiseConsDropped(c: char, rest: string)
    requires !IsSpace(c) && !Keeps(c) && NormalTokens(rest) == Kept(Tokens(rest))
    ensures NormalTokens([c] + rest) == Kept(Tokens([c] + rest))
  {
    hide Kept, Tokens;
    var ts := Tokens(rest);
    assert Clean([c] + rest) == Clean(rest) by {
      assert ([c] + rest)[1..] == rest;
    }
    TokensCons(c, rest);
    if StartsWord(rest) {
      assert Clean([c] + ts[0]) == Clean(ts[0]) by {
        assert ([c] + ts[0])[1..] == ts[0];
      }
      KeptCons([c] + ts[0], ts[1..]);
      KeptCons(ts[0], ts[1..]);
      assert ts == [ts[0]] + ts[1..];
    } else {
      KeptCons([c], ts);
      assert [] + Kept(ts) == Kept(ts);
    }
  }

  /** Normalising a text is cleaning its words and leaving out those with nothing left. */
  lemma {:induction false} CleanWordwise(s: string)
    ensures NormalTokens(s) == Kept(Tokens(s))
  {
    if s != "" {
      CleanWordwise(s[1..]);
      if IsSpace(s[0]) {
        LowerKeepsSpaces(s[0]);
        assert Clean(s)[1..] == Clean(s[1..]);
      } else {
        assert s == [s[0]] + s[1..];
        if Keeps(s[0]) {
          WordwiseConsKept(s[0], s[1..]);
        } else {
          WordwiseConsDropped(s[0], s[1..]);
        }
      }
    }
  }

  lemma {:induction false} KeptConcat(a: seq<string>, b: seq<string>)
    ensures Kept(a + b) == Kept(a) + Kept(b)
  {
    if a == [] {
      assert a + b == b;
    } else {
      assert (a + b)[1..] == a[1..] + b;
      KeptConcat(a[1..], b);
    }
  }

  lemma {:induction false} KeptLength(ts: seq<string>)
    ensures |Kept(ts)| <= |ts|
    ensures |Kept(ts)| == |ts| <==> forall t :: t in ts ==> Clean(t) != ""
  {
    if ts != [] {
      KeptLength(ts[1..]);
      assert ts[0] in ts && forall t :: t in ts[1..] ==> t in ts;
      assert forall t :: t in ts ==> t == ts[0] || t in ts[1..];
    }
  }

  /** The text normalises to words of which the last ones are the variant's. */
  predicate TokensEnd(ts: seq<string>, v: seq<string>) {
    |v| <= |ts| && ts[|ts| - |v|..] == v
  }

  /** A string that ends in a space and a variant ends in the variant's words. */
  lemma StringEndGivesTokens(ts: seq<string>, variant: string)
    requires AreTokens(ts) && EndsWith(Join(ts), " " + variant)
    ensures TokensEnd(ts, Tokens(variant))
  {
    hide Tokens, Join;
    var n := Join(ts);
    var a := n[..|n| - |variant| - 1];
    assert n == a + " " + variant;
    TokensAcrossSpace(a, variant);
    TokensOfJoin(ts);
    assert ts[|Tokens(a)|..] == Tokens(variant);
  }

  lemma EndsGivesTokens(text: string, variant: string)
    requires Ends(Normalize(text), variant)
    ensures TokensEnd(NormalTokens(text), Tokens(variant))
    ensures Normalize(text) == variant ==> NormalTokens(text) == Tokens(variant)
  {
    hide Tokens, Join, Clean;
    TokensAreTokens(Clean(text));
    if Normalize(text) == variant {
      TokensOfJoin(NormalTokens(text));
    } else {
      StringEndGivesTokens(NormalTokens(text), variant);
    }
  }

  lemma TwoWords(a: string, b: string)
    requires IsToken(a) && IsToken(b)
    ensures Tokens(a + " " + b) == [a, b]
  {
    hide Tokens, IsToken;
    OneWord(a);
    OneWord(b);
    TokensAcrossSpace(a, b);
  }

  lemma OneWord(a: string)
    requires IsToken(a)
    ensures Tokens(a) == [a]
  {
    TokensOfWord(a, "");
    assert a + "" == a;
  }

  /** The words of each variant; the last but one tells them apart. */
  lemma StopWords(v: string)
    requires v in STOP_PHRASE_VARIANTS
    ensures v == "that's it" ==> Tokens(v) == ["that's", "it"]
    ensures v == "thats it" ==> Tokens(v) == ["thats", "it"]
    ensures v == "that is it" ==> Tokens(v) == ["that", "is", "it"]
  {
    hide Tokens;
    if v == "that's it" {
      TwoWords("that's", "it");
      assert v == "that's" + " " + "it";
    } else if v == "thats it" {
      TwoWords("thats", "it");
      assert v == "thats" + " " + "it";
    } else {
      OneWord("that");
      TwoWords("is", "it");
      TokensAcrossSpace("that", "is it");
      assert "is" + " " + "it" == "is it" && v == "that" + " " + "is it";
    }
  }

  /** No text ends with two stop variants. */
  lemma StopVariantUnique(text: string, u: string, v: string)
    requires u in STOP_PHRASE_VARIANTS && v in STOP_PHRASE_VARIANTS
    requires Ends(Normalize(text), u) && Ends(Normalize(text), v)
    ensures u == v
  {
    hide Tokens, Normalize, NormalTokens, Ends;
    EndsGivesTokens(text, u);
    EndsGivesTokens(text, v);
    StopWords(u);
    StopWords(v);
    LastButOne(NormalTokens(text), Tokens(u));
    LastButOne(NormalTokens(text), Tokens(v));
    ThreeWords();
  }

  lemma ThreeWords()
    ensures "that's" != "thats" && "that's" != "is" && "thats" != "is"
  {
    assert |"that's"| == 6 && |"thats"| == 5 && |"is"| == 2;
  }

  lemma LastButOne(ts: seq<string>, v: seq<string>)
    requires TokensEnd(ts, v) && |v| >= 2
    ensures ts[|ts| - 2] == v[|v| - 2]
  {
    assert ts[|ts| - |v|..][|v| - 2] == ts[|ts| - 2];
  }

  /** The text ends with one of the variants. */
  ghost predicate EndsWithOne(text: string, variants: seq<string>) {
    exists i :: 0 <= i < |variants| && Ends(Normalize(text), variants[i])
  }

  /** The result is a miss that leaves the text alone, or the remainder for the variant it ends with. */
  ghost predicate Finds(text: string, variants: seq<string>, r: (bool, string)) {
    && (r.0 <==> EndsWithOne(text, variants))
    && (!r.0 ==> r.1 == text)
    && forall i :: 0 <= i < |variants| && Ends(Normalize(text), variants[i]) ==> r.1 == Remainder(text, variants[i])
  }

  lemma FoundFirst(text: string, variants: seq<string>)
    requires variants != [] && Ends(Normalize(text), variants[0])
    requires forall i :: 0 <= i < |variants| ==> variants[i] in STOP_PHRASE_VARIANTS
    ensures MatchStopPhrase(text, variants) == (true, Remainder(text, variants[0]))
    ensures Finds(text, variants, (true, Remainder(text, variants[0])))
  {
    hide Normalize, Remainder;
    forall i | 0 <= i < |variants| && Ends(Normalize(text), variants[i])
      ensures variants[i] == variants[0]
    {
      StopVariantUnique(text, variants[i], variants[0]);
    }
    FirstStep(text, variants);
  }

  lemma FirstStep(text: string, variants: seq<string>)
    requires variants != []
    ensures MatchStopPhrase(text, variants) ==
      if Ends(Normalize(text), variants[0]) then (true, Remainder(text, variants[0])) else MatchStopPhrase(text, variants[1..])
  {
    hide Normalize, DropLast;
  }

  lemma FoundLater(text: string, variants: seq<string>, r: (bool, string))
    requires variants != [] && !Ends(Normalize(text), variants[0]) && Finds(text, variants[1..], r)
    ensures Finds(text, variants, r)
  {
    hide Normalize, Remainder, Ends;
    var rest := variants[1..];
    assert forall i :: 0 < i < |variants| ==> rest[i - 1] == variants[i];
    if EndsWithOne(text, rest) {
      var i :| 0 <= i < |rest| && Ends(Normalize(text), rest[i]);
      assert Ends(Normalize(text), variants[i + 1]);
    }
    if EndsWithOne(text, variants) {
      var i :| 0 <= i < |variants| && Ends(Normalize(text), variants[i]);
      assert Ends(Normalize(text), rest[i - 1]);
    }
    forall i | 0 <= i < |variants| && Ends(Normalize(text), variants[i])
      ensures r.1 == Remainder(text, variants[i])
    {
      assert Ends(Normalize(text), rest[i - 1]);
    }
  }

  /** What the search returns, whatever order the set of variants is walked in. */
  lemma {:induction false} SearchMeaning(text: string, variants: seq<string>)
    requires forall i :: 0 <= i < |variants| ==> variants[i] in STOP_PHRASE_VARIANTS
    ensures Finds(text, variants, MatchStopPhrase(text, variants))
  {
    hide Normalize, Remainder, Ends;
    if variants != [] {
      FirstStep(text, variants);
      if Ends(Normalize(text), variants[0]) {
        FoundFirst(text, variants);
      } else {
        SearchMeaning(text, variants[1..]);
        FoundLater(text, variants, MatchStopPhrase(text, variants[1..]));
      }
    }
  }

  /** What is left of a text that ends with the variant. */
  function Remainder(text: string, variant: string): string {
    if Normalize(text) == variant then "" else DropLast(text, |Tokens(variant)|)
  }

  lemma SameElement(text: string, xs: seq<string>, ys: seq<string>)
    requires (forall v :: v in xs ==> v in ys) && EndsWithOne(text, xs)
    ensures EndsWithOne(text, ys) && exists i, j :: 0 <= i < |xs| && 0 <= j < |ys| && xs[i] == ys[j] && Ends(Normalize(text), xs[i])
  {
    hide Normalize, Ends;
    var i :| 0 <= i < |xs| && Ends(Normalize(text), xs[i]);
    assert xs[i] in xs;
    var j :| 0 <= j < |ys| && ys[j] == xs[i];
  }

  lemma OrderIrrelevant(text: string, xs: seq<string>, ys: seq<string>)
    requires (set v | v in xs) == STOP_PHRASE_VARIANTS == (set v | v in ys)
    ensures MatchStopPhrase(text, xs) == MatchStopPhrase(text, ys)
  {
    hide Normalize, Remainder, Ends, MatchStopPhrase, EndsWithOne;
    assert forall v :: v in xs <==> v in (set v | v in xs);
    assert forall v :: v in ys <==> v in (set v | v in ys);
    SearchMeaning(text, xs);
    SearchMeaning(text, ys);
    if EndsWithOne(text, xs) {
      SameElement(text, xs, ys);
    } else if EndsWithOne(text, ys) {
      SameElement(text, ys, xs);
    }
  }

  lemma EmptyHasNoTokens()
    ensures NormalTokens("") == []
  {
  }

  /** The words kept of the whole text are those kept of the remainder and then the variant's, iff
      each of the last words counted off the original text keeps a character. */
  lemma RemainderExact(text: string, variant: string)
    requires variant in STOP_PHRASE_VARIANTS && Ends(Normalize(text), variant)
    ensures var n, ts := |Tokens(variant)|, Tokens(text);
      && n <= |ts|
      && (NormalTokens(Remainder(text, variant)) + Tokens(variant) == NormalTokens(text) <==>
          Normalize(text) == variant || forall t :: t in ts[|ts| - n..] ==> Clean(t) != "")
  {
    hide Tokens, Clean, Kept, Join;
    EndsGivesTokens(text, variant);
    CleanWordwise(text);
    var ts, v := Tokens(text), Tokens(variant);
    KeptLength(ts);
    if Normalize(text) == variant {
      EmptyHasNoTokens();
    } else {
      var front, back := ts[..|ts| - |v|], ts[|ts| - |v|..];
      assert ts == front + back;
      KeptConcat(front, back);
      KeptLength(back);
      TokensAreTokens(text);
      CleanWordwise(Join(front));
      TokensOfJoin(front);
      var all := NormalTokens(text);
      assert all == Kept(front) + Kept(back);
      if |Kept(back)| == |v| {
        assert Kept(back) == all[|all| - |v|..];
      }
    }
  }

  lemma DashWords()
    ensures Tokens("go that's it -") == ["go", "that's", "it", "-"]
  {
    hide Tokens;
    OneWord("go");
    TwoWords("that's", "it");
    OneWord("-");
    TokensAcrossSpace("that's it", "-");
    TokensAcrossSpace("go", "that's it -");
    assert "that's" + " " + "it" == "that's it" && "that's it" + " " + "-" == "that's it -";
    assert "go" + " " + "that's it -" == "go that's it -";
  }

  lemma DashNormalWords()
    ensures NormalTokens("go that's it -") == ["go", "that's", "it"]
  {
    hide Tokens, Kept, Clean, NormalTokens;
    DashWords();
    CleanWordwise("go that's it -");
    CleanOfDash();
    KeptCons("-", []);
    KeptLength([]);
    KeptCons("it", ["-"]);
    KeptCons("that's", ["it", "-"]);
    KeptCons("go", ["that's", "it", "-"]);
    assert ["go"] + ["that's", "it", "-"] == ["go", "that's", "it", "-"];
    assert ["that's"] + ["it", "-"] == ["that's", "it", "-"] && ["it"] + ["-"] == ["it", "-"] && ["-"] + [] == ["-"];
  }

  /** The words are counted off the original text, so a free-standing dash shifts the cut. */
  lemma DashShiftsTheCut()
    ensures Ends(Normalize("go that's it -"), "that's it")
    ensures Remainder("go that's it -", "that's it") == "go that's"
  {
    hide Tokens, NormalTokens;
    DashNormalWords();
    DashWords();
    TwoWords("that's", "it");
    assert "that's" + " " + "it" == "that's it";
    var front := ["go", "that's", "it", "-"][..2];
    assert front == ["go", "that's"] && Join(front) == "go that's";
    assert Join(["that's", "it"]) == "that's it";
    var n := Normalize("go that's it -");
    assert n == "go" + " " + "that's it" && |n| == 12;
    assert n[2..] == " " + "that's it" && |"that's it"| == 9;
  }

  lemma CleanOfDash()
    ensures Clean("go") == "go" && Clean("that's") == "that's" && Clean("it") == "it" && Clean("-") == ""
  {
    hide Clean;
    CleanAll("go");
    CleanAll("that's");
    CleanAll("it");
    CleanDash();
  }

  lemma CleanDash()
    ensures Clean("-") == ""
  {
  }

  /** Words of small letters and apostrophes are clean already. */
  lemma {:induction false} CleanAll(s: string)
    requires forall i :: 0 <= i < |s| ==> 'a' <= s[i] <= 'z' || s[i] == '\''
    ensures Clean(s) == s
  {
    if s != "" {
      CleanAll(s[1..]);
    }
  }

  lemma LastWord(text: string, variant: string, a: string, w: string)
    requires Ends(Normalize(text), variant) && IsToken(w)
    requires variant == w || variant == a + " " + w
    ensures NormalTokens(text) != [] && NormalTokens(text)[|NormalTokens(text)| - 1] == w
  {
    hide Normalize, NormalTokens;
    EndsGivesTokens(text, variant);
    TokensOfWord(w, "");
    assert w + "" == w;
    TokensAcrossSpace(a, w);
    var ts, v := NormalTokens(text), Tokens(variant);
    assert v[|v| - 1] == ts[|ts| - |v|..][|v| - 1];
  }

  /** The last word of a text that ends with a hold phrase. */
  lemma HoldLastWord(text: string, v: string)
    requires v in HOLD_PHRASE_VARIANTS && Ends(Normalize(text), v)
    ensures NormalTokens(text) != []
    ensures NormalTokens(text)[|NormalTokens(text)| - 1] in {"up", "on", "wait", "sec", "second", "think"}
  {
    hide Ends, Normalize, NormalTokens;
    if v == "hold up" { LastWord(text, v, "hold", "up"); }
    else if v == "hold on" { LastWord(text, v, "hold", "on"); }
    else if v == "hang on" { LastWord(text, v, "hang", "on"); }
    else if v == "wait" { LastWord(text, v, "", "wait"); }
    else if v == "wait a sec" { LastWord(text, v, "wait a", "sec"); }
    else if v == "one sec" { LastWord(text, v, "one", "sec"); }
    else if v == "just a sec" { LastWord(text, v, "just a", "sec"); }
    else if v == "wait a second" { LastWord(text, v, "wait a", "second"); }
    else if v == "one second" { LastWord(text, v, "one", "second"); }
    else if v == "give me a second" { LastWord(text, v, "give me a", "second"); }
    else if v == "just a second" { LastWord(text, v, "just a", "second"); }
    else { LastWord(text, v, "let me", "think"); }
  }

  lemma StopLastWord(text: string, u: string)
    requires u in STOP_PHRASE_VARIANTS && Ends(Normalize(text), u)
    ensures NormalTokens(text) != [] && NormalTokens(text)[|NormalTokens(text)| - 1] == "it"
  {
    hide Ends, Normalize, NormalTokens;
    if u == "that's it" { LastWord(text, u, "that's", "it"); }
    else if u == "thats it" { LastWord(text, u, "thats", "it"); }
    else { LastWord(text, u, "that is", "it"); }
  }

  /** No text asks both to stop and for time. */
  lemma NeverStopAndHold(text: string, variants: seq<string>)
    requires (set v | v in variants) == STOP_PHRASE_VARIANTS
    ensures !(MatchStopPhrase(text, variants).0 && MatchHoldPhrase(text))
  {
    hide MatchStopPhrase, Ends, Normalize, NormalTokens;
    if MatchStopPhrase(text, variants).0 && MatchHoldPhrase(text) {
      assert forall v :: v in variants <==> v in (set v | v in variants);
      SearchMeaning(text, variants);
      var i :| 0 <= i < |variants| && Ends(Normalize(text), variants[i]);
      var u := variants[i];
      StopLastWord(text, u);
      var v :| v in HOLD_PHRASE_VARIANTS && Ends(Normalize(text), v);
      HoldLastWord(text, v);
      ItIsNoHoldWord();
    }
  }

  lemma ItIsNoHoldWord()
    ensures "it" !in {"up", "on", "wait", "sec", "second", "think"}
  {
    assert "it"[0] != "up"[0] && "it"[0] != "on"[0];
    assert |"it"| == 2 && |"wait"| == 4 && |"sec"| == 3 && |"second"| == 6 && |"think"| == 5;
  }

  /** What is kept: letters, digits, the underscore, the apostrophe and white space. */
  lemma KeepsTable(c: char)
    ensures Keeps(c) <==> c in UPPER || c in LOWER || c in "0123456789" || c in {'_', '\''} || IsSpace(c)
  {
    if 'A' <= c <= 'Z' {
      LettersInOrder(c as int - 65);
    } else if 'a' <= c <= 'z' {
      LettersInOrder(c as int - 97);
    } else if '0' <= c <= '9' {
      DigitsInOrder(c as int - 48);
    }
    LettersAndDigits(c);
  }

  lemma DigitsInOrder(i: nat)
    requires i < 10
    ensures "0123456789"[i] as int == i + 48
  {
  }

  lemma LettersAndDigits(c: char)
    ensures c in UPPER ==> 'A' <= c <= 'Z'
    ensures c in LOWER ==> 'a' <= c <= 'z'
    ensures c in "0123456789" ==> '0' <= c <= '9'
  {
    if c in UPPER {
      var i :| 0 <= i < |UPPER| && UPPER[i] == c;
      LettersInOrder(i);
    }
    if c in LOWER {
      var i :| 0 <= i < |LOWER| && LOWER[i] == c;
      LettersInOrder(i);
    }
    if c in "0123456789" {
      var i :| 0 <= i < 10 && "0123456789"[i] == c;
      DigitsInOrder(i);
    }
  }

  lemma CleanOne(c: char)
    ensures Clean([c]) == if Keeps(c) then [Lower(c)] else []
  {
    assert [c][1..] == "";
  }

  /** Neither punctuation nor the case of a letter changes what a text normalises to. */
  lemma NormalizeIgnores(a: string, x: char, y: char, b: string)
    ensures !Keeps(x) ==> Normalize(a + ([x] + b)) == Normalize(a + b)
    ensures Keeps(x) && Keeps(y) && Lower(x) == Lower(y) ==> Normalize(a + ([x] + b)) == Normalize(a + ([y] + b))
  {
    hide Clean, Keeps, Tokens, Lower;
    CleanOne(x);
    CleanOne(y);
    CleanConcat(a, [x] + b);
    CleanConcat(a, [y] + b);
    CleanConcat([x], b);
    CleanConcat([y], b);
    CleanConcat(a, b);
    if !Keeps(x) {
      assert [] + Clean(b) == Clean(b);
    }
  }

  lemma {:induction false} CleanOfClean(s: string)
    requires forall c :: c in s ==> Keeps(c) && Lower(c) == c
    ensures Clean(s) == s
  {
    if s != "" {
      assert s[0] in s && forall c :: c in s[1..] ==> c in s;
      CleanOfClean(s[1..]);
    }
  }

  /** A text of small words with single spaces between them normalises to itself. */
  lemma NormalStays(ts: seq<string>)
    requires AreTokens(ts) && forall c :: c in Join(ts) ==> Keeps(c) && Lower(c) == c
    ensures Normalize(Join(ts)) == Join(ts)
  {
    hide Tokens, Clean, Keeps;
    CleanOfClean(Join(ts));
    TokensOfJoin(ts);
  }
}
