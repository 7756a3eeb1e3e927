// The degenerate-repetition detector of the hallucination filter: it looks for a phrase of one
// to four words repeated back to back, and after a run of two or more copies it resumes behind
// the run instead of one word further on.
module Repetition {
  import opened Wrappers
  import Text

  const MAX_CONSECUTIVE_REPEATS := 4
  const MAX_PHRASE_WORDS := 4

  datatype Finding = Finding(phrase: seq<string>, run: nat)

  /** k copies of the phrase stand back to back from p on. */
  ghost predicate CopiesAt(w: seq<string>, phrase: seq<string>, k: nat, p: nat) {
    k == 0 || (
      && p + |phrase| <= |w| && w[p..p + |phrase|] == phrase
      && CopiesAt(w, phrase, k - 1, p + |phrase|))
  }

  /** The words from a up to b repeat with period n. */
  ghost predicate Periodic(w: seq<string>, n: nat, a: nat, b: nat) {
    b <= |w| && forall t {:trigger w[t]} :: a <= t && t + n < b ==> w[t] == w[t + n]
  }

  predicate SameBlock(w: seq<string>, n: nat, i: nat) {
    i + n + n <= |w| && w[i..i + n] == w[i + n..i + n + n]
  }

  /** The number of equal n-word blocks that stand back to back from i on. */
  function RunLength(w: seq<string>, n: nat, i: nat): nat
    requires n > 0
    decreases |w| - i
  {
    if SameBlock(w, n, i) then 1 + RunLength(w, n, i + n) else 1
  }

  /** The end of that run. */
  function RunEnd(w: seq<string>, n: nat, i: nat): (e: nat)
    requires n > 0 && i + n <= |w|
    ensures i + n <= e <= |w|
    decreases |w| - i
  {
    if SameBlock(w, n, i) then RunEnd(w, n, i + n) else i + n
  }

  /** Where the scan for n-word phrases goes after looking at i. */
  function Next(w: seq<string>, n: nat, i: nat): (j: nat)
    requires n > 0 && i + n <= |w|
    ensures i < j <= |w|
  {
    if SameBlock(w, n, i) then RunEnd(w, n, i) else i + 1
  }

  /** The scan for n-word phrases, started at i, looks at p. */
  ghost predicate Visits(w: seq<string>, n: nat, i: nat, p: nat)
    requires n > 0 && i <= |w|
    decreases |w| - i
  {
    i == p || (i + n <= |w| && Visits(w, n, Next(w, n, i), p))
  }

  /** A run of at least four copies starts at a position the scan looks at. */
  ghost predicate ReportedAt(w: seq<string>, n: nat, p: nat) {
    1 <= n <= MAX_PHRASE_WORDS && p + 4 * n <= |w| && Visits(w, n, 0, p) && Periodic(w, n, p, p + 4 * n)
  }

  ghost predicate Reported(w: seq<string>) {
    exists n: nat, p: nat :: ReportedAt(w, n, p)
  }

  lemma {:induction false} RunIsCopies(w: seq<string>, n: nat, i: nat, phrase: seq<string>)
    requires n > 0 && i + n <= |w| && phrase == w[i..i + n]
    ensures CopiesAt(w, phrase, RunLength(w, n, i), i)
    decreases |w| - i
  {
    if SameBlock(w, n, i) {
      RunIsCopies(w, n, i + n, phrase);
    } else {
      assert CopiesAt(w, phrase, 0, i + n);
    }
  }

  lemma {:induction false} LengthAndEnd(w: seq<string>, n: nat, i: nat)
    requires n > 0 && i + n <= |w|
    ensures RunLength(w, n, i) == 1 ==> RunEnd(w, n, i) == i + n
    ensures RunLength(w, n, i) == 2 ==> RunEnd(w, n, i) == i + 2 * n
    ensures RunLength(w, n, i) == 3 ==> RunEnd(w, n, i) == i + 3 * n
    ensures RunLength(w, n, i) >= 4 <==> RunEnd(w, n, i) >= i + 4 * n
    decreases |w| - i
  {
    if SameBlock(w, n, i) {
      LengthAndEnd(w, n, i + n);
    }
  }

  lemma BlockThenPeriodic(w: seq<string>, n: nat, p: nat, b: nat)
    requires n > 0 && p + n + n <= b && SameBlock(w, n, p) && Periodic(w, n, p + n, b)
    ensures Periodic(w, n, p, b)
  {
    forall t {:trigger w[t]} | p <= t && t + n < b
      ensures w[t] == w[t + n]
    {
      if t < p + n {
        assert w[p..p + n][t - p] == w[p + n..p + n + n][t - p];
      }
    }
  }

  lemma {:induction false} RunIsPeriodic(w: seq<string>, n: nat, i: nat)
    requires n > 0 && i + n <= |w|
    ensures Periodic(w, n, i, RunEnd(w, n, i)) && !SameBlock(w, n, RunEnd(w, n, i) - n)
    decreases |w| - i
  {
    if SameBlock(w, n, i) {
      RunIsPeriodic(w, n, i + n);
      BlockThenPeriodic(w, n, i, RunEnd(w, n, i));
    }
  }

  lemma StretchContinues(w: seq<string>, n: nat, p: nat, b: nat, i: nat)
    requires Periodic(w, n, p, b) && p <= i && i + n + n <= b
    ensures SameBlock(w, n, i)
  {
  }

  lemma {:induction false} PeriodicReachesEnd(w: seq<string>, n: nat, i: nat, b: nat)
    requires n > 0 && i + n <= b && Periodic(w, n, i, b)
    ensures RunEnd(w, n, i) + n > b
    decreases b - i
  {
    if i + n + n <= b {
      StretchContinues(w, n, i, b, i);
      PeriodicReachesEnd(w, n, i + n, b);
    }
  }

  lemma {:induction false} CopiesArePeriodic(w: seq<string>, phrase: seq<string>, p: nat, k: nat, b: nat)
    requires phrase != [] && 1 <= k <= 5 && CopiesAt(w, phrase, k, p)
    requires b == p + (if k == 1 then 1 else if k == 2 then 2 else if k == 3 then 3 else if k == 4 then 4 else 5) * |phrase|
    ensures Periodic(w, |phrase|, p, b)
    decreases k
  {
    var n := |phrase|;
    assert CopiesAt(w, phrase, k - 1, p + n);
    if k > 1 {
      assert w[p + n..p + n + n] == phrase;
      CopiesArePeriodic(w, phrase, p + n, k - 1, b);
      BlockThenPeriodic(w, n, p, b);
    }
  }

  lemma {:induction false} VisitsThen(w: seq<string>, n: nat, i: nat, q: nat)
    requires n > 0 && i <= |w| && Visits(w, n, i, q) && q + n <= |w|
    ensures Visits(w, n, i, Next(w, n, q))
    decreases |w| - i
  {
    if i != q {
      VisitsThen(w, n, Next(w, n, i), q);
    } else {
      assert Visits(w, n, Next(w, n, i), Next(w, n, q));
    }
  }

  /** Every position is looked at, or is jumped over from one that is. */
  lemma {:induction false} Covering(w: seq<string>, n: nat, i: nat, p: nat) returns (q: nat)
    requires n > 0 && i <= p && p + n <= |w|
    ensures q <= p && Visits(w, n, i, q) && q + n <= |w|
    ensures q < p ==> SameBlock(w, n, q) && RunEnd(w, n, q) > p
    decreases |w| - i
  {
    if i == p || Next(w, n, i) > p {
      q := i;
    } else {
      q := Covering(w, n, Next(w, n, i), p);
    }
  }

  /** Jumping behind a run enters the next stretch at most n - 1 words late. */
  lemma JumpLandsEarly(w: seq<string>, n: nat, p: nat, b: nat, q: nat)
    requires n > 0 && p + 5 * n - 1 <= b && Periodic(w, n, p, b)
    requires q < p && q + n <= |w| && q + 4 * n > RunEnd(w, n, q)
    ensures RunEnd(w, n, q) < p + n
  {
    RunIsPeriodic(w, n, q);
    var e := RunEnd(w, n, q);
    if e - n >= p {
      StretchContinues(w, n, p, b, e - n);
    }
  }

  /** A stretch of 5n - 1 words with period n is always reported. */
  lemma LongStretchReported(w: seq<string>, n: nat, p: nat)
    requires 1 <= n <= MAX_PHRASE_WORDS && Periodic(w, n, p, p + 5 * n - 1)
    ensures Reported(w)
  {
    var q := Covering(w, n, 0, p);
    if q == p {
      assert ReportedAt(w, n, p);
    } else {
      var e := RunEnd(w, n, q);
      if e >= q + 4 * n {
        RunIsPeriodic(w, n, q);
        assert ReportedAt(w, n, q);
      } else {
        JumpLandsEarly(w, n, p, p + 5 * n - 1, q);
        VisitsThen(w, n, 0, q);
        assert ReportedAt(w, n, e);
      }
    }
  }

  /** Five copies of a phrase are always reported; of a single word, four. */
  lemma EnoughCopiesReported(w: seq<string>, phrase: seq<string>, p: nat, k: nat)
    requires 1 <= |phrase| <= MAX_PHRASE_WORDS
    requires k == 5 || (k == 4 && |phrase| == 1)
    requires CopiesAt(w, phrase, k, p)
    ensures Reported(w)
  {
    if k == 5 {
      CopiesArePeriodic(w, phrase, p, 5, p + 5 * |phrase|);
    } else {
      CopiesArePeriodic(w, phrase, p, 4, p + 4);
    }
    LongStretchReported(w, |phrase|, p);
  }

  method HasDegenerateRepetition(words: seq<string>) returns (found: Option<Finding>)
    // Sound: what is reported is there, at least four times over.
    ensures found.Some? ==>
      && 1 <= |found.value.phrase| <= MAX_PHRASE_WORDS
      && found.value.run >= MAX_CONSECUTIVE_REPEATS
      && exists p: nat :: CopiesAt(words, found.value.phrase, found.value.run, p)
    // Exact: something is reported iff a four-fold run starts where the scan looks.
    ensures found.Some? <==> Reported(words)
  {
    var n := 1;
    while n < 5
      invariant 1 <= n <= 5
      invariant forall m: nat, p: nat :: m < n ==> !ReportedAt(words, m, p)
    {
      if |words| >= n * MAX_CONSECUTIVE_REPEATS {
        found := ScanForPhrase(words, n);
        if found.Some? {
          return;
        }
      }
      n := n + 1;
    }
    return None;
  }

  function LowerWords(text: string): (ws: seq<string>)
    ensures |ws| == |Text.Tokens(text)|
  {
    var ts := Text.Tokens(text);
    seq(|ts|, i requires 0 <= i < |ts| => Text.LowerAll(ts[i]))
  }

  /** A transcript is kept as it is, or dropped because it is blank, looks like a known hallucination,
      or repeats itself. */
  method FilterTranscript(text: string, hallucinated: string -> bool) returns (kept: Option<string>)
    ensures kept == None || kept == Some(text)
    ensures kept == None <==>
      Text.Strip(text) == "" || hallucinated(Text.Strip(text)) || Reported(LowerWords(Text.Strip(text)))
  {
    var stripped := Text.Strip(text);
    if stripped == "" || hallucinated(stripped) {
      return None;
    }
    var repetition := HasDegenerateRepetition(LowerWords(stripped));
    return if repetition.Some? then None else Some(text);
  }

  /** One pass for phrases of n words. */
  method ScanForPhrase(words: seq<string>, n: nat) returns (found: Option<Finding>)
    requires 1 <= n <= MAX_PHRASE_WORDS
    ensures found.Some? ==>
      && |found.value.phrase| == n && found.value.run >= MAX_CONSECUTIVE_REPEATS
      && exists p: nat :: CopiesAt(words, found.value.phrase, found.value.run, p)
    ensures found.Some? <==> exists p: nat :: ReportedAt(words, n, p)
  {
    var i := 0;
    while i + n <= |words|
      invariant i <= |words| && Visits(words, n, 0, i)
      invariant forall p: nat :: ReportedAt(words, n, p) ==> Visits(words, n, i, p)
      decreases |words| - i
    {
      var run, j := CountRun(words, n, i);
      LookedAt(words, n, i);
      if run >= MAX_CONSECUTIVE_REPEATS {
        RunIsCopies(words, n, i, words[i..i + n]);
        return Some(Finding(words[i..i + n], run));
      }
      VisitsThen(words, n, 0, i);
      i := if run > 1 then j else i + 1;
    }
    return None;
  }

  lemma LookedAt(w: seq<string>, n: nat, i: nat)
    requires 1 <= n <= MAX_PHRASE_WORDS && i + n <= |w| && Visits(w, n, 0, i)
    ensures ReportedAt(w, n, i) <==> RunLength(w, n, i) >= 4
  {
    LengthAndEnd(w, n, i);
    RunIsPeriodic(w, n, i);
    if ReportedAt(w, n, i) {
      PeriodicReachesEnd(w, n, i, i + 4 * n);
    }
  }

  lemma RunStep(w: seq<string>, n: nat, i: nat)
    requires n > 0 && i + n <= |w|
    ensures RunLength(w, n, i) == if SameBlock(w, n, i) then 1 + RunLength(w, n, i + n) else 1
    ensures RunEnd(w, n, i) == if SameBlock(w, n, i) then RunEnd(w, n, i + n) else i + n
  {
  }

  lemma NextBlock(w: seq<string>, n: nat, j: nat, phrase: seq<string>)
    requires 0 < n == |phrase| && n <= j <= |w| && w[j - n..j] == phrase
    ensures SameBlock(w, n, j - n) <==> j + n <= |w| && w[j..j + n] == phrase
  {
    assert j - n + n == j && j - n + n + n == j + n;
  }

  /** Counts the copies of the phrase at i; j is the position behind the last one. */
  method CountRun(words: seq<string>, n: nat, i: nat) returns (run: nat, j: nat)
    requires n > 0 && i + n <= |words|
    ensures run == RunLength(words, n, i) && j == RunEnd(words, n, i)
    ensures run > 1 <==> SameBlock(words, n, i)
  {
    hide RunLength, RunEnd, SameBlock;
    var phrase := words[i..i + n];
    run := 1;
    j := i + n;
    NextBlock(words, n, j, phrase);
    while j + n <= |words| && words[j..j + n] == phrase
      invariant i + n <= j <= |words| && words[j - n..j] == phrase
      invariant run == 1 <==> j == i + n
      invariant run >= 1 && (run > 1 ==> SameBlock(words, n, i))
      invariant RunEnd(words, n, i) == RunEnd(words, n, j - n)
      invariant RunLength(words, n, i) == run - 1 + RunLength(words, n, j - n)
      decreases |words| - j
    {
      NextBlock(words, n, j, phrase);
      RunStep(words, n, j - n);
      run := run + 1;
      j := j + n;
    }
    NextBlock(words, n, j, phrase);
    RunStep(words, n, j - n);
  }

  // Four copies of a longer phrase can be jumped over, and the bound 5n - 1 cannot be lowered for
  // any longer phrase: the three texts below hold 5n - 2 words of period n and are not reported.

  function SkippedPair(p: string, q: string, s: string): seq<string> {
    [p, q, p, q, s, q, s, q, s, q, s]
  }

  lemma FourCopiesOfPairMissed(p: string, q: string, s: string)
    requires p != q && p != s && q != s
    ensures CopiesAt(SkippedPair(p, q, s), [q, s], 4, 3) && Periodic(SkippedPair(p, q, s), 2, 3, 11)
    ensures !Reported(SkippedPair(p, q, s))
  {
    PairCopies(p, q, s);
    var w := SkippedPair(p, q, s);
    forall n: nat, a: nat | 1 <= n <= 4 && a + 4 * n <= 11
      ensures !ReportedAt(w, n, a)
    {
      if n == 1 {
        assert w[a] != w[a + 1];
      } else if a < 3 {
        assert w[2] != w[4];
      } else {
        PairScan(p, q, s);
      }
    }
  }

  lemma PairCopies(p: string, q: string, s: string)
    ensures CopiesAt(SkippedPair(p, q, s), [q, s], 4, 3)
  {
    var w := SkippedPair(p, q, s);
    assert w[3..5] == w[5..7] == w[7..9] == w[9..11] == [q, s];
    assert CopiesAt(w, [q, s], 1, 9);
    assert CopiesAt(w, [q, s], 2, 7);
    assert CopiesAt(w, [q, s], 3, 5);
  }

  lemma PairScan(p: string, q: string, s: string)
    requires p != q && p != s && q != s
    ensures !Visits(SkippedPair(p, q, s), 2, 0, 3)
  {
    var w := SkippedPair(p, q, s);
    assert w[0..2] == w[2..4] && w[4..6] == w[6..8] == w[8..10];
    assert w[2..4][0] != w[4..6][0];
    assert RunEnd(w, 2, 2) == 4;
    assert RunEnd(w, 2, 8) == 10;
    assert RunEnd(w, 2, 6) == 10;
    assert !Visits(w, 2, 10, 3);
    assert !Visits(w, 2, 4, 3);
  }

  function SkippedTriple(x: string, a: string, b: string, c: string): seq<string> {
    [x, a, b, x, a, b, c, a, b, c, a, b, c, a, b, c, a]
  }

  predicate Distinct(x: string, a: string, b: string, c: string) {
    x != a && x != b && x != c && a != b && a != c && b != c
  }

  lemma FourCopiesOfTripleMissed(x: string, a: string, b: string, c: string)
    requires Distinct(x, a, b, c)
    ensures CopiesAt(SkippedTriple(x, a, b, c), [a, b, c], 4, 4) && Periodic(SkippedTriple(x, a, b, c), 3, 4, 17)
    ensures !Reported(SkippedTriple(x, a, b, c))
  {
    TripleCopies(x, a, b, c);
    var w := SkippedTriple(x, a, b, c);
    forall n: nat, p: nat | 1 <= n <= 4 && p + 4 * n <= 17
      ensures !ReportedAt(w, n, p)
    {
      if n == 3 {
        if p == 0 {
          assert w[3] != w[6];
        } else {
          TripleScan(x, a, b, c, p);
        }
      } else {
        assert w[p] != w[p + n];
      }
    }
  }

  lemma TripleCopies(x: string, a: string, b: string, c: string)
    ensures CopiesAt(SkippedTriple(x, a, b, c), [a, b, c], 4, 4)
  {
    var w := SkippedTriple(x, a, b, c);
    assert w[4..7] == w[7..10] == w[10..13] == w[13..16] == [a, b, c];
    assert CopiesAt(w, [a, b, c], 1, 13);
    assert CopiesAt(w, [a, b, c], 2, 10);
    assert CopiesAt(w, [a, b, c], 3, 7);
  }

  /** For triples the scan looks at 0 and 6, and then behind the last whole copy. */
  lemma TripleScan(x: string, a: string, b: string, c: string, p: nat)
    requires Distinct(x, a, b, c) && 0 < p < 6
    ensures !Visits(SkippedTriple(x, a, b, c), 3, 0, p)
  {
    var w := SkippedTriple(x, a, b, c);
    assert w[0..3] == w[3..6] && w[6..9] == w[9..12] == w[12..15];
    assert w[3..6][0] != w[6..9][0];
    assert RunEnd(w, 3, 3) == 6;
    assert RunEnd(w, 3, 12) == 15;
    assert RunEnd(w, 3, 9) == 15;
    assert !Visits(w, 3, 15, p);
    assert !Visits(w, 3, 6, p);
  }

  function SkippedFour(x: string, a: string, b: string, c: string, d: string): seq<string> {
    [x, a, b, c, x, a, b, c, d, a, b, c, d, a, b, c, d, a, b, c, d, a, b]
  }

  lemma FourCopiesOfFourMissed(x: string, a: string, b: string, c: string, d: string)
    requires Distinct(x, a, b, c) && d !in {x, a, b, c}
    ensures CopiesAt(SkippedFour(x, a, b, c, d), [a, b, c, d], 4, 5) && Periodic(SkippedFour(x, a, b, c, d), 4, 5, 23)
    ensures !Reported(SkippedFour(x, a, b, c, d))
  {
    FourCopies(x, a, b, c, d);
    var w := SkippedFour(x, a, b, c, d);
    forall n: nat, p: nat | 1 <= n <= 4 && p + 4 * n <= 23
      ensures !ReportedAt(w, n, p)
    {
      if n == 4 {
        if p == 0 {
          assert w[4] != w[8];
        } else {
          FourScan(x, a, b, c, d, p);
        }
      } else {
        assert w[p] != w[p + n];
      }
    }
  }

  lemma FourCopies(x: string, a: string, b: string, c: string, d: string)
    ensures CopiesAt(SkippedFour(x, a, b, c, d), [a, b, c, d], 4, 5)
  {
    var w := SkippedFour(x, a, b, c, d);
    assert w[5..9] == w[9..13] == w[13..17] == w[17..21] == [a, b, c, d];
    assert CopiesAt(w, [a, b, c, d], 1, 17);
    assert CopiesAt(w, [a, b, c, d], 2, 13);
    assert CopiesAt(w, [a, b, c, d], 3, 9);
  }

  lemma FourScan(x: string, a: string, b: string, c: string, d: string, p: nat)
    requires Distinct(x, a, b, c) && d !in {x, a, b, c} && 0 < p < 8
    ensures !Visits(SkippedFour(x, a, b, c, d), 4, 0, p)
  {
    var w := SkippedFour(x, a, b, c, d);
    assert w[0..4] == w[4..8] && w[8..12] == w[12..16] == w[16..20];
    assert w[4..8][0] != w[8..12][0];
    assert RunEnd(w, 4, 4) == 8;
    assert RunEnd(w, 4, 16) == 20;
    assert RunEnd(w, 4, 12) == 20;
    assert !Visits(w, 4, 20, p);
    assert !Visits(w, 4, 8, p);
  }
}
