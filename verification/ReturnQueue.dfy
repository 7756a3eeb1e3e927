// The return channel: what agents report is collected in a file all processes share, and spoken
// as one batch, blocked questions before completions.
module ReturnQueue {
  import opened Wrappers
  import Text

  datatype Kind = BlockedQuestion | Completion | Answer | Error | Other(name: string)

  datatype Item = Item(kind: Kind, text: string, team: Option<string>, at: int)

  predicate Batchable(kind: Kind) {
    kind.BlockedQuestion? || kind.Completion?
  }

  function Tier(kind: Kind): int {
    match kind
    case BlockedQuestion => 0
    case Completion => 1
    case _ => 99
  }

  // Order in which a batch is spoken.

  datatype Key = Key(tier: int, at: int)

  function KeyOf(i: Item): Key {
    Key(Tier(i.kind), i.at)
  }

  predicate NotAfter(a: Key, b: Key) {
    a.tier < b.tier || (a.tier == b.tier && a.at <= b.at)
  }

  function Insert(s: seq<Item>, x: Item): seq<Item> {
    if s == [] || NotAfter(KeyOf(s[|s| - 1]), KeyOf(x)) then s + [x]
    else Insert(s[..|s| - 1], x) + [s[|s| - 1]]
  }

  /** Stable: items of equal rank stay in the order they had. */
  function Sorted(s: seq<Item>): seq<Item> {
    if s == [] then [] else Insert(Sorted(s[..|s| - 1]), s[|s| - 1])
  }

  ghost predicate Ordered(s: seq<Item>) {
    forall i, j :: 0 <= i < j < |s| ==> NotAfter(KeyOf(s[i]), KeyOf(s[j]))
  }

  /** The items of one rank, in order. */
  function WithKey(s: seq<Item>, k: Key): seq<Item> {
    if s == [] then [] else
      WithKey(s[..|s| - 1], k) + if KeyOf(s[|s| - 1]) == k then [s[|s| - 1]] else []
  }

  /** The same items of every rank in the same order. */
  ghost predicate SameRanks(a: seq<Item>, b: seq<Item>) {
    forall k :: WithKey(a, k) == WithKey(b, k)
  }

  function Init(s: seq<Item>): seq<Item>
    requires s != []
  {
    s[..|s| - 1]
  }

  lemma WithKeyAppend(s: seq<Item>, x: Item, k: Key)
    ensures WithKey(s + [x], k) == WithKey(s, k) + if KeyOf(x) == k then [x] else []
  {
    assert (s + [x])[..|s|] == s;
  }

  lemma {:induction false} WithKeyConcat(a: seq<Item>, b: seq<Item>, k: Key)
    ensures WithKey(a + b, k) == WithKey(a, k) + WithKey(b, k)
  {
    if b == [] {
      assert a + b == a;
    } else {
      var m := |b| - 1;
      WithKeyConcat(a, b[..m], k);
      assert a + b == (a + b[..m]) + [b[m]];
      WithKeyAppend(a + b[..m], b[m], k);
    }
  }

  lemma {:induction false} WithKeyMembers(s: seq<Item>, k: Key)
    ensures forall x :: x in WithKey(s, k) <==> x in s && KeyOf(x) == k
  {
    if s != [] {
      var m := |s| - 1;
      WithKeyMembers(s[..m], k);
      assert s == s[..m] + [s[m]];
    }
  }

  lemma {:induction false} InsertMembers(s: seq<Item>, x: Item)
    ensures multiset(Insert(s, x)) == multiset(s) + multiset{x}
    ensures forall y :: y in Insert(s, x) <==> y in s || y == x
  {
    if s != [] && !NotAfter(KeyOf(s[|s| - 1]), KeyOf(x)) {
      InsertMembers(s[..|s| - 1], x);
      assert s == s[..|s| - 1] + [s[|s| - 1]];
    }
  }

  lemma OrderedAppend(s: seq<Item>, x: Item)
    requires Ordered(s) && forall y :: y in s ==> NotAfter(KeyOf(y), KeyOf(x))
    ensures Ordered(s + [x])
  {
  }

  lemma {:induction false} InsertKeepsOrder(s: seq<Item>, x: Item)
    requires Ordered(s)
    ensures Ordered(Insert(s, x))
  {
    if s != [] && !NotAfter(KeyOf(s[|s| - 1]), KeyOf(x)) {
      var m := |s| - 1;
      InsertKeepsOrder(s[..m], x);
      InsertMembers(s[..m], x);
      OrderedAppend(Insert(s[..m], x), s[m]);
    }
  }

  lemma InitOrdered(s: seq<Item>)
    requires Ordered(s)
    ensures s != [] ==> Ordered(s[..|s| - 1])
  {
  }

  lemma {:induction false} InsertKeepsRanks(s: seq<Item>, x: Item, k: Key)
    requires Ordered(s)
    ensures WithKey(Insert(s, x), k) == WithKey(s, k) + if KeyOf(x) == k then [x] else []
  {
    hide Ordered;
    InitOrdered(s);
    if s == [] || NotAfter(KeyOf(s[|s| - 1]), KeyOf(x)) {
      WithKeyAppend(s, x, k);
    } else {
      var m := |s| - 1;
      InsertKeepsRanks(s[..m], x, k);
      WithKeyAppend(Insert(s[..m], x), s[m], k);
      assert KeyOf(x) == k ==> KeyOf(s[m]) != k;
    }
  }

  /** Sorting neither loses nor adds an item, puts tiers and then times in order, and keeps the
      order of items of one rank. */
  lemma {:induction false} SortedIsStableSort(s: seq<Item>)
    ensures multiset(Sorted(s)) == multiset(s) && Ordered(Sorted(s))
    ensures SameRanks(Sorted(s), s)
  {
    if s != [] {
      var m := |s| - 1;
      SortedIsStableSort(s[..m]);
      InsertKeepsOrder(Sorted(s[..m]), s[m]);
      InsertMembers(Sorted(s[..m]), s[m]);
      assert s == s[..m] + [s[m]];
      forall k
        ensures WithKey(Sorted(s), k) == WithKey(s, k)
      {
        assert WithKey(Sorted(s[..m]), k) == WithKey(s[..m], k);
        InsertKeepsRanks(Sorted(s[..m]), s[m], k);
      }
    }
  }

  lemma SortedMembers(s: seq<Item>)
    ensures forall x :: x in Sorted(s) <==> x in s
  {
    SortedIsStableSort(s);
    forall x
      ensures x in Sorted(s) <==> x in s
    {
      assert x in Sorted(s) <==> x in multiset(Sorted(s));
      assert x in s <==> x in multiset(s);
    }
  }

  lemma LastOfRank(a: seq<Item>, k: Key)
    requires a != [] && k == KeyOf(a[|a| - 1])
    ensures WithKey(a, k) != [] && WithKey(a, k)[|WithKey(a, k)| - 1] == a[|a| - 1]
  {
  }

  lemma LastIsGreatest(a: seq<Item>, b: seq<Item>)
    requires a != [] && b != [] && Ordered(a) && SameRanks(a, b)
    ensures NotAfter(KeyOf(b[|b| - 1]), KeyOf(a[|a| - 1]))
  {
    var x := b[|b| - 1];
    var k := KeyOf(x);
    LastOfRank(b, k);
    WithKeyMembers(a, k);
    assert x in WithKey(a, k) && x in a;
  }

  /** There is only one stable sort. */
  lemma {:induction false} StableSortUnique(a: seq<Item>, b: seq<Item>)
    requires Ordered(a) && Ordered(b) && SameRanks(a, b)
    ensures a == b
  {
    if a == [] || b == [] {
      if a != [] {
        LastOfRank(a, KeyOf(a[|a| - 1]));
      }
      if b != [] {
        LastOfRank(b, KeyOf(b[|b| - 1]));
      }
    } else {
      LastIsGreatest(a, b);
      LastIsGreatest(b, a);
      LastOfRank(a, KeyOf(a[|a| - 1]));
      LastOfRank(b, KeyOf(b[|b| - 1]));
      SameInit(a, b);
      StableSortUnique(Init(a), Init(b));
      assert a == Init(a) + [a[|a| - 1]];
      assert b == Init(b) + [b[|b| - 1]];
    }
  }

  lemma SameInit(a: seq<Item>, b: seq<Item>)
    requires a != [] && b != [] && a[|a| - 1] == b[|b| - 1] && SameRanks(a, b)
    ensures SameRanks(Init(a), Init(b))
  {
    forall k
      ensures WithKey(Init(a), k) == WithKey(Init(b), k)
    {
      assert WithKey(a, k) == WithKey(b, k);
      SameFront(WithKey(Init(a), k), WithKey(Init(b), k), a[|a| - 1]);
    }
  }

  lemma SameFront(u: seq<Item>, v: seq<Item>, x: Item)
    requires u + [x] == v + [x] || u + [] == v + []
    ensures u == v
  {
    if u + [x] == v + [x] {
      assert u == (u + [x])[..|u + [x]| - 1];
      assert v == (v + [x])[..|v + [x]| - 1];
    } else {
      assert u == u + [];
      assert v == v + [];
    }
  }

  /** Sorting a batch again, as composing its text does, changes nothing. */
  lemma SortedIdempotent(s: seq<Item>)
    ensures Sorted(Sorted(s)) == Sorted(s)
  {
    SortedIsStableSort(s);
    SortedIsStableSort(Sorted(s));
    StableSortUnique(Sorted(Sorted(s)), Sorted(s));
  }

  function InTier(s: seq<Item>, tier: int): seq<Item> {
    if s == [] then [] else
      InTier(s[..|s| - 1], tier) + if Tier(s[|s| - 1].kind) == tier then [s[|s| - 1]] else []
  }

  ghost predicate InArrivalOrder(s: seq<Item>) {
    forall i, j :: 0 <= i < j < |s| ==> s[i].at <= s[j].at
  }

  lemma {:induction false} TierMembers(s: seq<Item>, tier: int)
    ensures forall x :: x in InTier(s, tier) <==> x in s && Tier(x.kind) == tier
  {
    if s != [] {
      var m := |s| - 1;
      TierMembers(s[..m], tier);
      assert s == s[..m] + [s[m]];
    }
  }

  lemma {:induction false} TierOrdered(s: seq<Item>, tier: int)
    requires InArrivalOrder(s)
    ensures Ordered(InTier(s, tier))
  {
    if s != [] {
      var m := |s| - 1;
      TierOrdered(s[..m], tier);
      TierMembers(s[..m], tier);
      if Tier(s[m].kind) == tier {
        OrderedAppend(InTier(s[..m], tier), s[m]);
      }
    }
  }

  lemma {:induction false} TierRanks(s: seq<Item>, tier: int, k: Key)
    ensures WithKey(InTier(s, tier), k) == if k.tier == tier then WithKey(s, k) else []
  {
    if s != [] {
      var m := |s| - 1;
      TierRanks(s[..m], tier, k);
      if Tier(s[m].kind) == tier {
        WithKeyAppend(InTier(s[..m], tier), s[m], k);
      } else {
        assert InTier(s, tier) == InTier(s[..m], tier);
      }
    }
  }

  /** Of a file whose items arrived in order and are all batchable, the blocked questions are
      spoken first and then the completions, each in the order they arrived. */
  lemma TierThenArrival(s: seq<Item>)
    requires InArrivalOrder(s) && forall x :: x in s ==> Batchable(x.kind)
    ensures Sorted(s) == InTier(s, 0) + InTier(s, 1)
  {
    hide Sorted, InTier, WithKey, Ordered, Tier;
    TierOrdered(s, 0);
    TierOrdered(s, 1);
    SortedIsStableSort(s);
    TiersOrdered(s);
    forall k
      ensures WithKey(InTier(s, 0) + InTier(s, 1), k) == WithKey(Sorted(s), k)
    {
      TiersRanks(s, k);
      assert WithKey(Sorted(s), k) == WithKey(s, k);
    }
    StableSortUnique(Sorted(s), InTier(s, 0) + InTier(s, 1));
  }

  lemma TiersOrdered(s: seq<Item>)
    requires Ordered(InTier(s, 0)) && Ordered(InTier(s, 1))
    ensures Ordered(InTier(s, 0) + InTier(s, 1))
  {
    hide InTier;
    TierMembers(s, 0);
    TierMembers(s, 1);
    var a, b := InTier(s, 0), InTier(s, 1);
    forall i, j | 0 <= i < j < |a + b|
      ensures NotAfter(KeyOf((a + b)[i]), KeyOf((a + b)[j]))
    {
      assert i < |a| ==> (a + b)[i] in a;
      assert j >= |a| ==> (a + b)[j] in b;
    }
  }

  lemma TiersRanks(s: seq<Item>, k: Key)
    requires forall x :: x in s ==> Batchable(x.kind)
    ensures WithKey(InTier(s, 0) + InTier(s, 1), k) == WithKey(s, k)
  {
    hide InTier, WithKey;
    WithKeyConcat(InTier(s, 0), InTier(s, 1), k);
    TierRanks(s, 0, k);
    TierRanks(s, 1, k);
    NoOtherTier(s, k);
  }

  lemma NoOtherTier(s: seq<Item>, k: Key)
    requires forall x :: x in s ==> Batchable(x.kind)
    ensures WithKey(s, k) != [] ==> k.tier == 0 || k.tier == 1
  {
    WithKeyMembers(s, k);
    if WithKey(s, k) != [] {
      assert WithKey(s, k)[0] in WithKey(s, k);
    }
  }

  // The file and its two writers.

  datatype Identity = Identity(kind: Kind, text: string, at: int)

  function IdentityOf(i: Item): Identity {
    Identity(i.kind, i.text, i.at)
  }

  /** The items on a second reading that are not among those taken. */
  function Remaining(file: seq<Item>, taken: set<Identity>): seq<Item> {
    if file == [] then [] else
      Remaining(file[..|file| - 1], taken) + if IdentityOf(file[|file| - 1]) !in taken then [file[|file| - 1]] else []
  }

  function Identities(items: seq<Item>): set<Identity> {
    set i | i in items :: IdentityOf(i)
  }

  lemma {:induction false} AllTaken(file: seq<Item>, taken: set<Identity>)
    requires Identities(file) <= taken
    ensures Remaining(file, taken) == []
  {
    if file != [] {
      var m := |file| - 1;
      assert file == file[..m] + [file[m]];
      assert IdentityOf(file[m]) in Identities(file);
      assert Identities(file[..m]) <= Identities(file);
      AllTaken(file[..m], taken);
    }
  }

  /** As long as nobody else writes in between, a flush leaves nothing behind. */
  lemma NothingRemains(file: seq<Item>)
    ensures Remaining(file, Identities(Sorted(file))) == []
  {
    SortedMembers(file);
    AllTaken(file, Identities(Sorted(file)));
  }

  datatype Answered = Accepted | NotBatchable | EmptyText

  datatype Priority = High | Normal

  function Sentence(text: string): string {
    var t := Text.Strip(text);
    if Text.EndsWith(t, ".") || Text.EndsWith(t, "!") || Text.EndsWith(t, "?") then t else t + "."
  }

  predicate EndsSentence(t: string) {
    t != "" && t[|t| - 1] in {'.', '!', '?'}
  }

  /** The text itself if it ends like a sentence, and otherwise the text and a full stop. */
  predicate IsSentence(part: string, t: string) {
    part == (if EndsSentence(t) then t else t + ".")
  }

  lemma SentenceIs(text: string)
    ensures IsSentence(Sentence(text), Text.Strip(text))
  {
    hide Text.Strip;
    var t := Text.Strip(text);
    if t != "" {
      var last := t[|t| - 1..];
      assert last == [t[|t| - 1]];
      assert last == "." <==> t[|t| - 1] == '.';
      assert last == "!" <==> t[|t| - 1] == '!';
      assert last == "?" <==> t[|t| - 1] == '?';
    }
  }

  /** Where part k begins in the joined text. */
  function PartAt(parts: seq<string>, k: nat): nat
    requires k < |parts|
  {
    if k == 0 then 0 else |parts[0]| + 1 + PartAt(parts[1..], k - 1)
  }

  lemma StandsLater(front: string, rest: string, part: string, i: nat)
    requires Text.StandsAt(rest, part, i)
    ensures Text.StandsAt(front + rest, part, |front| + i)
  {
    assert (front + rest)[|front| + i..|front| + i + |part|] == rest[i..i + |part|];
  }

  lemma {:induction false} PartsInOrder(parts: seq<string>, k: nat)
    requires k < |parts|
    ensures Text.StandsAt(Text.Join(parts), parts[k], PartAt(parts, k))
    ensures k + 1 < |parts| ==> PartAt(parts, k) + |parts[k]| < PartAt(parts, k + 1)
  {
    hide Text.StandsAt;
    if |parts| == 1 {
      WholeStands(parts[0], "");
      assert parts[0] + "" == parts[0];
    } else {
      var rest := Text.Join(parts[1..]);
      assert Text.Join(parts) == parts[0] + (" " + rest) == (parts[0] + " ") + rest;
      if k == 0 {
        WholeStands(parts[0], " " + rest);
        assert PartAt(parts[1..], 0) == 0;
      } else {
        PartsInOrder(parts[1..], k - 1);
        StandsLater(parts[0] + " ", rest, parts[k], PartAt(parts[1..], k - 1));
      }
    }
  }

  lemma FrontStands(all: string, part: string, front: string, i: nat)
    requires Text.StandsAt(all, part, i) && |front| <= |part| && part[..|front|] == front
    ensures Text.StandsAt(all, front, i)
  {
    assert all[i..i + |part|][..|front|] == all[i..i + |front|];
  }

  lemma WholeStands(part: string, rest: string)
    ensures Text.StandsAt(part + rest, part, 0)
  {
    assert (part + rest)[0..|part|] == part;
  }

  /** Of a batch spoken as its sentences joined, the text of each item stands in the utterance whole, and
      the items one after the other. */
  lemma TextsAreSpoken(batch: seq<Item>, parts: seq<string>, k: nat)
    requires |parts| == |batch| && k < |batch|
    requires forall j :: 0 <= j < |parts| ==> IsSentence(parts[j], Text.Strip(batch[j].text))
    ensures Text.StandsAt(Text.Join(parts), Text.Strip(batch[k].text), PartAt(parts, k))
    ensures k + 1 < |batch| ==> PartAt(parts, k) + |Text.Strip(batch[k].text)| < PartAt(parts, k + 1)
  {
    hide Text.Strip, Text.Join, PartAt;
    PartsInOrder(parts, k);
    var all, t, i := Text.Join(parts), Text.Strip(batch[k].text), PartAt(parts, k);
    assert IsSentence(parts[k], t);
    assert parts[k][..|t|] == t;
    FrontStands(all, parts[k], t, i);
  }

  function Sentences(items: seq<Item>): (parts: seq<string>)
    ensures |parts| == |items| && forall i :: 0 <= i < |items| ==> parts[i] == Sentence(items[i].text)
  {
    seq(|items|, i requires 0 <= i < |items| => Sentence(items[i].text))
  }

  function Compose(items: seq<Item>): string {
    Text.Join(Sentences(Sorted(items)))
  }

  function BatchPriority(items: seq<Item>): Priority {
    if exists i :: i in items && i.kind == BlockedQuestion then High else Normal
  }

  /** The shared file, and what has been handed to the speech service. */
  class Queue {
    var file: seq<Item>
    var spoken: seq<(string, Priority)>

    constructor ()
      ensures file == [] && spoken == []
    {
      file, spoken := [], [];
    }

    method Enqueue(kind: Kind, text: string, team: Option<string>, now: int) returns (answer: Answered)
      modifies this
      ensures answer == if !Batchable(kind) then NotBatchable else if Text.Strip(text) == "" then EmptyText else Accepted
      ensures file == if answer == Accepted then old(file) + [Item(kind, Text.Strip(text), team, now)] else old(file)
      ensures spoken == old(spoken)
    {
      if !Batchable(kind) {
        return NotBatchable;
      }
      var stripped := Text.Strip(text);
      if stripped == "" {
        return EmptyText;
      }
      file := file + [Item(kind, stripped, team, now)];
      return Accepted;
    }

    /** Speaks everything as one utterance, in (tier, arrival) order, and leaves nothing behind: each
        item is a sentence of its own, its text with a full stop if it has none, and the utterance is
        urgent if and only if one of them is a blocked question. */
    method FlushNow() returns (batch: seq<Item>, ghost parts: seq<string>)
      modifies this
      ensures file == [] && batch == Sorted(old(file))
      ensures old(file) == [] ==> spoken == old(spoken)
      ensures old(file) != [] ==> |spoken| == |old(spoken)| + 1 && spoken[..|old(spoken)|] == old(spoken)
      ensures old(file) != [] ==> spoken[|old(spoken)|].0 == Text.Join(parts) && |parts| == |batch|
      ensures old(file) != [] ==> forall k :: 0 <= k < |parts| ==> IsSentence(parts[k], Text.Strip(batch[k].text))
      ensures old(file) != [] ==> (spoken[|old(spoken)|].1 == High <==> exists i :: i in old(file) && i.kind == BlockedQuestion)
    {
      var items := Sorted(file);
      parts := [];
      SortedIsStableSort(file);
      assert |items| == |multiset(items)| == |multiset(file)| == |file|;
      if items == [] {
        return [], parts;
      }
      NothingRemains(file);
      SortedIdempotent(file);
      SamePriority(file);
      parts := Sentences(items);
      forall k | 0 <= k < |parts|
        ensures IsSentence(parts[k], Text.Strip(items[k].text))
      {
        SentenceIs(items[k].text);
      }
      var taken := Identities(items);
      file := Remaining(file, taken);
      spoken := spoken + [(Compose(items), BatchPriority(items))];
      return items, parts;
    }

    /** What an agent says reaches the queue or the speech service. */
    method JarvisSay(message: string, kind: Kind, team: string, now: int) returns (ok: bool)
      modifies this
      ensures ok <==> !kind.Other? && Text.Strip(message) != ""
      ensures !ok ==> file == old(file) && spoken == old(spoken)
      ensures ok ==> 0 < |Said(message)| <= 301
      ensures ok && Batchable(kind) ==>
        file == old(file) + [Item(kind, Said(message), if team == "" then None else Some(team), now)] && spoken == old(spoken)
      ensures ok && !Batchable(kind) ==> file == old(file) && spoken == old(spoken) + [(Said(message), High)]
    {
      if kind.Other? {
        return false;
      }
      var text := Text.Strip(message);
      if text == "" {
        return false;
      }
      if |text| > 300 {
        text := Text.RightStrip(text[..300]) + ".";
      }
      SaidIsClean(message);
      var speakNow := true;
      if Batchable(kind) {
        var queued := Enqueue(kind, text, if team == "" then None else Some(team), now);
        speakNow := queued != Accepted;
      }
      if speakNow {
        spoken := spoken + [(text, if kind.Completion? then Normal else High)];
      }
      return true;
    }
  }

  /** A message as it is spoken: stripped, and cut to 300 characters and a full stop when longer. */
  function Said(message: string): string {
    var text := Text.Strip(message);
    if |text| > 300 then Text.RightStrip(text[..300]) + "." else text
  }

  /** Queueing strips the text again, which changes nothing, so the queue never refuses a message
      that was accepted for speaking. */
  lemma SaidIsClean(message: string)
    requires Text.Strip(message) != ""
    ensures 0 < |Said(message)| <= 301 && Text.Strip(Said(message)) == Said(message)
  {
    Text.StripStrips(message);
    var text := Text.Strip(message);
    if |text| > 300 {
      Text.RightStripped(text[..300]);
    }
    Text.StripStrips(Said(message));
  }

  /** A message of at most 300 characters is said as it is, stripped; of a longer one the first 300
      characters are said, without white space at their end, and a full stop. */
  lemma SaidMeaning(message: string)
    ensures var text, said := Text.Strip(message), Said(message);
      if |text| <= 300 then said == text
      else
        && 1 <= |said| <= 301 && said[|said| - 1] == '.' && said[..|said| - 1] == text[..|said| - 1]
        && Text.AllSpace(text[|said| - 1..300])
        && (|said| > 1 ==> !Text.IsSpace(said[|said| - 2]))
  {
    hide Text.Strip, Text.RightStrip;
    var text := Text.Strip(message);
    if |text| > 300 {
      var right := Text.RightStripDrops(text[..300]);
      Text.RightStripped(text[..300]);
      assert text[|Said(message)| - 1..300] == text[..300][|Said(message)| - 1..] == right;
    }
  }

  lemma SamePriority(file: seq<Item>)
    ensures BatchPriority(Sorted(file)) == BatchPriority(file)
  {
    SortedMembers(file);
  }
}
