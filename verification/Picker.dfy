// The picker of a blocked session: reading its question and options off the screen, and choosing
// the option a spoken answer means.
module Picker {
  import opened Wrappers
  import Text
  import PaneStates

  const BOX: char := '\U{2610}'
  const TYPE_SOMETHING := "Type something."

  datatype Question = Question(question: string, options: seq<string>)

  predicate IsLabel(line: string) {
    var l := Text.LeftStrip(line);
    |l| >= 2 && l[0] == BOX && Text.IsSpace(l[1]) && Text.LeftStrip(l[1..]) != ""
  }

  predicate IsDigit(c: char) {
    '0' <= c <= '9'
  }

  function SkipDigits(s: string): string {
    if s != "" && IsDigit(s[0]) then SkipDigits(s[1..]) else s
  }

  /** The line without its indentation and the cursor in front of it. */
  function AfterCursor(line: string): string {
    var l := Text.LeftStrip(line);
    if l != "" && l[0] == PaneStates.GLYPH then Text.LeftStrip(l[1..]) else l
  }

  /** What stands behind the number of a numbered line. */
  function NumberedText(line: string): Option<string> {
    var l := AfterCursor(line);
    var r := SkipDigits(l);
    if |r| < |l| && |r| >= 2 && r[0] == '.' && Text.IsSpace(r[1]) && Text.Strip(r[1..]) != ""
    then Some(Text.Strip(r[1..])) else None
  }

  predicate IsBlank(line: string) {
    Text.Strip(line) == ""
  }

  function RightStripAll(lines: seq<string>): (ls: seq<string>)
    ensures |ls| == |lines| && forall i :: 0 <= i < |lines| ==> ls[i] == Text.RightStrip(lines[i])
  {
    seq(|lines|, i requires 0 <= i < |lines| => Text.RightStrip(lines[i]))
  }

  /** The lines below the first label, if there is one. */
  function BelowLabel(lines: seq<string>): Option<seq<string>> {
    if lines == [] then None else if IsLabel(lines[0]) then Some(lines[1..]) else BelowLabel(lines[1..])
  }

  function FirstNonBlank(lines: seq<string>): Option<string> {
    if lines == [] then None else if IsBlank(lines[0]) then FirstNonBlank(lines[1..]) else Some(lines[0])
  }

  /** The texts of the numbered lines, up to the one that offers free text. */
  function Collect(lines: seq<string>): seq<string> {
    if lines == [] then []
    else
      match NumberedText(lines[0])
      case None => Collect(lines[1..])
      case Some(text) => if text == TYPE_SOMETHING then [] else [text] + Collect(lines[1..])
  }

  function ParseLines(lines: seq<string>): Option<Question> {
    match BelowLabel(lines)
    case None => None
    case Some(below) =>
      match FirstNonBlank(below)
      case None => None
      case Some(line) =>
        if NumberedText(line) != None || IsBlank(line) then None else Some(Question(Text.Strip(line), Collect(below)))
  }

  function Parse(text: string): Option<Question> {
    ParseLines(RightStripAll(PaneStates.Lines(text)))
  }

  method ParseBlockedQuestion(text: string) returns (r: Option<Question>)
    ensures r == Parse(text)
  {
    hide IsLabel, IsBlank, NumberedText, Collect;
    var lines := RightStripAll(PaneStates.Lines(text));
    var labelIdx := 0;
    while labelIdx < |lines| && !IsLabel(lines[labelIdx])
      invariant 0 <= labelIdx <= |lines| && BelowLabel(lines) == BelowLabel(lines[labelIdx..])
    {
      assert lines[labelIdx..][1..] == lines[labelIdx + 1..];
      labelIdx := labelIdx + 1;
    }
    if labelIdx == |lines| {
      return None;
    }
    var below := lines[labelIdx + 1..];
    assert lines[labelIdx..][1..] == below;
    var line := NextNonBlank(below);
    if line == None || NumberedText(line.value) != None || IsBlank(line.value) {
      return None;
    }
    var options := CollectOptions(below);
    return Some(Question(Text.Strip(line.value), options));
  }

  method NextNonBlank(lines: seq<string>) returns (r: Option<string>)
    ensures r == FirstNonBlank(lines)
  {
    hide IsBlank;
    for i := 0 to |lines|
      invariant FirstNonBlank(lines) == FirstNonBlank(lines[i..])
    {
      if !IsBlank(lines[i]) {
        return Some(lines[i]);
      }
      assert lines[i..][1..] == lines[i + 1..];
    }
    return None;
  }

  method CollectOptions(lines: seq<string>) returns (options: seq<string>)
    ensures options == Collect(lines)
  {
    hide NumberedText;
    options := [];
    for i := 0 to |lines|
      invariant Collect(lines) == options + Collect(lines[i..])
    {
      assert lines[i..][1..] == lines[i + 1..];
      var found := NumberedText(lines[i]);
      if found != None {
        if found.value == TYPE_SOMETHING {
          return;
        }
        options := options + [found.value];
      }
    }
  }

  // A picker as it is drawn.

  /** An option with the unnumbered lines that describe it; the cursor stands before one of them. */
  datatype Choice = Choice(text: string, selected: bool, description: seq<string>)

  datatype Shown = Shown(above: seq<string>, heading: string, question: string, choices: seq<Choice>, below: seq<string>)

  predicate IsText(s: string) {
    s != "" && Text.IsStripped(s)
  }

  predicate Unnumbered(lines: seq<string>) {
    forall l :: l in lines ==> NumberedText(Text.RightStrip(l)) == None
  }

  /** No line offers free text, as the one behind the last choice does. */
  predicate OffersNoText(lines: seq<string>) {
    forall l :: l in lines ==> NumberedText(Text.RightStrip(l)) != Some(TYPE_SOMETHING)
  }

  predicate Drawn(p: Shown) {
    && (forall l :: l in p.above ==> !IsLabel(Text.RightStrip(l)))
    && IsText(p.heading) && IsText(p.question) && NumberedText(p.question) == None
    && (forall c :: c in p.choices ==> IsText(c.text) && c.text != TYPE_SOMETHING && OffersNoText(c.description))
  }

  /** Drawn with no number before a line of a description. */
  predicate WellFormed(p: Shown) {
    Drawn(p) && forall c :: c in p.choices ==> Unnumbered(c.description)
  }

  function NumberedLine(selected: bool, n: nat, text: string): string {
    (if selected then [PaneStates.GLYPH] + " " else "  ") + (Text.Decimal(n) + (". " + text))
  }

  /** The choices from number k + 1 on. */
  function RenderChoices(choices: seq<Choice>, k: nat): seq<string>
    requires k <= |choices|
    decreases |choices| - k
  {
    if k == |choices| then []
    else [NumberedLine(choices[k].selected, k + 1, choices[k].text)] + (choices[k].description + RenderChoices(choices, k + 1))
  }

  function Tail(p: Shown): seq<string> {
    [NumberedLine(false, |p.choices| + 1, TYPE_SOMETHING), "", NumberedLine(false, |p.choices| + 2, "Chat about this")] + p.below
  }

  function Render(p: Shown): seq<string> {
    p.above + ([[BOX] + " " + p.heading] + (["", p.question, ""] + (RenderChoices(p.choices, 0) + Tail(p))))
  }

  function Texts(choices: seq<Choice>, k: nat): seq<string>
    requires k <= |choices|
    decreases |choices| - k
  {
    if k == |choices| then [] else [choices[k].text] + Texts(choices, k + 1)
  }

  /** The texts of the numbered lines among these. */
  function NumberedTexts(lines: seq<string>): seq<string> {
    if lines == [] then []
    else
      (match NumberedText(Text.RightStrip(lines[0])) case None => [] case Some(text) => [text]) + NumberedTexts(lines[1..])
  }

  /** Every choice's text, each followed by the numbered lines of its description. */
  function WithDescriptions(choices: seq<Choice>, k: nat): seq<string>
    requires k <= |choices|
    decreases |choices| - k
  {
    if k == |choices| then []
    else [choices[k].text] + (NumberedTexts(choices[k].description) + WithDescriptions(choices, k + 1))
  }

  // Reading undoes drawing.

  lemma {:induction false} DecimalDigits(n: nat, rest: string)
    requires rest != "" && !IsDigit(rest[0])
    ensures SkipDigits(Text.Decimal(n) + rest) == rest && Text.Decimal(n) != "" && IsDigit(Text.Decimal(n)[0])
    decreases n
  {
    if n >= 10 {
      var last := [(n % 10 + 48) as char] + rest;
      DigitsThen(Text.Decimal(n / 10), last, n / 10);
      assert Text.Decimal(n) + rest == Text.Decimal(n / 10) + last;
      assert last[1..] == rest;
    } else {
      assert (Text.Decimal(n) + rest)[1..] == rest;
    }
  }

  /** Digits in front are skipped, whatever follows. */
  lemma {:induction false} DigitsThen(ds: string, rest: string, n: nat)
    requires ds == Text.Decimal(n)
    ensures SkipDigits(ds + rest) == SkipDigits(rest) && ds != "" && IsDigit(ds[0])
    decreases n
  {
    if n >= 10 {
      var last := [(n % 10 + 48) as char];
      DigitsThen(Text.Decimal(n / 10), last + rest, n / 10);
      assert ds + rest == Text.Decimal(n / 10) + (last + rest);
      assert (last + rest)[1..] == rest;
    } else {
      assert (ds + rest)[1..] == rest;
    }
  }

  lemma StripOfText(s: string)
    requires IsText(s)
    ensures Text.LeftStrip(s) == s && Text.RightStrip(s) == s && Text.Strip(s) == s
    ensures Text.LeftStrip(" " + s) == s && Text.Strip(" " + s) == s && Text.LeftStrip("  " + s) == s
  {
    assert (" " + s)[1..] == s && ("  " + s)[1..] == " " + s;
  }

  lemma RightStripKeeps(prefix: string, s: string)
    requires IsText(s)
    ensures Text.RightStrip(prefix + s) == prefix + s
  {
    assert (prefix + s)[|prefix + s| - 1] == s[|s| - 1];
  }

  /** Without indentation and cursor, a numbered line starts with its number. */
  lemma NumberedLineStarts(selected: bool, n: nat, text: string)
    requires IsText(text)
    ensures AfterCursor(NumberedLine(selected, n, text)) == Text.Decimal(n) + (". " + text)
    ensures SkipDigits(Text.Decimal(n) + (". " + text)) == ". " + text && Text.Decimal(n) != ""
  {
    hide Text.Decimal, SkipDigits, Text.RightStrip, Text.LeftStrip;
    var line, rest, ds := NumberedLine(selected, n, text), ". " + text, Text.Decimal(n);
    DecimalDigits(n, rest);
    assert IsText(ds + rest) by {
      assert (ds + rest)[|ds + rest| - 1] == text[|text| - 1];
    }
    StripOfText(ds + rest);
    if selected {
      assert IsText(line) by {
        assert line[|line| - 1] == text[|text| - 1];
      }
      StripOfText(line);
      assert line[1..] == " " + (ds + rest);
    } else {
      assert line == "  " + (ds + rest);
      assert ds[0] != PaneStates.GLYPH;
    }
  }

  /** A numbered line is read as its text. */
  lemma NumberedLineReads(selected: bool, n: nat, text: string)
    requires IsText(text)
    ensures Text.RightStrip(NumberedLine(selected, n, text)) == NumberedLine(selected, n, text)
    ensures NumberedText(NumberedLine(selected, n, text)) == Some(text)
  {
    hide Text.Decimal, SkipDigits, Text.RightStrip, Text.LeftStrip, AfterCursor;
    var prefix := if selected then [PaneStates.GLYPH] + " " else "  ";
    RightStripKeeps(prefix + Text.Decimal(n) + ". ", text);
    assert NumberedLine(selected, n, text) == (prefix + Text.Decimal(n) + ". ") + text;
    NumberedLineStarts(selected, n, text);
    StripOfText(text);
    assert (". " + text)[1..] == " " + text;
  }

  lemma {:induction false} CollectSkips(lines: seq<string>, rest: seq<string>)
    requires forall l :: l in lines ==> NumberedText(l) == None
    ensures Collect(lines + rest) == Collect(rest)
  {
    hide NumberedText;
    if lines == [] {
      assert lines + rest == rest;
    } else {
      CollectSkips(lines[1..], rest);
      assert (lines + rest)[0] == lines[0] && (lines + rest)[1..] == lines[1..] + rest;
    }
  }

  lemma RightStripConcat(a: seq<string>, b: seq<string>)
    ensures RightStripAll(a + b) == RightStripAll(a) + RightStripAll(b)
  {
  }

  lemma {:induction false} CollectPasses(lines: seq<string>, rest: seq<string>)
    requires OffersNoText(lines)
    ensures Collect(RightStripAll(lines) + rest) == NumberedTexts(lines) + Collect(rest)
  {
    hide NumberedText, Text.RightStrip;
    if lines == [] {
      assert RightStripAll(lines) + rest == rest;
      assert [] + Collect(rest) == Collect(rest);
    } else {
      assert lines[0] in lines;
      var all := RightStripAll(lines) + rest;
      assert all[0] == Text.RightStrip(lines[0]) && all[1..] == RightStripAll(lines[1..]) + rest;
      CollectPasses(lines[1..], rest);
    }
  }

  lemma CollectNumbered(line: string, rest: seq<string>, text: string)
    requires NumberedText(line) == Some(text)
    ensures Collect([line] + rest) == if text == TYPE_SOMETHING then [] else [text] + Collect(rest)
  {
    assert ([line] + rest)[1..] == rest;
  }

  lemma {:induction false} ChoicesCollected(p: Shown, k: nat)
    requires Drawn(p) && k <= |p.choices|
    ensures Collect(RightStripAll(RenderChoices(p.choices, k) + Tail(p))) == WithDescriptions(p.choices, k)
    decreases |p.choices| - k
  {
    hide NumberedText, NumberedLine, Text.RightStrip, Collect, IsText, OffersNoText, NumberedTexts;
    if k == |p.choices| {
      TailCollected(p);
      assert RenderChoices(p.choices, k) + Tail(p) == Tail(p);
    } else {
      var c := p.choices[k];
      assert c in p.choices;
      var line, rest := NumberedLine(c.selected, k + 1, c.text), RenderChoices(p.choices, k + 1) + Tail(p);
      NumberedLineReads(c.selected, k + 1, c.text);
      ChoicesCollected(p, k + 1);
      assert RenderChoices(p.choices, k) + Tail(p) == [line] + (c.description + rest);
      RightStripConcat([line], c.description + rest);
      RightStripConcat(c.description, rest);
      CollectPasses(c.description, RightStripAll(rest));
      assert RightStripAll([line]) == [line];
      CollectNumbered(line, RightStripAll(c.description) + RightStripAll(rest), c.text);
    }
  }

  lemma TailCollected(p: Shown)
    ensures Collect(RightStripAll(Tail(p))) == []
  {
    hide NumberedText, NumberedLine, Text.RightStrip;
    assert TYPE_SOMETHING[0] == 'T' && TYPE_SOMETHING[|TYPE_SOMETHING| - 1] == '.';
    NumberedLineReads(false, |p.choices| + 1, TYPE_SOMETHING);
  }

  lemma {:induction false} LabelFound(above: seq<string>, heading: string, below: seq<string>)
    requires forall l :: l in above ==> !IsLabel(l)
    requires IsLabel(heading)
    ensures BelowLabel(above + ([heading] + below)) == Some(below)
  {
    hide IsLabel;
    var all := above + ([heading] + below);
    if above == [] {
      assert all[0] == heading && all[1..] == below;
    } else {
      LabelFound(above[1..], heading, below);
      assert all[0] == above[0] && all[1..] == above[1..] + ([heading] + below);
    }
  }

  lemma LabelReads(heading: string)
    requires IsText(heading)
    ensures Text.RightStrip([BOX] + " " + heading) == [BOX] + " " + heading && IsLabel([BOX] + " " + heading)
  {
    hide Text.RightStrip, Text.LeftStrip;
    var line := [BOX] + " " + heading;
    RightStripKeeps([BOX] + " ", heading);
    assert IsText(line) by {
      assert line[0] == BOX && line[|line| - 1] == heading[|heading| - 1];
    }
    StripOfText(line);
    StripOfText(heading);
    assert line[1..] == " " + heading;
  }

  lemma QuestionFound(question: string, rest: seq<string>)
    requires IsText(question) && NumberedText(question) == None
    ensures FirstNonBlank(["", question, ""] + rest) == Some(question) && !IsBlank(question)
    ensures Collect(["", question, ""] + rest) == Collect(rest)
  {
    hide NumberedText, Collect, Text.RightStrip;
    StripOfText(question);
    EmptyLine();
    var lines := ["", question, ""] + rest;
    assert lines[1..][0] == question;
    CollectSkips(["", question, ""], rest);
  }

  lemma EmptyLine()
    ensures NumberedText("") == None && IsBlank("") && Text.RightStrip("") == ""
  {
  }

  /** Reading a drawn picker gives its question, and its options with the numbered lines of their
      descriptions among them. */
  lemma RenderReads(p: Shown)
    requires Drawn(p)
    ensures ParseLines(RightStripAll(Render(p))) == Some(Question(p.question, WithDescriptions(p.choices, 0)))
  {
    hide NumberedText, Collect, FirstNonBlank, BelowLabel, IsLabel, Text.RightStrip, Text.Strip, RenderChoices, Tail, IsText, IsBlank;
    var heading, head := [BOX] + " " + p.heading, ["", p.question, ""];
    var rest := RenderChoices(p.choices, 0) + Tail(p);
    LabelReads(p.heading);
    StripOfText(p.question);
    EmptyLine();
    RightStripConcat(p.above, [heading] + (head + rest));
    RightStripConcat([heading], head + rest);
    RightStripConcat(head, rest);
    assert RightStripAll([heading]) == [heading] && RightStripAll(head) == head;
    AboveStripped(p.above);
    LabelFound(RightStripAll(p.above), heading, head + RightStripAll(rest));
    QuestionFound(p.question, RightStripAll(rest));
    ChoicesCollected(p, 0);
  }

  lemma {:induction false} CountNumbered(lines: seq<string>)
    ensures NumberedTexts(lines) == [] <==> Unnumbered(lines)
  {
    hide NumberedText, Text.RightStrip;
    if lines != [] {
      CountNumbered(lines[1..]);
      assert lines[0] in lines && forall l :: l in lines[1..] ==> l in lines;
      assert forall l :: l in lines ==> l == lines[0] || l in lines[1..];
    }
  }

  lemma {:induction false} DescriptionsAdd(choices: seq<Choice>, k: nat)
    requires k <= |choices|
    ensures |WithDescriptions(choices, k)| >= |Texts(choices, k)|
    ensures WithDescriptions(choices, k) == Texts(choices, k) <==> forall i :: k <= i < |choices| ==> Unnumbered(choices[i].description)
    ensures |WithDescriptions(choices, k)| == |Texts(choices, k)| ==> WithDescriptions(choices, k) == Texts(choices, k)
    decreases |choices| - k
  {
    hide Unnumbered, NumberedTexts;
    if k < |choices| {
      DescriptionsAdd(choices, k + 1);
      CountNumbered(choices[k].description);
      var c, rest, texts := choices[k], WithDescriptions(choices, k + 1), Texts(choices, k + 1);
      assert WithDescriptions(choices, k) == [c.text] + (NumberedTexts(c.description) + rest);
      if NumberedTexts(c.description) == [] {
        assert NumberedTexts(c.description) + rest == rest;
        SameBehind(c.text, rest, texts);
      }
    }
  }

  lemma SameBehind(x: string, a: seq<string>, b: seq<string>)
    ensures [x] + a == [x] + b <==> a == b
  {
    assert ([x] + a)[1..] == a && ([x] + b)[1..] == b;
  }

  /** Reading a drawn picker gives exactly its question and its options, in order, if and only if no
      line of a description is numbered. */
  lemma ParseUndoesRender(p: Shown)
    requires Drawn(p)
    ensures ParseLines(RightStripAll(Render(p))) == Some(Question(p.question, Texts(p.choices, 0))) <==> WellFormed(p)
  {
    hide Drawn, ParseLines, Render, Unnumbered, WithDescriptions, Texts;
    RenderReads(p);
    DescriptionsAdd(p.choices, 0);
    assert (forall c :: c in p.choices ==> Unnumbered(c.description)) <==> forall i :: 0 <= i < |p.choices| ==> Unnumbered(p.choices[i].description);
  }

  lemma AboveStripped(above: seq<string>)
    requires forall l :: l in above ==> !IsLabel(Text.RightStrip(l))
    ensures forall l :: l in RightStripAll(above) ==> !IsLabel(l)
  {
    hide IsLabel, Text.RightStrip;
    var rs := RightStripAll(above);
    forall l | l in rs
      ensures !IsLabel(l)
    {
      var i :| 0 <= i < |rs| && rs[i] == l;
      assert above[i] in above;
    }
  }

  lemma {:induction false} LinesOfLine(l: string, rest: string)
    requires '\n' !in l
    ensures PaneStates.Lines(l) == [l] && PaneStates.Lines(l + ("\n" + rest)) == [l] + PaneStates.Lines(rest)
  {
    var all := l + ("\n" + rest);
    if l == "" {
      assert all == "\n" + rest && all[1..] == rest;
    } else {
      LinesOfLine(l[1..], rest);
      assert all[1..] == l[1..] + ("\n" + rest);
      assert [l[0]] + l[1..] == l;
    }
  }

  /** Splitting a screen undoes joining its lines. */
  lemma {:induction false} LinesOfJoined(ls: seq<string>)
    requires ls != [] && forall l :: l in ls ==> '\n' !in l
    ensures PaneStates.Lines(PaneStates.JoinLines(ls)) == ls
  {
    var rest := PaneStates.JoinLines(ls[1..]);
    LinesOfLine(ls[0], rest);
    if |ls| > 1 {
      LinesOfJoined(ls[1..]);
      assert ls[0] + "\n" + rest == ls[0] + ("\n" + rest);
      assert [ls[0]] + ls[1..] == ls;
    }
  }

  /** So it is with the whole screen as one text. */
  lemma ScreenReads(p: Shown)
    requires Drawn(p) && forall l :: l in Render(p) ==> '\n' !in l
    ensures Parse(PaneStates.JoinLines(Render(p))) == Some(Question(p.question, Texts(p.choices, 0))) <==> WellFormed(p)
  {
    hide ParseLines, Render, WellFormed, Drawn;
    assert Render(p) != [] by {
      RenderNotEmpty(p);
    }
    LinesOfJoined(Render(p));
    ParseUndoesRender(p);
  }

  lemma RenderNotEmpty(p: Shown)
    ensures Render(p) != []
  {
  }

  lemma {:induction false} TextAt(choices: seq<Choice>, k: nat, i: nat)
    requires k <= i < |choices|
    ensures |Texts(choices, k)| == |choices| - k && Texts(choices, k)[i - k] == choices[i].text
    decreases i - k
  {
    TextsCount(choices, k);
    if k < i {
      TextAt(choices, k + 1, i);
    }
  }

  lemma {:induction false} TextsCount(choices: seq<Choice>, k: nat)
    requires k <= |choices|
    ensures |Texts(choices, k)| == |choices| - k
    decreases |choices| - k
  {
    if k < |choices| {
      TextsCount(choices, k + 1);
    }
  }

  // Numbers beside options. The reading counts numbered lines and ignores the numbers they show.

  function LeadingDigits(s: string): string {
    if s != "" && IsDigit(s[0]) then [s[0]] + LeadingDigits(s[1..]) else ""
  }

  /** The number a numbered line shows. */
  function NumberShown(line: string): string {
    LeadingDigits(AfterCursor(line))
  }

  lemma {:induction false} LeadingOfDecimal(n: nat, rest: string)
    ensures LeadingDigits(Text.Decimal(n) + rest) == Text.Decimal(n) + LeadingDigits(rest)
    decreases n
  {
    var ds := Text.Decimal(n);
    if n >= 10 {
      var last := [(n % 10 + 48) as char];
      LeadingOfDecimal(n / 10, last + rest);
      assert ds + rest == Text.Decimal(n / 10) + (last + rest);
      assert (last + rest)[1..] == rest;
      assert Text.Decimal(n / 10) + (last + LeadingDigits(rest)) == ds + LeadingDigits(rest);
    } else {
      assert (ds + rest)[1..] == rest;
    }
  }

  /** The line of a choice shows the choice's number. */
  lemma ChoiceShowsNumber(selected: bool, n: nat, text: string)
    requires IsText(text)
    ensures NumberShown(NumberedLine(selected, n, text)) == Text.Decimal(n)
  {
    hide Text.Decimal, LeadingDigits, Text.LeftStrip;
    NumberedLineStarts(selected, n, text);
    LeadingOfDecimal(n, ". " + text);
    NoDigitsInDot(text);
    assert Text.Decimal(n) + "" == Text.Decimal(n);
  }

  lemma NoDigitsInDot(text: string)
    ensures LeadingDigits(". " + text) == ""
  {
  }

  /** Different numbers are printed differently. */
  lemma {:induction false} DecimalInjective(m: nat, n: nat)
    requires Text.Decimal(m) == Text.Decimal(n)
    ensures m == n
  {
    var a, b := Text.Decimal(m), Text.Decimal(n);
    assert a[|a| - 1] == (m % 10 + 48) as char && b[|b| - 1] == (n % 10 + 48) as char;
    DecimalNotEmpty(m / 10);
    DecimalNotEmpty(n / 10);
    if m >= 10 && n >= 10 {
      assert a[..|a| - 1] == Text.Decimal(m / 10) && b[..|b| - 1] == Text.Decimal(n / 10);
      DecimalInjective(m / 10, n / 10);
    }
  }

  lemma DecimalNotEmpty(n: nat)
    ensures Text.Decimal(n) != ""
  {
  }

  /** A description line that is numbered itself is read as an option, so that the options after it
      are no longer where their numbers say: here b is read third but shows 2. */
  lemma NumberedDescriptionShifts(p: Shown, a: string, d: string, b: string)
    requires IsText(a) && IsText(d) && IsText(b) && TYPE_SOMETHING !in {a, d, b}
    requires p.choices == [Choice(a, true, [NumberedLine(false, 1, d)]), Choice(b, false, [])]
    ensures Collect(RightStripAll(RenderChoices(p.choices, 0) + Tail(p))) == [a, d, b]
    ensures RenderChoices(p.choices, 0) == [NumberedLine(true, 1, a), NumberedLine(false, 1, d), NumberedLine(false, 2, b)]
    ensures NumberShown(NumberedLine(false, 2, b)) == "2"
  {
    hide NumberedText, Text.RightStrip, IsText, Tail, NumberedLine, Collect;
    var x, y, z := NumberedLine(true, 1, a), NumberedLine(false, 1, d), NumberedLine(false, 2, b);
    NumberedLineReads(true, 1, a);
    NumberedLineReads(false, 1, d);
    NumberedLineReads(false, 2, b);
    ChoiceShowsNumber(false, 2, b);
    TailCollected(p);
    assert RenderChoices(p.choices, 2) == [];
    assert RenderChoices(p.choices, 1) == [z];
    assert RenderChoices(p.choices, 0) == [x, y, z];
    var tail := RightStripAll(Tail(p));
    RightStripConcat([x, y, z], Tail(p));
    assert RightStripAll([x, y, z]) == [x, y, z];
    assert [x, y, z] + tail == [x] + ([y] + ([z] + tail));
    CollectNumbered(z, tail, b);
    CollectNumbered(y, [z] + tail, d);
    CollectNumbered(x, [y] + ([z] + tail), a);
  }
}

// Answering a blocked session with what was said.
module BlockedAnswer {
  import opened Wrappers
  import opened Transport
  import opened Keystrokes
  import PaneStates
  import Picker
  import Text

  function Norm(s: string): string {
    Text.Join(Text.Tokens(Text.LowerAll(Text.Strip(s))))
  }

  /** One contains the other, and the shorter has at least three characters. */
  predicate Matches(answer: string, option: string) {
    var a, o := Norm(answer), Norm(option);
    a != "" && o != "" && |a| >= 3 && |o| >= 3 && (Text.Contains(a, o) || Text.Contains(o, a))
  }

  /** The numbers of the first n options that the answer matches. */
  function Matching(answer: string, options: seq<string>, n: nat): seq<nat>
    requires n <= |options|
  {
    if n == 0 then []
    else Matching(answer, options, n - 1) + if Matches(answer, options[n - 1]) then [n] else []
  }

  function TheMatch(answer: string, options: seq<string>): Option<nat> {
    var ms := Matching(answer, options, |options|);
    if |ms| == 1 then Some(ms[0]) else None
  }

  predicate OnlyMatch(answer: string, options: seq<string>, i: nat) {
    i < |options| && Matches(answer, options[i]) && forall j :: 0 <= j < |options| && Matches(answer, options[j]) ==> j == i
  }

  lemma {:induction false} MatchingMeaning(answer: string, options: seq<string>, n: nat)
    requires n <= |options|
    ensures forall m :: m in Matching(answer, options, n) <==> 1 <= m <= n && Matches(answer, options[m - 1])
    ensures Increasing(Matching(answer, options, n))
  {
    hide Matches;
    if n > 0 {
      MatchingMeaning(answer, options, n - 1);
      var before, ms := Matching(answer, options, n - 1), Matching(answer, options, n);
      if Matches(answer, options[n - 1]) {
        assert ms == before + [n];
        assert forall m :: m in ms <==> m in before || m == n;
        assert forall k :: 0 <= k < |before| ==> before[k] in before;
      } else {
        assert ms == before;
      }
    }
  }

  ghost predicate Increasing(ms: seq<nat>) {
    forall k, l :: 0 <= k < l < |ms| ==> ms[k] < ms[l]
  }

  lemma InOrder(ms: seq<nat>, k: nat, l: nat)
    requires Increasing(ms) && k < l < |ms|
    ensures ms[k] in ms && ms[l] in ms && ms[k] < ms[l]
  {
  }

  /** Increasing numbers that are all n are just n. */
  lemma JustOne(ms: seq<nat>, n: nat)
    requires Increasing(ms) && n in ms && (forall m :: m in ms ==> m == n)
    ensures ms == [n]
  {
    hide Increasing;
    if |ms| > 1 {
      InOrder(ms, 0, 1);
      assert false;
    }
  }

  /** An option is chosen if and only if it is the one and only match. */
  lemma TheMatchMeaning(answer: string, options: seq<string>, n: nat)
    requires 1 <= n <= |options|
    ensures TheMatch(answer, options) == Some(n) <==> OnlyMatch(answer, options, n - 1)
  {
    hide Matches, Matching;
    var ms := Matching(answer, options, |options|);
    MatchingMeaning(answer, options, |options|);
    if OnlyMatch(answer, options, n - 1) {
      JustOne(ms, n);
    } else if TheMatch(answer, options) == Some(n) {
      assert ms == [n];
      assert n in ms;
      forall j: nat | j < |options| && Matches(answer, options[j])
        ensures j == n - 1
      {
        assert j + 1 in ms;
      }
    }
  }

  method MatchOption(answer: string, options: seq<string>) returns (r: Option<nat>)
    ensures r == TheMatch(answer, options)
  {
    hide Norm, Text.Contains;
    var answerNorm := Norm(answer);
    var matches: seq<nat> := [];
    for i := 0 to |options|
      invariant matches == Matching(answer, options, i)
    {
      var optNorm := Norm(options[i]);
      if optNorm != "" && answerNorm != "" {
        var shorter := if |optNorm| <= |answerNorm| then optNorm else answerNorm;
        if |shorter| >= 3 && (Text.Contains(answerNorm, optNorm) || Text.Contains(optNorm, answerNorm)) {
          matches := matches + [i + 1];
        }
      }
    }
    return if |matches| == 1 then Some(matches[0]) else None;
  }

  /** What a picker does with a key string: the first digit selects at once. */
  predicate Selects(keys: string, i: nat) {
    keys != "" && keys[0] as int == i + 48
  }

  lemma {:induction false} FirstDigit(n: nat)
    requires n >= 1
    ensures Text.Decimal(n) != "" && 49 <= Text.Decimal(n)[0] as int <= 57
    ensures n >= 10 ==> Text.Decimal(n)[0] as int - 48 < n
  {
    if n >= 10 {
      FirstDigit(n / 10);
      assert Text.Decimal(n)[0] == Text.Decimal(n / 10)[0];
    }
  }

  /** The key string sent for option n selects option n exactly when n is at most 9. */
  lemma KeySelectsOption(n: nat)
    requires n >= 1
    ensures Selects(Text.Decimal(n), n) <==> n <= 9
  {
    FirstDigit(n);
  }

  /** Does the line of choice k of a picker show this number? */
  predicate Shows(p: Picker.Shown, k: nat, number: string) {
    1 <= k <= |p.choices| && Picker.NumberShown(Picker.NumberedLine(p.choices[k - 1].selected, k, p.choices[k - 1].text)) == number
  }

  /** For a well-formed picker, the key sent for an answer is the number shown beside the only
      choice that matches it, and beside no other choice. */
  lemma KeyIsNumberShown(p: Picker.Shown, answer: string, n: nat)
    requires Picker.WellFormed(p) && 1 <= n <= |p.choices|
    requires TheMatch(answer, Picker.Texts(p.choices, 0)) == Some(n)
    ensures Matches(answer, p.choices[n - 1].text)
    ensures forall k: nat :: Shows(p, k, Text.Decimal(n)) <==> k == n
  {
    hide Matches, TheMatch, Text.Decimal, Picker.NumberShown, Picker.NumberedLine, Picker.Texts, Picker.IsText;
    Picker.TextAt(p.choices, 0, n - 1);
    TheMatchMeaning(answer, Picker.Texts(p.choices, 0), n);
    forall k: nat
      ensures Shows(p, k, Text.Decimal(n)) <==> k == n
    {
      if 1 <= k <= |p.choices| {
        var c := p.choices[k - 1];
        assert c in p.choices;
        Picker.ChoiceShowsNumber(c.selected, k, c.text);
        if Text.Decimal(k) == Text.Decimal(n) {
          Picker.DecimalInjective(k, n);
        }
      }
    }
  }

  // The record of blocked sessions.

  datatype Episode = Episode(question: string, options: seq<string>, since: int, surfaced: bool)

  /** A session's team and terminal, from the registry; an empty tmux name is a missing one. */
  datatype Member = Member(team: string, tmux: string)

  /** The registry and the terminals at one moment. */
  datatype Fleet = Fleet(members: map<string, Member>, alive: string -> bool)

  predicate IsLive(fleet: Fleet, session: string) {
    session in fleet.members && fleet.members[session].tmux != "" && fleet.alive(fleet.members[session].tmux)
  }

  function Pending(state: map<string, Episode>, fleet: Fleet): map<string, Episode> {
    map s | s in state && IsLive(fleet, s) :: state[s]
  }

  function Addressed(pending: map<string, Episode>, fleet: Fleet, target: string): map<string, Episode> {
    if target == "" then pending
    else
      var name := Text.LowerAll(Text.Strip(target));
      map s | s in pending && s in fleet.members &&
        (Text.LowerAll(fleet.members[s].team) == name || Text.LowerAll(fleet.members[s].tmux) == name) :: pending[s]
  }

  datatype Answered = NotSent | Sent(session: string, option: nat, delivery: DeliveryResult)

  /** The three operations on the record. */
  datatype Op = Mark(session: string, question: string, options: seq<string>, now: int) | Surface(session: string) | Clear(session: string)

  function Apply(state: map<string, Episode>, op: Op): map<string, Episode> {
    match op
    case Mark(s, q, os, now) => if s in state then state else state[s := Episode(q, os, now, false)]
    case Surface(s) => if s in state then state[s := state[s].(surfaced := true)] else state
    case Clear(s) => state - {s}
  }

  class BlockedState {
    var state: map<string, Episode>

    constructor ()
      ensures state == map[]
    {
      state := map[];
    }

    method MarkBlocked(session: string, question: string, options: seq<string>, now: int) returns (isNew: bool)
      modifies this
      ensures isNew <==> session !in old(state)
      ensures state == Apply(old(state), Mark(session, question, options, now))
    {
      if session in state {
        return false;
      }
      state := state[session := Episode(question, options, now, false)];
      return true;
    }

    method MarkSurfaced(session: string)
      modifies this
      ensures state == Apply(old(state), Surface(session))
    {
      if session in state {
        state := state[session := state[session].(surfaced := true)];
      }
    }

    method ClearBlocked(session: string)
      modifies this
      ensures state == Apply(old(state), Clear(session))
    {
      if session in state {
        state := state - {session};
      }
    }

    /** What is still pending; the questions of dead sessions are dropped on the way. */
    method PendingQuestions(fleet: Fleet) returns (pending: map<string, Episode>)
      modifies this
      ensures state == pending == Pending(old(state), fleet)
    {
      pending := map[];
      var todo := state.Keys;
      while todo != {}
        invariant todo <= old(state).Keys
        invariant forall s :: s in state <==> s in old(state) && (s in todo || IsLive(fleet, s))
        invariant forall s :: s in state ==> state[s] == old(state)[s]
        invariant forall s :: s in pending <==> s in old(state) && s !in todo && IsLive(fleet, s)
        invariant forall s :: s in pending ==> pending[s] == old(state)[s]
        decreases |todo|
      {
        var s :| s in todo;
        todo := todo - {s};
        if IsLive(fleet, s) {
          pending := pending[s := state[s]];
        } else {
          ClearBlocked(s);
        }
      }
      assert pending == Pending(old(state), fleet);
    }

    /** Sends the number of the option the answer means to the one session it can be for, or nothing;
        before and after are the fleet at the first look and just before the key is sent. */
    method AnswerBlockedSession(answer: string, target: string, before: Fleet, after: Fleet, panes: map<string, Pane>) returns (r: Answered)
      requires forall s :: s in before.members ==> before.members[s].tmux in panes
      requires forall x, y :: x in panes && y in panes && panes[x] == panes[y] ==> x == y
      modifies this, panes.Values
      ensures var first := Pending(old(state), before);
        var addressed, second := Addressed(first, before, target), Pending(first, after);
        match r
        case NotSent =>
          && (forall x :: x in panes ==> panes[x].trace == old(panes[x].trace))
          && (forall s :: addressed.Keys == {s} && s in second ==> TheMatch(answer, addressed[s].options) == None)
          && (state == first || state == second)
        case Sent(session, option, delivery) =>
          && addressed.Keys == {session} && session in second
          && TheMatch(answer, addressed[session].options) == Some(option)
          && var tmux := before.members[session].tmux;
          && (forall x :: x in panes && x != tmux ==> panes[x].trace == old(panes[x].trace))
          && (panes[tmux].trace, delivery) ==
                PressSpec(panes[tmux].world, panes[tmux].eyes, old(panes[tmux].trace), option, PaneStates.BlockedQuestion)
          && state == if delivery.ok then second - {session} else second
    {
      hide TheMatch, PressSpec, Addressed, IsLive;
      var pending := PendingQuestions(before);
      var addressed := Addressed(pending, before, target);
      if |addressed.Keys| != 1 {
        return NotSent;
      }
      var session :| session in addressed.Keys;
      OnlyKey(addressed.Keys, session);
      var option := MatchOption(answer, addressed[session].options);
      if option == None {
        return NotSent;
      }
      var stillPending := PendingQuestions(after);
      if session !in stillPending {
        return NotSent;
      }
      AddressedAreLive(old(state), before, target, session);
      var tmux := before.members[session].tmux;
      var delivery := panes[tmux].AnswerBlockedQuestionLocked(option.value);
      if delivery.ok {
        ClearBlocked(session);
      }
      return Sent(session, option.value, delivery);
    }
  }

  lemma AddressedAreLive(state: map<string, Episode>, fleet: Fleet, target: string, s: string)
    requires s in Addressed(Pending(state, fleet), fleet, target)
    ensures IsLive(fleet, s) && s in state
  {
  }

  lemma OnlyKey(keys: set<string>, k: string)
    requires |keys| == 1 && k in keys
    ensures keys == {k}
  {
    assert |keys - {k}| == 0;
  }

  /** One answer sends at most one option's number. */
  lemma AnswerSendsOneOption(w: World, eyes: Eyes, h: Trace, option: int)
    ensures var (t, r) := PressSpec(w, eyes, h, option, PaneStates.BlockedQuestion);
      && |h| <= |t|
      && Keys(t, |h|) == (if r.ok || r.reason == NotConfirmed then [Typed(if option >= 0 then Text.Decimal(option) else "")] else [])
  {
    hide PressSpec, PhaseOf, Keys, Text.Decimal;
    PressAllowed(w, eyes, h, option, PaneStates.BlockedQuestion);
    var t := PressSpec(w, eyes, h, option, PaneStates.BlockedQuestion).0;
    KeysOfCall(eyes, Press(option, PaneStates.BlockedQuestion), |h|, t);
  }

  /** Without a target every pending question is meant; with one, those whose team or terminal it names,
      whatever the case of its letters and the white space around it. */
  lemma AddressedMeaning(pending: map<string, Episode>, fleet: Fleet, target: string, s: string)
    ensures Addressed(pending, fleet, "") == pending
    ensures target != "" ==> (s in Addressed(pending, fleet, target) <==>
      s in pending && s in fleet.members &&
      Text.LowerAll(Text.Strip(target)) in {Text.LowerAll(fleet.members[s].team), Text.LowerAll(fleet.members[s].tmux)})
    ensures s in Addressed(pending, fleet, target) ==> s in pending && Addressed(pending, fleet, target)[s] == pending[s]
  {
    hide Text.LowerAll, Text.Strip;
  }

  /** An option is matched by words of the answer, or the answer by words of the option: one stands in the
      other, and neither is shorter than three characters. */
  lemma MatchesMeaning(answer: string, option: string)
    ensures Matches(answer, option) <==>
      && |Norm(answer)| >= 3 && |Norm(option)| >= 3
      && ((exists i: nat :: Text.StandsAt(Norm(answer), Norm(option), i)) || (exists i: nat :: Text.StandsAt(Norm(option), Norm(answer), i)))
  {
    hide Norm;
    ContainsMeaning(Norm(answer), Norm(option));
    ContainsMeaning(Norm(option), Norm(answer));
  }

  lemma ContainsMeaning(s: string, part: string)
    ensures Text.Contains(s, part) <==> exists i: nat :: Text.StandsAt(s, part, i)
  {
  }

  lemma {:induction false} JoinIsStripped(ts: seq<string>)
    requires Text.AreTokens(ts)
    ensures Text.IsStripped(Text.Join(ts)) && (ts != [] ==> Text.Join(ts) != "")
  {
    if |ts| == 1 {
      assert ts[0] in ts && Text.IsToken(ts[0]);
      assert ts[0][0] in ts[0] && ts[0][|ts[0]| - 1] in ts[0];
    } else if |ts| > 1 {
      assert forall t :: t in ts[1..] ==> t in ts;
      JoinIsStripped(ts[1..]);
      assert ts[0] in ts && Text.IsToken(ts[0]);
      assert ts[0][0] in ts[0];
      var rest := Text.Join(ts[1..]);
      assert Text.Join(ts) == ts[0] + " " + rest;
      assert Text.Join(ts)[|Text.Join(ts)| - 1] == rest[|rest| - 1];
    }
  }

  /** Words in small letters with single spaces between them are compared as they are. */
  lemma NormOfWords(ts: seq<string>)
    requires Text.AreTokens(ts) && Text.LowerAll(Text.Join(ts)) == Text.Join(ts)
    ensures Norm(Text.Join(ts)) == Text.Join(ts)
  {
    hide Text.Tokens, Text.Strip;
    JoinIsStripped(ts);
    Text.StripStrips(Text.Join(ts));
    Text.TokensOfJoin(ts);
  }

  // Episodes over every sequence of operations.

  function AfterOps(ops: seq<Op>, i: nat): map<string, Episode>
    requires i <= |ops|
  {
    if i == 0 then map[] else Apply(AfterOps(ops, i - 1), ops[i - 1])
  }

  /** Since when a session's episode runs: the first mark after the last clear. */
  function EpisodeStart(ops: seq<Op>, i: nat, s: string): (start: Option<nat>)
    requires i <= |ops|
    ensures start.Some? ==> start.value < i && ops[start.value].Mark? && ops[start.value].session == s
  {
    if i == 0 then None
    else
      var before := EpisodeStart(ops, i - 1, s);
      if ops[i - 1].session != s then before
      else
        match ops[i - 1]
        case Mark(_, _, _, _) => if before.Some? then before else Some(i - 1)
        case Surface(_) => before
        case Clear(_) => None
  }

  /** What the record says of a session is what the mark that began its episode said, whatever was
      done to other sessions, and surfaced says whether it was surfaced since. */
  lemma {:induction false} EpisodeIsFirstMark(ops: seq<Op>, i: nat, s: string)
    requires i <= |ops|
    ensures var state, start := AfterOps(ops, i), EpisodeStart(ops, i, s);
      && (s in state <==> start.Some?)
      && (start.Some? ==>
            && state[s].question == ops[start.value].question && state[s].options == ops[start.value].options
            && state[s].since == ops[start.value].now
            && (state[s].surfaced <==> exists k :: start.value < k < i && ops[k] == Surface(s)))
  {
    if i > 0 {
      EpisodeIsFirstMark(ops, i - 1, s);
    }
  }
}
