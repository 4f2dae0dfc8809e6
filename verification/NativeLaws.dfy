/** What the printer writes and the parser reads, told on the text itself: numerals, bounds, action
    lists, and the attributes of a node. */
module NativeLaws {
  import opened Common
  import opened UiTree
  import opened NativeTree

  // ---------------------------------------------------------------- numerals

  function Figure(c: char): nat {
    match c
    case '1' => 1
    case '2' => 2
    case '3' => 3
    case '4' => 4
    case '5' => 5
    case '6' => 6
    case '7' => 7
    case '8' => 8
    case '9' => 9
    case _ => 0
  }

  predicate IsFigure(c: char) {
    c in "0123456789"
  }

  predicate AllFigures(s: string) {
    forall i | 0 <= i < |s| :: IsFigure(s[i])
  }

  function Power10(k: nat): nat {
    if k == 0 then 1 else 10 * Power10(k - 1)
  }

  /** The decimal value, the most significant figure first. */
  function ValueOf(s: string): nat {
    if s == [] then 0 else Figure(s[0]) * Power10(|s| - 1) + ValueOf(s[1..])
  }

  predicate Signed(s: string) {
    s != [] && (s[0] == '-' || s[0] == '+')
  }

  /** An optional sign before at least one figure, and nothing else. */
  function Numeral(s: string): Option<int> {
    var figures := if Signed(s) then s[1..] else s;
    if figures == [] || !AllFigures(figures) then None
    else Some(if s[0] == '-' then 0 - ValueOf(figures) else ValueOf(figures))
  }

  lemma FiguresAreDigits(c: char)
    ensures IsDigit(c) <==> IsFigure(c)
    ensures IsDigit(c) ==> DigitValue(c) == Figure(c)
  {
  }

  lemma TenTimes(f: nat, p: nat)
    ensures f * (10 * p) == 10 * (f * p)
  {
  }

  lemma {:induction false} ValueGrows(s: string, c: char)
    ensures ValueOf(s + [c]) == 10 * ValueOf(s) + Figure(c)
  {
    if s == [] {
      assert s + [c] == [c] && [c][1..] == [];
    } else {
      assert (s + [c])[1..] == s[1..] + [c];
      ValueGrows(s[1..], c);
      TenTimes(Figure(s[0]), Power10(|s| - 1));
    }
  }

  lemma FiguresGrow(s: string, c: char)
    ensures AllFigures(s + [c]) <==> AllFigures(s) && IsFigure(c)
  {
    var longer := s + [c];
    assert longer[|s|] == c && forall i | 0 <= i < |s| :: longer[i] == s[i];
  }

  lemma NoFigures(s: string)
    ensures s == [] ==> AllFigures(s) && ValueOf(s) == 0
  {
  }

  /** One more digit. */
  lemma DigitIsRead(front: string, last: char)
    ensures ParseDigits(front + [last]).Some? <==> IsDigit(last) && (front == [] || ParseDigits(front).Some?)
    ensures ParseDigits(front + [last]).Some? ==>
              ParseDigits(front + [last]).value
              == DigitValue(last) + if front == [] then 0 else 10 * ParseDigits(front).value
  {
    var s := front + [last];
    assert s[..|s| - 1] == front && s[|s| - 1] == last;
  }

  lemma {:induction false} DigitsAreRead(s: string)
    ensures ParseDigits(s).Some? <==> s != [] && AllFigures(s)
    ensures ParseDigits(s).Some? ==> ParseDigits(s).value == ValueOf(s)
  {
    if s != [] {
      var front, last := s[..|s| - 1], s[|s| - 1];
      FiguresAreDigits(last);
      DigitsAreRead(front);
      ValueGrows(front, last);
      FiguresGrow(front, last);
      NoFigures(front);
      assert s == front + [last];
      DigitIsRead(front, last);
      hide *;
    }
  }

  lemma MinusParses(s: string, n: Option<nat>)
    requires s != [] && s[0] == '-' && n == ParseDigits(s[1..])
    ensures ParseInt(s).Some? <==> n.Some?
    ensures ParseInt(s).Some? ==> ParseInt(s).value == 0 - n.value as int
  {
    hide ParseDigits;
  }

  lemma MinusNumeral(s: string, figures: string)
    requires s != [] && s[0] == '-' && figures == s[1..]
    ensures Numeral(s).Some? <==> figures != [] && AllFigures(figures)
    ensures Numeral(s).Some? ==> Numeral(s).value == 0 - ValueOf(figures)
  {
    hide AllFigures;
    hide ValueOf;
  }

  lemma MinusIsRead(s: string, figures: string)
    requires s != [] && s[0] == '-' && figures == s[1..]
    ensures ParseInt(s).Some? <==> Numeral(s).Some?
    ensures ParseInt(s).Some? ==> ParseInt(s).value == Numeral(s).value
  {
    MinusParses(s, ParseDigits(figures));
    MinusNumeral(s, figures);
    DigitsAreRead(figures);
    hide *;
  }

  lemma UnsignedIsRead(s: string)
    requires s == [] || s[0] != '-'
    ensures ParseInt(s) == Numeral(s)
  {
    DigitsAreRead(if Signed(s) then s[1..] else s);
    hide AllFigures;
    hide ValueOf;
    hide ParseDigits;
  }

  /** Reading an integer accepts exactly the numerals, and yields their value. */
  lemma IntsAreRead(s: string)
    ensures ParseInt(s) == Numeral(s)
  {
    if s != [] && s[0] == '-' {
      MinusIsRead(s, s[1..]);
    } else {
      UnsignedIsRead(s);
    }
    hide ParseInt;
    hide Numeral;
  }

  predicate Means(s: string, n: int) {
    Numeral(s).Some? && Numeral(s).value == n
  }

  lemma MeansExactly(s: string, n: int)
    ensures Means(s, n) <==> ParseInt(s).Some? && ParseInt(s).value == n
  {
    IntsAreRead(s);
    hide ParseInt;
    hide Numeral;
  }

  /** No sign but a minus before a negative number, and no zero in front of another figure. */
  predicate Canonical(s: string, n: int) {
    && Numeral(s) == Some(n) && s != []
    && (s[0] == '-' <==> n < 0) && s[0] != '+'
    && (|s| > 1 ==> s[0] != '0') && (|s| > 2 && n < 0 ==> s[1] != '0')
  }

  lemma {:induction false} NoLeadingZero(n: nat)
    ensures DigitsOf(n) != [] && (DigitsOf(n)[0] == '0' <==> n == 0) && (n == 0 ==> |DigitsOf(n)| == 1)
    ensures IsDigit(DigitsOf(n)[0])
  {
    if n >= 10 {
      NoLeadingZero(n / 10);
    }
  }

  /** Printing an integer yields its canonical numeral. */
  lemma PrintIsCanonical(n: int)
    ensures Canonical(PrintInt(n), n)
  {
    IntRoundTrip(n);
    IntsAreRead(PrintInt(n));
    NoLeadingZero(if n < 0 then -n else n);
  }

  // ---------------------------------------------------------------- bounds

  predicate Gap(s: string) {
    forall i | 0 <= i < |s| :: s[i] in "[], \t\n\r"
  }

  predicate Solid(s: string) {
    s != [] && forall i | 0 <= i < |s| :: s[i] !in "[], \t\n\r"
  }

  /** A gap, and then words each followed by a gap. */
  function Laid(gaps: seq<string>, words: seq<string>): string
    requires |gaps| == |words| + 1
  {
    gaps[0] + if words == [] then "" else words[0] + Laid(gaps[1..], words[1..])
  }

  /** Brackets, commas and spaces between solid words, with some between any two. */
  predicate Separated(gaps: seq<string>, words: seq<string>) {
    && |gaps| == |words| + 1
    && (forall i | 0 <= i < |gaps| :: Gap(gaps[i]))
    && (forall i | 0 < i < |words| :: gaps[i] != "")
    && (forall i | 0 <= i < |words| :: Solid(words[i]))
  }

  lemma {:induction false} GapIsSkipped(gap: string, rest: string)
    requires Gap(gap)
    ensures Words(Blank(gap + rest), []) == Words(Blank(rest), [])
  {
    if gap == [] {
      assert gap + rest == rest;
    } else {
      assert (gap + rest)[1..] == gap[1..] + rest;
      GapIsSkipped(gap[1..], rest);
      assert Blank(gap + rest)[1..] == Blank(gap[1..] + rest);
    }
  }

  /** The rest of a word is read, up to the next gap or the end. */
  lemma {:induction false} WordIsRead(run: string, rest: string, word: string)
    requires forall i | 0 <= i < |run| :: run[i] !in "[], \t\n\r"
    requires word + run != [] && (rest == [] || rest[0] in "[], \t\n\r")
    ensures Words(Blank(run + rest), word) == [word + run] + Words(Blank(rest), [])
    decreases |run|
  {
    if run == [] {
      assert run + rest == rest && word + run == word;
    } else {
      var s := run + rest;
      assert s[0] == run[0] && s[1..] == run[1..] + rest;
      assert Blank(s)[1..] == Blank(s[1..]) && Blank(s)[0] == run[0];
      WordIsRead(run[1..], rest, word + [run[0]]);
      assert word + [run[0]] + run[1..] == word + run;
    }
  }

  lemma {:induction false} WordsAreRead(gaps: seq<string>, words: seq<string>)
    requires Separated(gaps, words)
    ensures Words(Blank(Laid(gaps, words)), []) == words
    decreases |words|
  {
    if words == [] {
      GapIsSkipped(gaps[0], "");
    } else {
      var rest := Laid(gaps[1..], words[1..]);
      assert Gap(gaps[0]) && Gap(gaps[1]) && Solid(words[0]);
      assert forall i | 0 < i < |words[1..]| :: gaps[1..][i] == gaps[i + 1] != "";
      assert rest == [] || rest[0] in "[], \t\n\r" by {
        if |words| > 1 {
          assert rest[0] == gaps[1][0];
        } else {
          assert rest == gaps[1];
        }
      }
      GapIsSkipped(gaps[0], words[0] + rest);
      WordIsRead(words[0], rest, []);
      WordsAreRead(gaps[1..], words[1..]);
      assert [] + words[0] == words[0] && words == [words[0]] + words[1..];
    }
  }

  lemma LaidParts(gap: string, gaps: seq<string>, words: seq<string>)
    requires |gaps| == |words| + 1
    ensures Laid([gap + gaps[0]] + gaps[1..], words) == gap + Laid(gaps, words)
    ensures forall word :: Laid([gap] + gaps, [word] + words) == gap + (word + Laid(gaps, words))
  {
    var joined := [gap + gaps[0]] + gaps[1..];
    assert joined[1..] == gaps[1..];
    forall word
      ensures Laid([gap] + gaps, [word] + words) == gap + (word + Laid(gaps, words))
    {
      assert ([gap] + gaps)[1..] == gaps && ([word] + words)[1..] == words;
    }
  }

  lemma NewWord(c: char, gaps: seq<string>, words: seq<string>)
    requires Separated(gaps, words) && c !in "[], \t\n\r" && (words == [] || gaps[0] != "")
    ensures Separated([""] + gaps, [[c]] + words)
    ensures Laid([""] + gaps, [[c]] + words) == [c] + Laid(gaps, words)
  {
    LaidParts("", gaps, words);
    assert "" + ([c] + Laid(gaps, words)) == [c] + Laid(gaps, words);
  }

  lemma FirstWordGrows(c: char, gaps: seq<string>, words: seq<string>)
    requires Separated(gaps, words) && c !in "[], \t\n\r" && words != [] && gaps[0] == ""
    ensures Separated(gaps, [[c] + words[0]] + words[1..])
    ensures Laid(gaps, [[c] + words[0]] + words[1..]) == [c] + Laid(gaps, words)
  {
    var longer, rest := [[c] + words[0]] + words[1..], Laid(gaps[1..], words[1..]);
    assert longer[1..] == words[1..] && Solid(words[0]);
    assert "" + (([c] + words[0]) + rest) == [c] + ("" + (words[0] + rest));
  }

  lemma GapGrows(c: char, gaps: seq<string>, words: seq<string>)
    requires Separated(gaps, words) && c in "[], \t\n\r"
    ensures Separated([[c] + gaps[0]] + gaps[1..], words)
    ensures Laid([[c] + gaps[0]] + gaps[1..], words) == [c] + Laid(gaps, words)
  {
    LaidParts([c], gaps, words);
    assert Gap(gaps[0]);
  }

  /** Every text is made of words and gaps in this way. */
  lemma {:induction false} EveryTextIsLaid(s: string) returns (gaps: seq<string>, words: seq<string>)
    ensures Separated(gaps, words) && Laid(gaps, words) == s
  {
    if s == [] {
      return [""], [];
    }
    var gaps', words' := EveryTextIsLaid(s[1..]);
    assert s == [s[0]] + s[1..];
    if s[0] in "[], \t\n\r" {
      GapGrows(s[0], gaps', words');
      return [[s[0]] + gaps'[0]] + gaps'[1..], words';
    }
    if words' == [] || gaps'[0] != "" {
      NewWord(s[0], gaps', words');
      return [""] + gaps', [[s[0]]] + words';
    }
    FirstWordGrows(s[0], gaps', words');
    return gaps', [[s[0]] + words'[0]] + words'[1..];
  }

  /** Four numerals. */
  function FourOf(words: seq<string>): Option<Bounds> {
    if |words| != 4 then None
    else
      var l, t, r, b := Numeral(words[0]), Numeral(words[1]), Numeral(words[2]), Numeral(words[3]);
      if l.None? || t.None? || r.None? || b.None? then None
      else Some(Bounds(l.value, t.value, r.value, b.value))
  }

  /** Bounds are read from a text exactly when its words are four numerals: left, top, right, bottom,
      whatever brackets, commas and spaces stand around and between them. */
  lemma BoundsAreRead(gaps: seq<string>, words: seq<string>)
    requires Separated(gaps, words)
    ensures ParseBounds(Laid(gaps, words)) == FourOf(words)
  {
    WordsAreRead(gaps, words);
    if |words| == 4 {
      IntsAreRead(words[0]);
      IntsAreRead(words[1]);
      IntsAreRead(words[2]);
      IntsAreRead(words[3]);
    }
    hide Numeral;
    hide ParseInt;
    hide Words;
    hide Blank;
    hide Laid;
    hide Separated;
  }

  // ---------------------------------------------------------------- action lists

  function NonEmpty(pieces: seq<string>): seq<string> {
    if pieces == [] then [] else (if pieces[0] == "" then [] else [pieces[0]]) + NonEmpty(pieces[1..])
  }

  /** A text of pieces joined by commas is read as its non-empty pieces. */
  lemma {:induction false} PiecesAreRead(pieces: seq<string>)
    requires forall i | 0 <= i < |pieces| :: ',' !in pieces[i]
    ensures SplitNonEmpty(Join(pieces), []) == NonEmpty(pieces)
  {
    if pieces != [] {
      var rest := pieces[1..];
      PiecesAreRead(rest);
      if rest == [] {
        SplitPiece(pieces[0], "", []);
        assert pieces[0] + "" == pieces[0] && [] + pieces[0] == pieces[0];
      } else {
        SplitPiece(pieces[0], "," + Join(rest), []);
        assert ("," + Join(rest))[1..] == Join(rest) && [] + pieces[0] == pieces[0];
        assert Join(pieces) == pieces[0] + ("," + Join(rest));
      }
    }
  }

  // ---------------------------------------------------------------- what is written

  predicate WritesFlag(attrs: Attrs, a: Name, b: bool) {
    a in attrs && attrs[a] == if b then "true" else "false"
  }

  /** The attributes that a printed node has, and their values. */
  ghost predicate Written(n: NativeNode, attrs: Attrs) {
    && attrs.Keys == {Text, ResourceId, Class, ContentDesc, BoundsAttr, NodeIdAttr, ActionsAttr,
                      Checkable, Checked, Clickable, Enabled, Focused, Scrollable, Password}
    && attrs[Text] == n.text && attrs[ResourceId] == n.resourceId && attrs[Class] == n.cls
    && attrs[ContentDesc] == n.contentDesc && attrs[NodeIdAttr] == n.nodeId
    && attrs[BoundsAttr] == "[" + (PrintInt(n.bounds.left) + ("," + (PrintInt(n.bounds.top) + ("]" + ("["
                            + (PrintInt(n.bounds.right) + ("," + (PrintInt(n.bounds.bottom) + "]"))))))))
    && attrs[ActionsAttr] == Join(n.actions)
    && WritesFlag(attrs, Checkable, n.checkable) && WritesFlag(attrs, Checked, n.checked)
    && WritesFlag(attrs, Clickable, n.clickable) && WritesFlag(attrs, Enabled, n.enabled)
    && WritesFlag(attrs, Focused, n.focused) && WritesFlag(attrs, Scrollable, n.scrollable)
    && WritesFlag(attrs, Password, n.password)
  }

  lemma KeysAreWritten(n: NativeNode, bounds: string, actions: string)
    ensures PrintWith(n, bounds, actions).Keys
         == {Text, ResourceId, Class, ContentDesc, BoundsAttr, NodeIdAttr, ActionsAttr,
             Checkable, Checked, Clickable, Enabled, Focused, Scrollable, Password}
  {
  }

  lemma ValuesAreWritten(n: NativeNode, bounds: string, actions: string, attrs: Attrs)
    requires bounds == PrintBounds(n.bounds) && actions == Join(n.actions)
    requires attrs == PrintWith(n, bounds, actions)
    requires attrs.Keys == {Text, ResourceId, Class, ContentDesc, BoundsAttr, NodeIdAttr, ActionsAttr,
                            Checkable, Checked, Clickable, Enabled, Focused, Scrollable, Password}
    ensures Written(n, attrs)
  {
  }

  /** A native node is printed without children, with exactly these attributes. */
  lemma PrintIsExact(n: NativeNode)
    ensures Written(n, Print(n).attrs) && Print(n).children == []
  {
    var bounds, actions := PrintBounds(n.bounds), Join(n.actions);
    KeysAreWritten(n, bounds, actions);
    hide Written;
    ValuesAreWritten(n, bounds, actions, PrintWith(n, bounds, actions));
  }

  /** How many nodes the first `n` windows hold. */
  function NodesBefore(windows: seq<Window>, n: nat): nat
    requires n <= |windows|
  {
    if n == 0 then 0 else NodesBefore(windows, n - 1) + |windows[n - 1]|
  }

  lemma {:induction false} NodesBeforeTail(windows: seq<Window>, n: nat)
    requires 0 < n <= |windows|
    ensures NodesBefore(windows, n) == |windows[0]| + NodesBefore(windows[1..], n - 1)
  {
    if n > 1 {
      NodesBeforeTail(windows, n - 1);
      assert windows[1..][n - 2] == windows[n - 1];
    }
  }

  lemma {:induction false} NodesCount(windows: seq<Window>)
    ensures |AllNodes(windows)| == NodesBefore(windows, |windows|)
  {
    if windows != [] {
      NodesCount(windows[1..]);
      NodesBeforeTail(windows, |windows|);
    }
  }

  lemma {:induction false} NodeStands(windows: seq<Window>, a: nat, k: nat)
    requires a < |windows| && k < |windows[a]|
    ensures NodesBefore(windows, a) + k < |AllNodes(windows)|
    ensures AllNodes(windows)[NodesBefore(windows, a) + k] == windows[a][k]
  {
    if a > 0 {
      NodesBeforeTail(windows, a);
      NodeStands(windows[1..], a - 1, k);
    }
  }

  lemma PrintedAt(nodes: seq<NativeNode>, p: nat)
    requires p < |nodes|
    ensures |PrintAll(nodes)| == |nodes|
    ensures Written(nodes[p], PrintAll(nodes)[p].attrs) && PrintAll(nodes)[p].children == []
  {
    PrintIsExact(nodes[p]);
    hide Written;
    hide Print;
  }

  /** The hierarchy has one element for each node of each window: those of earlier windows first, and
      within a window in its order. */
  lemma PrintsInOrder(windows: seq<Window>, a: nat, k: nat)
    requires a < |windows| && k < |windows[a]|
    ensures var hierarchy, p := PrintAll(AllNodes(windows)), NodesBefore(windows, a) + k;
            && |hierarchy| == NodesBefore(windows, |windows|)
            && p < |hierarchy| && Written(windows[a][k], hierarchy[p].attrs) && hierarchy[p].children == []
  {
    NodesCount(windows);
    NodeStands(windows, a, k);
    PrintedAt(AllNodes(windows), NodesBefore(windows, a) + k);
    hide Written;
    hide Print;
    hide AllNodes;
    hide NodesBefore;
  }

  // ---------------------------------------------------------------- what is read

  /** The parser keeps the node. */
  predicate Shows(attrs: Attrs) {
    || (Text in attrs && attrs[Text] != "")
    || (ContentDesc in attrs && attrs[ContentDesc] != "")
    || (Clickable in attrs && attrs[Clickable] == "true")
  }

  predicate SaysTrue(attrs: Attrs, a: Name) {
    a in attrs && attrs[a] == "true"
  }

  predicate HoldsAt(text: string, needle: string, k: nat) {
    k + |needle| <= |text| && text[k..k + |needle|] == needle
  }

  predicate Holds(text: string, needle: string) {
    exists k :: 0 <= k <= |text| && HoldsAt(text, needle, k)
  }

  /** A missing attribute counts as an empty text. */
  predicate ReadsText(attrs: Attrs, a: Name, text: string) {
    text == if a in attrs then attrs[a] else ""
  }

  /** Which flags an element has: `enabled` unless the attribute says otherwise, the others only if
      their attribute says so, and a text field is editable by its class too. */
  predicate ReadsFlag(attrs: Attrs, a: Name, flags: set<Name>) {
    match a
    case Enabled => Enabled in flags <==> (Enabled in attrs ==> attrs[Enabled] == "true")
    case Editable =>
      Editable in flags <==> SaysTrue(attrs, Editable) || (Class in attrs && Holds(attrs[Class], "EditText"))
    case Checkable | Checked | Clickable | Focused | Scrollable | Password | LongClickable | Selected =>
      a in flags <==> SaysTrue(attrs, a)
    case _ => a !in flags
  }

  ghost predicate ReadsFlags(attrs: Attrs, flags: set<Name>) {
    forall a: Name :: ReadsFlag(attrs, a, flags)
  }

  predicate ReadsOptional(attrs: Attrs, a: Name, found: Option<string>) {
    found == if a in attrs then Some(attrs[a]) else None
  }

  predicate ReadsBounds(attrs: Attrs, b: Bounds) {
    if BoundsAttr in attrs then ParseBounds(attrs[BoundsAttr]) == Some(b) else b == Bounds(0, 0, 0, 0)
  }

  predicate Middle(low: int, high: int, middle: int) {
    2 * middle == low + high || 2 * middle == low + high - 1
  }

  predicate ReadsActions(attrs: Attrs, actions: Option<seq<string>>) {
    actions == if ActionsAttr in attrs then Some(SplitNonEmpty(attrs[ActionsAttr], [])) else None
  }

  /** The element that a node with these attributes is read as. */
  ghost predicate ReadsAs(attrs: Attrs, i: nat, e: Element) {
    && e.i == i
    && ReadsText(attrs, Text, e.text) && ReadsText(attrs, ResourceId, e.id)
    && ReadsText(attrs, Class, e.cls) && ReadsText(attrs, ContentDesc, e.contentDesc)
    && ReadsText(attrs, Package, e.package) && ReadsText(attrs, NodeIdAttr, e.nodeId)
    && ReadsFlags(attrs, e.flags)
    && ReadsBounds(attrs, e.bounds)
    && Middle(e.bounds.left, e.bounds.right, e.center.0) && Middle(e.bounds.top, e.bounds.bottom, e.center.1)
    && ReadsOptional(attrs, HintText, e.hintText) && ReadsOptional(attrs, ErrorText, e.errorText)
    && ReadsActions(attrs, e.actions)
  }

  predicate BadBounds(attrs: Attrs) {
    BoundsAttr in attrs && ParseBounds(attrs[BoundsAttr]).None?
  }

  lemma HoldsTail(s: string, needle: string, k: nat)
    requires s != []
    ensures HoldsAt(s, needle, k + 1) <==> HoldsAt(s[1..], needle, k)
  {
    if k + 1 + |needle| <= |s| {
      assert s[1..][k..k + |needle|] == s[k + 1..k + 1 + |needle|];
    }
  }

  lemma {:induction false} ContainsIsHolds(s: string, needle: string)
    ensures ContainsText(s, needle) <==> Holds(s, needle)
  {
    assert needle <= s <==> HoldsAt(s, needle, 0);
    if s != [] {
      ContainsIsHolds(s[1..], needle);
      if Holds(s[1..], needle) {
        var k :| 0 <= k <= |s[1..]| && HoldsAt(s[1..], needle, k);
        HoldsTail(s, needle, k);
      }
      if Holds(s, needle) {
        var k :| 0 <= k <= |s| && HoldsAt(s, needle, k);
        if k > 0 {
          HoldsTail(s, needle, k - 1);
        }
      }
    }
  }

  lemma FlagIsRead(attrs: Attrs, a: Name, editText: bool)
    requires editText <==> Class in attrs && Holds(attrs[Class], "EditText")
    ensures ReadsFlag(attrs, a, FlagsOf(attrs) + if editText then {Editable} else {})
  {
  }

  lemma NoBounds()
    ensures ParseBounds("[0,0][0,0]") == Some(Bounds(0, 0, 0, 0))
  {
    var b := Bounds(0, 0, 0, 0);
    BoundsRoundTrip(b);
    assert PrintInt(0) == "0";
    assert PrintBounds(b) == "[0,0][0,0]";
  }

  lemma ClassIsRead(attrs: Attrs)
    ensures ContainsText(TextOf(attrs, Class), "EditText") <==> Class in attrs && Holds(attrs[Class], "EditText")
  {
    ContainsIsHolds(TextOf(attrs, Class), "EditText");
  }

  lemma FlagsAreRead(attrs: Attrs, editText: bool, flags: set<Name>)
    requires editText <==> Class in attrs && Holds(attrs[Class], "EditText")
    requires flags == FlagsOf(attrs) + if editText then {Editable} else {}
    ensures ReadsFlags(attrs, flags)
  {
    forall a: Name
      ensures ReadsFlag(attrs, a, flags)
    {
      FlagIsRead(attrs, a, editText);
    }
  }

  lemma FieldsAreRead(attrs: Attrs, i: nat, b: Bounds, editText: bool)
    requires editText <==> Class in attrs && Holds(attrs[Class], "EditText")
    requires ReadsBounds(attrs, b)
    ensures ReadsAs(attrs, i, ReadWith(attrs, i, b, editText))
  {
    FlagsAreRead(attrs, editText, FlagsOf(attrs) + if editText then {Editable} else {});
    hide ReadsFlags;
    hide FlagsOf;
    hide Holds;
    hide ReadsBounds;
    hide SplitNonEmpty;
  }

  lemma BoundsOf(attrs: Attrs)
    ensures ParseBounds(Attr(attrs, BoundsAttr, "[0,0][0,0]")).None? <==> BadBounds(attrs)
    ensures !BadBounds(attrs) ==> ReadsBounds(attrs, ParseBounds(Attr(attrs, BoundsAttr, "[0,0][0,0]")).value)
  {
    NoBounds();
    hide ParseBounds;
  }

  lemma MeaningfulIsShown(attrs: Attrs)
    ensures Meaningful(attrs) <==> Shows(attrs)
  {
  }

  lemma ElementIsRead(attrs: Attrs, i: nat)
    ensures ReadElement(attrs, i).None? <==> BadBounds(attrs)
    ensures ReadElement(attrs, i).Some? ==> ReadsAs(attrs, i, ReadElement(attrs, i).value)
  {
    BoundsOf(attrs);
    ClassIsRead(attrs);
    var b := ParseBounds(Attr(attrs, BoundsAttr, "[0,0][0,0]"));
    if b.Some? {
      FieldsAreRead(attrs, i, b.value, ContainsText(TextOf(attrs, Class), "EditText"));
    }
    hide ReadsAs;
    hide ReadWith;
    hide ParseBounds;
    hide ContainsText;
    hide BadBounds;
  }

  /** How many of the first `p` nodes are shown. */
  function ShownBefore(flat: seq<Node>, p: nat): nat
    requires p <= |flat|
  {
    if p == 0 then 0 else ShownBefore(flat, p - 1) + if Shows(flat[p - 1].attrs) then 1 else 0
  }

  lemma {:induction false} ShownBeforeTail(flat: seq<Node>, p: nat)
    requires 0 < p <= |flat|
    ensures ShownBefore(flat, p) == (if Shows(flat[0].attrs) then 1 else 0) + ShownBefore(flat[1..], p - 1)
  {
    if p > 1 {
      ShownBeforeTail(flat, p - 1);
      assert flat[1..][p - 2] == flat[p - 1];
    }
  }

  predicate SomeBadBounds(flat: seq<Node>) {
    exists p :: 0 <= p < |flat| && Shows(flat[p].attrs) && BadBounds(flat[p].attrs)
  }

  /** Where the `p`-th node is read, if it is shown. */
  ghost predicate ReadAt(flat: seq<Node>, i: nat, els: seq<Element>, p: nat)
    requires p < |flat|
  {
    Shows(flat[p].attrs) ==>
      && ShownBefore(flat, p) < |els|
      && ReadsAs(flat[p].attrs, i + ShownBefore(flat, p), els[ShownBefore(flat, p)])
  }

  /** `els` are the shown nodes in order, numbered from `i`. */
  ghost predicate AllRead(flat: seq<Node>, i: nat, els: seq<Element>) {
    && |els| == ShownBefore(flat, |flat|)
    && forall p | 0 <= p < |flat| :: ReadAt(flat, i, els, p)
  }

  lemma ReadAtCons(flat: seq<Node>, i: nat, e: Element, els: seq<Element>, p: nat)
    requires 0 < p < |flat| && Shows(flat[0].attrs) && ReadAt(flat[1..], i + 1, els, p - 1)
    ensures ReadAt(flat, i, [e] + els, p)
  {
    ShownBeforeTail(flat, p);
    assert flat[1..][p - 1] == flat[p];
    hide ReadsAs;
    if Shows(flat[p].attrs) {
      assert ([e] + els)[ShownBefore(flat, p)] == els[ShownBefore(flat[1..], p - 1)];
    }
  }

  lemma AllReadCons(flat: seq<Node>, i: nat, e: Element, els: seq<Element>)
    requires flat != [] && Shows(flat[0].attrs) && ReadsAs(flat[0].attrs, i, e)
    requires AllRead(flat[1..], i + 1, els)
    ensures AllRead(flat, i, [e] + els)
  {
    ShownBeforeTail(flat, |flat|);
    hide ReadsAs;
    forall p | 0 <= p < |flat|
      ensures ReadAt(flat, i, [e] + els, p)
    {
      if p > 0 {
        assert ReadAt(flat[1..], i + 1, els, p - 1);
        ReadAtCons(flat, i, e, els, p);
      }
    }
  }

  lemma AllReadSkip(flat: seq<Node>, i: nat, els: seq<Element>)
    requires flat != [] && !Shows(flat[0].attrs) && AllRead(flat[1..], i, els)
    ensures AllRead(flat, i, els)
  {
    ShownBeforeTail(flat, |flat|);
    hide ReadsAs;
    forall p | 0 <= p < |flat|
      ensures ReadAt(flat, i, els, p)
    {
      if p > 0 {
        assert ReadAt(flat[1..], i, els, p - 1);
        ShownBeforeTail(flat, p);
        assert flat[1..][p - 1] == flat[p];
      }
    }
  }

  lemma BadBoundsParts(flat: seq<Node>)
    requires flat != []
    ensures SomeBadBounds(flat) <==> (Shows(flat[0].attrs) && BadBounds(flat[0].attrs)) || SomeBadBounds(flat[1..])
  {
    if SomeBadBounds(flat[1..]) {
      var p :| 0 <= p < |flat[1..]| && Shows(flat[1..][p].attrs) && BadBounds(flat[1..][p].attrs);
      assert flat[p + 1] == flat[1..][p];
    }
    if SomeBadBounds(flat) {
      var p :| 0 <= p < |flat| && Shows(flat[p].attrs) && BadBounds(flat[p].attrs);
      assert p > 0 ==> flat[1..][p - 1] == flat[p];
    }
  }

  lemma {:induction false} ScanIsExact(read: Reader, flat: seq<Node>, i: nat)
    requires forall attrs, k :: read(attrs, k) == ReadElement(attrs, k)
    ensures ScanElements(read, flat, i).None? <==> SomeBadBounds(flat)
    ensures ScanElements(read, flat, i).Some? ==> AllRead(flat, i, ScanElements(read, flat, i).value)
    decreases |flat|
  {
    if flat != [] {
      var attrs, shown := flat[0].attrs, Meaningful(flat[0].attrs);
      ElementIsRead(attrs, i);
      MeaningfulIsShown(attrs);
      BadBoundsParts(flat);
      ScanIsExact(read, flat[1..], if shown then i + 1 else i);
      var rest := ScanElements(read, flat[1..], if shown then i + 1 else i);
      if rest.Some? && !shown {
        AllReadSkip(flat, i, rest.value);
      } else if rest.Some? && read(attrs, i).Some? {
        AllReadCons(flat, i, read(attrs, i).value, rest.value);
      }
    }
  }

  /** Parsing a document fails exactly when a shown node has bounds that cannot be read; otherwise
      the elements are the shown nodes in document order, numbered from 0, read field by field. */
  lemma ParseIsExact(nodes: seq<Node>)
    ensures var found, flat := ScanElements(ReadElement, Preorder(nodes), 0), Preorder(nodes);
            && (found.None? <==> SomeBadBounds(flat))
            && (found.Some? ==> AllRead(flat, 0, found.value))
  {
    ScanIsExact(ReadElement, Preorder(nodes), 0);
  }
}
