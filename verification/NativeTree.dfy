/** Printing native nodes as attributes of a hierarchy document, and reading elements back.
    XML escaping is taken as faithful: a document is the list of attribute maps of its nodes. */
module NativeTree {
  import opened Common
  import opened UiTree

  // ---------------------------------------------------------------- decimal integers

  function Digit(d: nat): char
    requires d < 10
  {
    ('0' as int + d) as char
  }

  function DigitsOf(n: nat): string {
    if n < 10 then [Digit(n)] else DigitsOf(n / 10) + [Digit(n % 10)]
  }

  function PrintInt(n: int): string {
    if n < 0 then "-" + DigitsOf(-n) else DigitsOf(n)
  }

  predicate IsDigit(c: char) {
    '0' <= c <= '9'
  }

  function DigitValue(c: char): nat
    requires IsDigit(c)
  {
    c as int - '0' as int
  }

  function ParseDigits(s: string): Option<nat> {
    if s == [] || !IsDigit(s[|s| - 1]) then None
    else if |s| == 1 then Some(DigitValue(s[0]))
    else
      var front := ParseDigits(s[..|s| - 1]);
      if front.None? then None else Some(10 * front.value + DigitValue(s[|s| - 1]))
  }

  /** An optional sign and decimal digits; None where the conversion raises. */
  function ParseInt(s: string): Option<int> {
    if s != [] && s[0] == '-' then
      var n := ParseDigits(s[1..]);
      if n.Some? then Some(0 - n.value as int) else None
    else if s != [] && s[0] == '+' then ParseDigits(s[1..])
    else ParseDigits(s)
  }

  lemma {:induction false} DigitsRoundTrip(n: nat)
    ensures ParseDigits(DigitsOf(n)) == Some(n)
    ensures DigitsOf(n) != [] && forall c | c in DigitsOf(n) :: IsDigit(c)
  {
    if n >= 10 {
      DigitsRoundTrip(n / 10);
      var s := DigitsOf(n);
      assert s[..|s| - 1] == DigitsOf(n / 10);
    }
  }

  lemma UnsignedRoundTrip(n: nat)
    ensures ParseInt(DigitsOf(n)) == Some(n)
    ensures DigitsOf(n) != [] && forall c | c in DigitsOf(n) :: IsDigit(c)
  {
    DigitsRoundTrip(n);
    assert IsDigit(DigitsOf(n)[0]);
  }

  lemma NegativeRoundTrip(n: int)
    requires n < 0
    ensures ParseInt("-" + DigitsOf(-n)) == Some(n)
  {
    DigitsRoundTrip(-n);
    SignedParses(DigitsOf(-n));
  }

  lemma SignedParses(digits: string)
    requires ParseDigits(digits).Some?
    ensures ParseInt("-" + digits) == Some(0 - ParseDigits(digits).value as int)
  {
    var s := "-" + digits;
    assert s[0] == '-' && s[1..] == digits;
  }

  lemma IntRoundTrip(n: int)
    ensures ParseInt(PrintInt(n)) == Some(n)
    ensures PrintInt(n) != [] && forall c | c in PrintInt(n) :: IsDigit(c) || c == '-'
  {
    if n < 0 {
      UnsignedRoundTrip(-n);
      NegativeRoundTrip(n);
    } else {
      UnsignedRoundTrip(n);
    }
  }

  // ---------------------------------------------------------------- bounds

  datatype Bounds = Bounds(left: int, top: int, right: int, bottom: int)

  function PrintBounds(b: Bounds): string {
    "[" + (PrintInt(b.left) + ("," + (PrintInt(b.top) + ("]" + ("[" + (PrintInt(b.right)
    + ("," + (PrintInt(b.bottom) + "]"))))))))
  }

  /** Brackets and commas become spaces. */
  function Blank(s: string): string {
    if s == [] then [] else [if s[0] in "[]," then ' ' else s[0]] + Blank(s[1..])
  }

  predicate IsSpace(c: char) {
    c == ' ' || c == '\t' || c == '\n' || c == '\r'
  }

  /** The maximal runs of non-space characters; `word` is the run read so far. */
  function Words(s: string, word: string): seq<string> {
    if s == [] then (if word == [] then [] else [word])
    else if IsSpace(s[0]) then (if word == [] then [] else [word]) + Words(s[1..], [])
    else Words(s[1..], word + [s[0]])
  }

  function ParseBounds(s: string): Option<Bounds> {
    var words := Words(Blank(s), []);
    if |words| != 4 then None
    else
      var l, t, r, b := ParseInt(words[0]), ParseInt(words[1]), ParseInt(words[2]), ParseInt(words[3]);
      if l.Some? && t.Some? && r.Some? && b.Some? then Some(Bounds(l.value, t.value, r.value, b.value)) else None
  }

  lemma {:induction false} BlankConcat(a: string, b: string)
    ensures Blank(a + b) == Blank(a) + Blank(b)
  {
    if a == [] {
      assert a + b == b;
    } else {
      assert (a + b)[1..] == a[1..] + b;
      BlankConcat(a[1..], b);
    }
  }

  lemma {:induction false} BlankKeeps(s: string)
    requires forall c | c in s :: c !in "[],"
    ensures Blank(s) == s
  {
    if s != [] {
      BlankKeeps(s[1..]);
      assert s[0] in s;
    }
  }

  /** A run of non-space characters before a space is one word. */
  lemma {:induction false} WordBeforeSpace(run: string, rest: string, word: string)
    requires forall c | c in run :: !IsSpace(c)
    requires word + run != []
    ensures Words(run + " " + rest, word) == [word + run] + Words(rest, [])
    decreases |run|
  {
    var s := run + " " + rest;
    if run == [] {
      assert s[1..] == rest && word + run == word;
    } else {
      assert s[0] == run[0] && run[0] in run;
      assert s[1..] == run[1..] + " " + rest;
      WordBeforeSpace(run[1..], rest, word + [run[0]]);
      assert word + [run[0]] + run[1..] == word + run;
    }
  }

  lemma LeadingSpace(s: string)
    ensures Words(" " + s, []) == Words(s, [])
  {
    assert (" " + s)[1..] == s;
  }

  lemma BlankSeparator(c: char, rest: string)
    requires c in "[],"
    ensures Blank([c] + rest) == " " + Blank(rest)
  {
    assert ([c] + rest)[1..] == rest;
  }

  predicate IsWord(s: string) {
    s != [] && forall c | c in s :: !IsSpace(c) && c !in "[],"
  }

  lemma Regroup(a: string, b: string, c: string)
    ensures a + (b + c) == a + b + c
  {
  }

  lemma BlankWord(word: string, c: char, rest: string)
    requires IsWord(word) && c in "[],"
    ensures Blank(word + ([c] + rest)) == word + " " + Blank(rest)
  {
    BlankConcat(word, [c] + rest);
    BlankKeeps(word);
    BlankSeparator(c, rest);
    Regroup(word, " ", Blank(rest));
  }

  lemma OneWord(word: string, rest: string)
    requires IsWord(word)
    ensures Words(word + " " + rest, []) == [word] + Words(rest, [])
  {
    WordBeforeSpace(word, rest, []);
    assert [] + word == word;
  }

  /** A word and the separator after it, once blanked, are one word. */
  lemma WordAndSeparator(word: string, c: char, rest: string)
    requires IsWord(word) && c in "[],"
    ensures Words(Blank(word + ([c] + rest)), []) == [word] + Words(Blank(rest), [])
  {
    BlankWord(word, c, rest);
    OneWord(word, Blank(rest));
  }

  lemma WordsAfterBracket(rest: string)
    ensures Words(Blank("[" + rest), []) == Words(Blank(rest), [])
  {
    BlankSeparator('[', rest);
    LeadingSpace(Blank(rest));
  }

  /** Any four integers, negative ones included, survive printing and parsing. */
  lemma BoundsRoundTrip(b: Bounds)
    ensures ParseBounds(PrintBounds(b)) == Some(b)
  {
    WordsOfBounds(b);
    IntRoundTrip(b.left);
    IntRoundTrip(b.top);
    IntRoundTrip(b.right);
    IntRoundTrip(b.bottom);
  }

  lemma PrintTwoDigits(n: nat)
    requires 10 <= n < 100
    ensures PrintInt(n) == [Digit(n / 10), Digit(n % 10)]
  {
    assert DigitsOf(n) == DigitsOf(n / 10) + [Digit(n % 10)];
  }

  lemma PrintMoreDigits(n: nat)
    requires n >= 10
    ensures PrintInt(n) == PrintInt(n / 10) + [Digit(n % 10)]
  {
  }

  lemma PrintShort()
    ensures PrintInt(44) == "44" && PrintInt(38) == "38" && PrintInt(52) == "52" && PrintInt(10) == "10"
  {
    PrintTwoDigits(44);
    PrintTwoDigits(38);
    PrintTwoDigits(10);
    PrintTwoDigits(52);
  }

  lemma PrintLong()
    ensures PrintInt(380) == "380" && PrintInt(520) == "520" && PrintInt(1036) == "1036"
  {
    PrintShort();
    PrintMoreDigits(380);
    PrintMoreDigits(103);
    PrintMoreDigits(1036);
    PrintMoreDigits(520);
  }

  /** The example the parser is documented with: left, top, right, bottom. */
  lemma BoundsExample(b: Bounds)
    requires b == Bounds(44, 380, 1036, 520)
    ensures ParseBounds("[44,380][1036,520]") == Some(b)
  {
    PrintShort();
    PrintLong();
    BoundsRoundTrip(b);
    PrintExample(PrintInt(b.left), PrintInt(b.top), PrintInt(b.right), PrintInt(b.bottom));
  }

  lemma PrintExample(l: string, t: string, r: string, b: string)
    requires l == "44" && t == "380" && r == "1036" && b == "520"
    ensures "[" + (l + ("," + (t + ("]" + ("[" + (r + ("," + (b + "]")))))))) == "[44,380][1036,520]"
  {
  }

  /** One bracketed pair, and what follows it. */
  lemma WordsOfPair(x: int, y: int, rest: string)
    ensures Words(Blank("[" + (PrintInt(x) + ("," + (PrintInt(y) + ("]" + rest))))), [])
         == [PrintInt(x), PrintInt(y)] + Words(Blank(rest), [])
  {
    IntRoundTrip(x);
    IntRoundTrip(y);
    WordsOfTwo(PrintInt(x), PrintInt(y), rest);
  }

  lemma WordsOfTwo(x: string, y: string, rest: string)
    requires IsWord(x) && IsWord(y)
    ensures Words(Blank("[" + (x + ("," + (y + ("]" + rest))))), []) == [x, y] + Words(Blank(rest), [])
  {
    var second := y + ("]" + rest);
    WordsAfterBracket(x + ("," + second));
    WordAndSeparator(x, ',', second);
    WordAndSeparator(y, ']', rest);
  }

  lemma WordsOfBounds(b: Bounds)
    ensures Words(Blank(PrintBounds(b)), [])
         == [PrintInt(b.left), PrintInt(b.top), PrintInt(b.right), PrintInt(b.bottom)]
  {
    var second := "[" + (PrintInt(b.right) + ("," + (PrintInt(b.bottom) + "]")));
    WordsOfPair(b.left, b.top, second);
    WordsOfPair(b.right, b.bottom, "");
    assert "]" + "" == "]" && Words(Blank(""), []) == [];
  }

  // ---------------------------------------------------------------- action lists

  function Join(names: seq<string>): string {
    if names == [] then ""
    else if |names| == 1 then names[0]
    else names[0] + "," + Join(names[1..])
  }

  /** Split at commas, then drop the empty pieces; `piece` is the piece read so far. */
  function SplitNonEmpty(s: string, piece: string): seq<string> {
    if s == [] then (if piece == [] then [] else [piece])
    else if s[0] == ',' then (if piece == [] then [] else [piece]) + SplitNonEmpty(s[1..], [])
    else SplitNonEmpty(s[1..], piece + [s[0]])
  }

  /** Names that survive: non-empty and free of commas. */
  predicate Plain(name: string) {
    name != "" && ',' !in name
  }

  lemma {:induction false} SplitPiece(run: string, rest: string, piece: string)
    requires ',' !in run
    ensures SplitNonEmpty(run + rest, piece) == SplitNonEmpty(rest, piece + run)
    decreases |run|
  {
    if run == [] {
      assert run + rest == rest && piece + run == piece;
    } else {
      assert (run + rest)[1..] == run[1..] + rest;
      SplitPiece(run[1..], rest, piece + [run[0]]);
      assert piece + [run[0]] + run[1..] == piece + run;
    }
  }

  /** A plain name and what follows it, if anything does. */
  lemma SplitName(name: string, more: string)
    requires Plain(name)
    ensures SplitNonEmpty(name, []) == [name]
    ensures SplitNonEmpty(name + ("," + more), []) == [name] + SplitNonEmpty(more, [])
  {
    SplitPiece(name, "", []);
    assert name + "" == name && [] + name == name;
    SplitPiece(name, "," + more, []);
    assert ("," + more)[1..] == more;
  }

  lemma {:induction false} SplitJoin(names: seq<string>)
    requires forall n | n in names :: Plain(n)
    ensures SplitNonEmpty(Join(names), []) == names
  {
    if names != [] {
      assert names[0] in names;
      SplitName(names[0], Join(names[1..]));
      if |names| == 1 {
        assert names == [names[0]];
      } else {
        SplitJoin(names[1..]);
        assert Join(names) == names[0] + ("," + Join(names[1..]));
        assert names == [names[0]] + names[1..];
      }
    }
  }

  lemma {:induction false} SplitIsPlain(s: string, piece: string)
    requires ',' !in piece
    ensures forall n | n in SplitNonEmpty(s, piece) :: Plain(n)
    decreases |s|
  {
    if s != [] {
      SplitIsPlain(s[1..], if s[0] == ',' then [] else piece + [s[0]]);
    }
  }

  /** An action list survives printing and parsing exactly when all its names are non-empty and
      free of commas. */
  lemma ActionsRoundTrip(names: seq<string>)
    ensures SplitNonEmpty(Join(names), []) == names <==> forall n | n in names :: Plain(n)
  {
    SplitIsPlain(Join(names), []);
    if forall n | n in names :: Plain(n) {
      SplitJoin(names);
    }
  }

  // ---------------------------------------------------------------- printing

  datatype NativeNode = NativeNode(
    text: string, resourceId: string, cls: string, contentDesc: string, bounds: Bounds,
    nodeId: string, actions: seq<string>,
    checkable: bool, checked: bool, clickable: bool, enabled: bool, focused: bool, scrollable: bool, password: bool)

  function Flag(b: bool): string {
    if b then "true" else "false"
  }

  /** The attributes the printer always writes. */
  predicate IsPrinted(a: Name) {
    match a
    case LongClickable | Selected | Editable | Package | HintText | ErrorText => false
    case _ => true
  }

  predicate IsFlag(a: Name) {
    match a
    case Checkable | Checked | Clickable | Enabled | Focused | Scrollable | Password => true
    case LongClickable | Selected | Editable => true
    case _ => false
  }

  predicate NativeFlag(n: NativeNode, a: Name) {
    match a
    case Checkable => n.checkable
    case Checked => n.checked
    case Clickable => n.clickable
    case Enabled => n.enabled
    case Focused => n.focused
    case Scrollable => n.scrollable
    case Password => n.password
    case _ => false
  }

  function NativeText(n: NativeNode, a: Name): string {
    match a
    case Text => n.text
    case ResourceId => n.resourceId
    case Class => n.cls
    case ContentDesc => n.contentDesc
    case NodeIdAttr => n.nodeId
    case _ => ""
  }

  function PrintedValue(n: NativeNode, bounds: string, actions: string, a: Name): string {
    if a.BoundsAttr? then bounds
    else if a.ActionsAttr? then actions
    else if IsFlag(a) then Flag(NativeFlag(n, a))
    else NativeText(n, a)
  }

  function PrintWith(n: NativeNode, bounds: string, actions: string): Attrs {
    map a: Name | IsPrinted(a) :: PrintedValue(n, bounds, actions, a)
  }

  function Print(n: NativeNode): Node {
    Node(PrintWith(n, PrintBounds(n.bounds), Join(n.actions)), [])
  }

  type Window = seq<NativeNode>

  function AllNodes(windows: seq<Window>): seq<NativeNode> {
    if windows == [] then [] else windows[0] + AllNodes(windows[1..])
  }

  function MapSeq<A, B>(f: A -> B, xs: seq<A>): seq<B> {
    seq(|xs|, k requires 0 <= k < |xs| => f(xs[k]))
  }

  function PrintAll(nodes: seq<NativeNode>): seq<Node> {
    MapSeq(Print, nodes)
  }

  lemma MapConcat<A, B>(f: A -> B, a: seq<A>, b: seq<A>)
    ensures MapSeq(f, a + b) == MapSeq(f, a) + MapSeq(f, b)
  {
  }

  /** The printer's two loops: windows, and nodes within a window. */
  method ToCompatXml(windows: seq<Window>) returns (hierarchy: seq<Node>)
    ensures hierarchy == PrintAll(AllNodes(windows))
  {
    hierarchy := PrintWindows(Print, windows);
  }

  method PrintWindows(printer: NativeNode -> Node, windows: seq<Window>) returns (hierarchy: seq<Node>)
    ensures hierarchy == MapSeq(printer, AllNodes(windows))
  {
    hierarchy := [];
    ghost var done: seq<NativeNode> := [];
    for w := 0 to |windows|
      invariant hierarchy == MapSeq(printer, done)
      invariant done + AllNodes(windows[w..]) == AllNodes(windows)
    {
      var window := windows[w];
      assert windows[w..][1..] == windows[w + 1..];
      ghost var before := done;
      for k := 0 to |window|
        invariant done == before + window[..k]
        invariant hierarchy == MapSeq(printer, done)
      {
        MapConcat(printer, done, [window[k]]);
        done := done + [window[k]];
        hierarchy := hierarchy + [printer(window[k])];
      }
      assert done == before + window;
      assert before + (window + AllNodes(windows[w + 1..])) == done + AllNodes(windows[w + 1..]);
    }
    assert done + [] == done;
  }

  // ---------------------------------------------------------------- reading back

  /** `flags` are the names of the boolean fields that are true. */
  datatype Element = Element(
    i: nat, text: string, id: string, cls: string, contentDesc: string, package: string, flags: set<Name>,
    bounds: Bounds, center: (int, int), hintText: Option<string>, errorText: Option<string>,
    nodeId: string, actions: Option<seq<string>>)

  predicate ContainsText(s: string, needle: string)
    decreases |s|
  {
    needle <= s || (s != [] && ContainsText(s[1..], needle))
  }

  function Optional(attrs: Attrs, name: Name): Option<string> {
    if name in attrs then Some(attrs[name]) else None
  }

  predicate IsTrue(attrs: Attrs, a: Name) {
    Attr(attrs, a, if a.Enabled? then "true" else "false") == "true"
  }

  function TextOf(attrs: Attrs, a: Name): string {
    Attr(attrs, a, "")
  }

  function FlagsOf(attrs: Attrs): set<Name> {
    set a: Name | IsFlag(a) && IsTrue(attrs, a)
  }

  /** The middle, rounded down. */
  function Center(b: Bounds): (c: (int, int))
    ensures 2 * c.0 <= b.left + b.right <= 2 * c.0 + 1
    ensures 2 * c.1 <= b.top + b.bottom <= 2 * c.1 + 1
  {
    ((b.left + b.right) / 2, (b.top + b.bottom) / 2)
  }

  function ReadWith(attrs: Attrs, i: nat, b: Bounds, editText: bool): Element {
    Element(
      i, TextOf(attrs, Text), TextOf(attrs, ResourceId), TextOf(attrs, Class), TextOf(attrs, ContentDesc),
      TextOf(attrs, Package), FlagsOf(attrs) + if editText then {Editable} else {},
      b, Center(b), Optional(attrs, HintText), Optional(attrs, ErrorText),
      TextOf(attrs, NodeIdAttr), ReadActions(Optional(attrs, ActionsAttr)))
  }

  function ReadActions(actions: Option<string>): Option<seq<string>> {
    if actions.Some? then Some(SplitNonEmpty(actions.value, [])) else None
  }

  /** One element; None where parsing the bounds raises. */
  function ReadElement(attrs: Attrs, i: nat): Option<Element> {
    var b := ParseBounds(Attr(attrs, BoundsAttr, "[0,0][0,0]"));
    if b.None? then None
    else Some(ReadWith(attrs, i, b.value, ContainsText(TextOf(attrs, Class), "EditText")))
  }

  /** Element number `i` out of a node's attributes, or None where reading it raises. */
  type Reader = (Attrs, nat) -> Option<Element>

  /** The scan over nodes in document order; `i` is the number of the next element. */
  function ScanElements(read: Reader, flat: seq<Node>, i: nat): Option<seq<Element>> {
    if flat == [] then Some([])
    else if !Meaningful(flat[0].attrs) then ScanElements(read, flat[1..], i)
    else
      var first, rest := read(flat[0].attrs, i), ScanElements(read, flat[1..], i + 1);
      if first.None? || rest.None? then None else Some([first.value] + rest.value)
  }

  method ParseElements(nodes: seq<Node>) returns (elements: Option<seq<Element>>)
    ensures elements == ScanElements(ReadElement, Preorder(nodes), 0)
  {
    elements := ParseWith(ReadElement, nodes);
  }

  method ParseWith(read: Reader, nodes: seq<Node>) returns (elements: Option<seq<Element>>)
    ensures elements == ScanElements(read, Preorder(nodes), 0)
  {
    var flat, i: nat, found: seq<Element> := Preorder(nodes), 0, [];
    ghost var all := ScanElements(read, flat, 0);
    assert all.Some? ==> found + all.value == all.value;
    assert flat[0..] == flat;
    for k := 0 to |flat|
      invariant |found| == i
      invariant var rest := ScanElements(read, flat[k..], i);
                all == if rest.None? then None else Some(found + rest.value)
    {
      assert flat[k..][1..] == flat[k + 1..];
      if Meaningful(flat[k].attrs) {
        var el := read(flat[k].attrs, i);
        if el.None? {
          return None;
        }
        ghost var rest := ScanElements(read, flat[k + 1..], i + 1);
        assert rest.Some? ==> found + ([el.value] + rest.value) == (found + [el.value]) + rest.value;
        found := found + [el.value];
        i := i + 1;
      }
    }
    assert found + [] == found;
    elements := Some(found);
  }

  // ---------------------------------------------------------------- the round trip

  predicate IsMeaningful(n: NativeNode) {
    n.text != "" || n.contentDesc != "" || n.clickable
  }

  function NativeFlags(n: NativeNode): set<Name> {
    set a: Name | IsFlag(a) && NativeFlag(n, a)
  }

  function ExpectedWith(n: NativeNode, i: nat, editText: bool, names: seq<string>): Element {
    Element(
      i, n.text, n.resourceId, n.cls, n.contentDesc, "", NativeFlags(n) + if editText then {Editable} else {},
      n.bounds, Center(n.bounds), None, None, n.nodeId, Some(names))
  }

  /** The element a native node should come back as. */
  function Expected(n: NativeNode, i: nat): Element {
    ExpectedWith(n, i, ContainsText(n.cls, "EditText"), n.actions)
  }

  /** The meaningful nodes in order, numbered from `i`. */
  function ExpectedFrom(expected: (NativeNode, nat) -> Element, nodes: seq<NativeNode>, i: nat): seq<Element> {
    if nodes == [] then []
    else if IsMeaningful(nodes[0]) then [expected(nodes[0], i)] + ExpectedFrom(expected, nodes[1..], i + 1)
    else ExpectedFrom(expected, nodes[1..], i)
  }

  predicate PlainActions(n: NativeNode) {
    forall a | a in n.actions :: Plain(a)
  }

  lemma FlagIsTrue(b: bool)
    ensures Flag(b) == "true" <==> b
  {
  }

  lemma PrintedAttribute(n: NativeNode, bounds: string, actions: string, a: Name)
    ensures var attrs := PrintWith(n, bounds, actions);
            && (IsFlag(a) ==> IsTrue(attrs, a) == NativeFlag(n, a))
            && (!IsFlag(a) && !a.BoundsAttr? && !a.ActionsAttr? ==> TextOf(attrs, a) == NativeText(n, a))
            && (a.HintText? || a.ErrorText? ==> Optional(attrs, a).None?)
            && (a.ActionsAttr? ==> Optional(attrs, a) == Some(actions))
            && (a.BoundsAttr? ==> Attr(attrs, a, "[0,0][0,0]") == bounds)
  {
    FlagIsTrue(NativeFlag(n, a));
  }

  lemma MeaningfulPrinted(n: NativeNode, bounds: string, actions: string)
    ensures Meaningful(PrintWith(n, bounds, actions)) <==> IsMeaningful(n)
  {
    PrintedAttribute(n, bounds, actions, Text);
    PrintedAttribute(n, bounds, actions, ContentDesc);
    PrintedAttribute(n, bounds, actions, Clickable);
  }

  lemma FlagsRoundTrip(n: NativeNode, bounds: string, actions: string)
    ensures FlagsOf(PrintWith(n, bounds, actions)) == NativeFlags(n)
  {
    forall a
      ensures a in FlagsOf(PrintWith(n, bounds, actions)) <==> a in NativeFlags(n)
    {
      PrintedAttribute(n, bounds, actions, a);
    }
  }

  lemma TextsRoundTrip(n: NativeNode, bounds: string, actions: string)
    ensures var attrs := PrintWith(n, bounds, actions);
            && TextOf(attrs, Text) == n.text && TextOf(attrs, ResourceId) == n.resourceId
            && TextOf(attrs, Class) == n.cls && TextOf(attrs, ContentDesc) == n.contentDesc
            && TextOf(attrs, Package) == "" && TextOf(attrs, NodeIdAttr) == n.nodeId
  {
    PrintedAttribute(n, bounds, actions, Text);
    PrintedAttribute(n, bounds, actions, ResourceId);
    PrintedAttribute(n, bounds, actions, Class);
    PrintedAttribute(n, bounds, actions, ContentDesc);
    PrintedAttribute(n, bounds, actions, Package);
    PrintedAttribute(n, bounds, actions, NodeIdAttr);
  }

  lemma FieldsRoundTrip(n: NativeNode, bounds: string, actions: string, i: nat, editText: bool)
    ensures ReadWith(PrintWith(n, bounds, actions), i, n.bounds, editText)
         == ExpectedWith(n, i, editText, SplitNonEmpty(actions, []))
  {
    FlagsRoundTrip(n, bounds, actions);
    TextsRoundTrip(n, bounds, actions);
    PrintedAttribute(n, bounds, actions, HintText);
    PrintedAttribute(n, bounds, actions, ErrorText);
    PrintedAttribute(n, bounds, actions, ActionsAttr);
  }

  lemma AttributesRoundTrip(n: NativeNode, bounds: string, actions: string, i: nat)
    requires ParseBounds(bounds) == Some(n.bounds)
    ensures ReadElement(PrintWith(n, bounds, actions), i)
         == Some(ExpectedWith(n, i, ContainsText(n.cls, "EditText"), SplitNonEmpty(actions, [])))
  {
    PrintedAttribute(n, bounds, actions, BoundsAttr);
    PrintedAttribute(n, bounds, actions, Class);
    FieldsRoundTrip(n, bounds, actions, i, ContainsText(n.cls, "EditText"));
  }

  /** A node comes back as expected, its action list aside; with it exactly if its names are plain. */
  ghost predicate RoundTrips(read: Reader, printer: NativeNode -> Node, expected: (NativeNode, nat) -> Element,
                             n: NativeNode, i: nat)
  {
    var e := read(printer(n).attrs, i);
    && (Meaningful(printer(n).attrs) <==> IsMeaningful(n))
    && printer(n).children == []
    && e.Some? && e.value.(actions := None) == expected(n, i).(actions := None)
    && (e.value == expected(n, i) <==> PlainActions(n))
  }

  lemma ElementRoundTrip(n: NativeNode, i: nat)
    ensures RoundTrips(ReadElement, Print, Expected, n, i)
  {
    var bounds, actions := PrintBounds(n.bounds), Join(n.actions);
    var names := SplitNonEmpty(actions, []);
    BoundsRoundTrip(n.bounds);
    ActionsRoundTrip(n.actions);
    MeaningfulPrinted(n, bounds, actions);
    AttributesRoundTrip(n, bounds, actions, i);
    assert ReadElement(Print(n).attrs, i) == Some(ExpectedWith(n, i, ContainsText(n.cls, "EditText"), names));
  }

  lemma {:induction false} FlatDocument(nodes: seq<Node>)
    requires forall n | n in nodes :: n.children == []
    ensures Preorder(nodes) == nodes
  {
    if nodes != [] {
      FlatDocument(nodes[1..]);
      assert nodes[0] in nodes;
      assert nodes == [nodes[0]] + [] + nodes[1..];
    }
  }

  ghost predicate SameButActions(a: seq<Element>, b: seq<Element>) {
    |a| == |b| && forall k | 0 <= k < |a| :: a[k].(actions := None) == b[k].(actions := None)
  }

  /** Every meaningful node's action names are plain. */
  predicate AllPlain(nodes: seq<NativeNode>) {
    forall k | 0 <= k < |nodes| && IsMeaningful(nodes[k]) :: PlainActions(nodes[k])
  }

  /** Reading what was printed succeeds, and yields what is expected up to action lists that are
      equal exactly when they are plain. */
  ghost predicate ComesBack(found: Option<seq<Element>>, wanted: seq<Element>, nodes: seq<NativeNode>) {
    found.Some? && SameButActions(found.value, wanted) && (found.value == wanted <==> AllPlain(nodes))
  }

  lemma ComesBackCons(e: Element, found: seq<Element>, x: Element, wanted: seq<Element>, nodes: seq<NativeNode>)
    requires nodes != [] && IsMeaningful(nodes[0]) && ComesBack(Some(found), wanted, nodes[1..])
    requires e.(actions := None) == x.(actions := None) && (e == x <==> PlainActions(nodes[0]))
    ensures ComesBack(Some([e] + found), [x] + wanted, nodes)
  {
    ConsEqual(e, found, x, wanted);
    assert forall k | 1 <= k < 1 + |found| :: ([e] + found)[k] == found[k - 1] && ([x] + wanted)[k] == wanted[k - 1];
  }

  lemma {:induction false} ScanPrinted(read: Reader, printer: NativeNode -> Node,
                                       expected: (NativeNode, nat) -> Element,
                                       nodes: seq<NativeNode>, i: nat)
    requires forall n, i :: RoundTrips(read, printer, expected, n, i)
    ensures ComesBack(ScanElements(read, MapSeq(printer, nodes), i), ExpectedFrom(expected, nodes, i), nodes)
    decreases |nodes|
  {
    if nodes != [] {
      var printed := MapSeq(printer, nodes);
      assert printed[0] == printer(nodes[0]) && printed[1..] == MapSeq(printer, nodes[1..]);
      assert RoundTrips(read, printer, expected, nodes[0], i);
      if IsMeaningful(nodes[0]) {
        ScanPrinted(read, printer, expected, nodes[1..], i + 1);
        var e, rest := read(printed[0].attrs, i).value, ScanElements(read, printed[1..], i + 1).value;
        ComesBackCons(e, rest, expected(nodes[0], i), ExpectedFrom(expected, nodes[1..], i + 1), nodes);
      } else {
        ScanPrinted(read, printer, expected, nodes[1..], i);
      }
    }
  }

  lemma ConsEqual(a: Element, xs: seq<Element>, b: Element, ys: seq<Element>)
    ensures [a] + xs == [b] + ys <==> a == b && xs == ys
  {
    if [a] + xs == [b] + ys {
      assert a == ([a] + xs)[0] == ([b] + ys)[0] && xs == ([a] + xs)[1..] == ([b] + ys)[1..];
    }
  }

  /** Printing the windows of an observation and parsing the result never fails and yields the
      meaningful nodes, in window and node order, numbered from 0, unchanged in bounds, flags and
      ids; their action lists too exactly when the names of every meaningful node are plain. */
  lemma NativeRoundTrip(windows: seq<Window>)
    ensures var nodes := AllNodes(windows);
            var found := ScanElements(ReadElement, Preorder(PrintAll(nodes)), 0);
            var wanted := ExpectedFrom(Expected, nodes, 0);
            found.Some? && SameButActions(found.value, wanted) && (found.value == wanted <==> AllPlain(nodes))
  {
    var nodes := AllNodes(windows);
    forall n, i: nat
      ensures RoundTrips(ReadElement, Print, Expected, n, i)
    {
      ElementRoundTrip(n, i);
    }
    assert forall n :: RoundTrips(ReadElement, Print, Expected, n, 0) ==> Print(n).children == [];
    FlatDocument(PrintAll(nodes));
    ScanPrinted(ReadElement, Print, Expected, nodes, 0);
  }

  /** The elements are numbered 0, 1, ... like the flat scan numbers the meaningful nodes. */
  lemma {:induction false} ElementNumbers(read: Reader, flat: seq<Node>, i: nat)
    requires forall attrs, k :: read(attrs, k).Some? ==> read(attrs, k).value.i == k
    requires ScanElements(read, flat, i).Some?
    ensures var els := ScanElements(read, flat, i).value;
            |els| == CountMeaningful(flat) && forall k | 0 <= k < |els| :: els[k].i == i + k
    decreases |flat|
  {
    if flat != [] {
      ElementNumbers(read, flat[1..], if Meaningful(flat[0].attrs) then i + 1 else i);
    }
  }

  /** The element numbered `x` is read from the node that the flat scan numbers `x`. */
  lemma {:induction false} ElementsAreScanned(read: Reader, flat: seq<Node>, i: nat, p: nat)
    requires ScanElements(read, flat, i).Some? && p < |flat|
    ensures |ScanFrom(flat, i)| == |flat|
    ensures var els := ScanElements(read, flat, i).value;
            match ScanFrom(flat, i)[p]
            case Some(x) => i <= x < i + |els| && read(flat[p].attrs, x) == Some(els[x - i])
            case None => !Meaningful(flat[p].attrs)
    decreases |flat|
  {
    ScanLength(flat, i);
    if p > 0 {
      var next := i + Weight(flat[0]);
      ElementsAreScanned(read, flat[1..], next, p - 1);
      assert ScanFrom(flat, i)[p] == ScanFrom(flat[1..], next)[p - 1];
    }
  }
}
