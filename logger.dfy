/**
 * The console logger of src/classes/Logger.ts: tag names padded to a common
 * width, tags rendered between edge characters, layer tabs, and the line that
 * `print` writes. Colouring is the identity here, and `print` returns the
 * line (and the warning it would emit) instead of writing them.
 */
module Logger {
  import opened Wrappers
  import opened Strings

  /** The keys of `ValidLogTagNames`, in declaration order. */
  datatype TagId = Client | Events | Setup | Error | Commands

  const TagIds: seq<TagId> := [Client, Events, Setup, Error, Commands]

  /** The object key of a tag, as `print`'s warning names it. */
  function TagKey(t: TagId): string {
    match t
    case Client => "client"
    case Events => "events"
    case Setup => "setup"
    case Error => "error"
    case Commands => "commands"
  }

  /** `ValidLogTagNames[t]`: the name shown inside the tag. */
  function TagName(t: TagId): string {
    match t
    case Client => "Client"
    case Events => "Events"
    case Setup => "Setup"
    case Error => "Error"
    case Commands => "Commands"
  }

  /** `ValidLogTagNames` as a map. */
  function TagNames(): (m: map<TagId, string>)
    ensures forall t :: t in m && m[t] == TagName(t)
  {
    AllTagIdsListed();
    map t | t in TagIds :: TagName(t)
  }

  lemma AllTagIdsListed()
    ensures forall t :: t in TagIds
  {
    forall t
      ensures t in TagIds
    {
      assert TagIds[TagIndex(t)] == t;
    }
  }

  /** Where a tag sits among the keys. */
  function TagIndex(t: TagId): (i: nat)
    ensures i < |TagIds| && TagIds[i] == t
  {
    match t
    case Client => 0
    case Events => 1
    case Setup => 2
    case Error => 3
    case Commands => 4
  }

  lemma TagNameAtMostEight(t: TagId)
    ensures |TagName(t)| <= 8
  {
  }

  // ---------------------------------------------------------------------------
  // generatePaddedValues

  /** `Math.max(...)` of the lengths of the strings under `keys`. */
  function MaxLength(strings: map<TagId, string>, keys: seq<TagId>): (m: int)
    requires keys != [] && forall k :: k in keys ==> k in strings
    ensures forall k :: k in keys ==> |strings[k]| <= m
    ensures exists k :: k in keys && |strings[k]| == m
  {
    if |keys| == 1 then |strings[keys[0]]|
    else
      var rest := MaxLength(strings, keys[1..]);
      if |strings[keys[0]]| >= rest then |strings[keys[0]]| else rest
  }

  /** The padding `generatePaddedValues` gives the string under `t`. */
  function PaddingFor(strings: map<TagId, string>, t: TagId): int
    requires forall k :: k in strings
  {
    MaxLength(strings, TagIds) - |strings[t]|
  }

  /**
   * `generatePaddedValues`: for every key, how much shorter its string is
   * than the longest one. No padding is negative, every string plus its
   * padding has the same length, and the longest string gets none.
   */
  method GeneratePaddedValues(strings: map<TagId, string>) returns (padded: map<TagId, int>)
    requires forall k :: k in strings
    ensures forall t :: t in padded && padded[t] == PaddingFor(strings, t)
    ensures forall t :: padded[t] >= 0
    ensures forall t, u :: |strings[t]| + padded[t] == |strings[u]| + padded[u]
    ensures exists t :: padded[t] == 0
  {
    var maxLength := MaxLength(strings, TagIds);
    padded := map[];
    for i := 0 to |TagIds|
      invariant forall j :: 0 <= j < i ==> TagIds[j] in padded && padded[TagIds[j]] == maxLength - |strings[TagIds[j]]|
    {
      var key := TagIds[i];
      padded := padded[key := maxLength - |strings[key]|];
    }
    EveryKeyPadded(strings, padded, maxLength);
    PaddingProperties(strings, padded);
  }

  /** Paddings of `max - length`: never negative, equal totals, and none for the longest string. */
  lemma PaddingProperties(strings: map<TagId, string>, padded: map<TagId, int>)
    requires forall k :: k in strings
    requires forall t :: t in padded && padded[t] == PaddingFor(strings, t)
    ensures forall t :: padded[t] >= 0
    ensures forall t, u :: |strings[t]| + padded[t] == |strings[u]| + padded[u]
    ensures exists t :: padded[t] == 0
  {
    var maxLength := MaxLength(strings, TagIds);
    AllTagIdsListed();
    assert forall t :: |strings[t]| <= maxLength;
    var longest :| longest in TagIds && |strings[longest]| == maxLength;
    assert padded[longest] == 0;
  }

  /** A map that holds `max - length` under every key of `TagIds` holds it under every tag. */
  lemma EveryKeyPadded(strings: map<TagId, string>, padded: map<TagId, int>, maxLength: int)
    requires forall k :: k in strings
    requires forall j :: 0 <= j < |TagIds| ==> TagIds[j] in padded && padded[TagIds[j]] == maxLength - |strings[TagIds[j]]|
    ensures forall t :: t in padded && padded[t] == maxLength - |strings[t]|
  {
    forall t
      ensures t in padded && padded[t] == maxLength - |strings[t]|
    {
      assert TagIds[TagIndex(t)] == t;
    }
  }

  /** `ValidLogTagNamePadding`. */
  function NamePadding(t: TagId): (p: int)
    ensures p >= 0 && |TagName(t)| + p == 8
  {
    LongestTagName();
    TagNameAtMostEight(t);
    PaddingFor(TagNames(), t)
  }

  /** `Commands`, eight characters, is the longest tag name. */
  lemma LongestTagName()
    ensures MaxLength(TagNames(), TagIds) == 8
  {
    var m := TagNames();
    var longest := MaxLength(m, TagIds);
    assert |m[Commands]| == 8;
    var k :| k in TagIds && |m[k]| == longest;
    TagNameAtMostEight(k);
  }

  /** The paddings of the five tags: `Commands` gets none, and every name plus its padding is eight wide. */
  lemma NamePaddingValues()
    ensures NamePadding(Client) == 2 && NamePadding(Events) == 2 && NamePadding(Setup) == 3
    ensures NamePadding(Error) == 3 && NamePadding(Commands) == 0
    ensures forall t :: NamePadding(t) >= 0 && |TagName(t)| + NamePadding(t) == 8
  {
    LongestTagName();
    forall t
      ensures NamePadding(t) == 8 - |TagName(t)| >= 0
    {
      TagNameAtMostEight(t);
    }
  }

  // ---------------------------------------------------------------------------
  // LogTag and LogLayerTab

  /** `s.repeat(n)`. */
  function Repeat(s: string, n: nat): string {
    if n == 0 then "" else s + Repeat(s, n - 1)
  }

  lemma {:induction false} RepeatLength(s: string, n: nat)
    ensures |Repeat(s, n)| == n * |s|
  {
    if n > 0 {
      RepeatLength(s, n - 1);
    }
  }

  /** Repeating once more appends one more copy at the end. */
  lemma {:induction false} RepeatSnoc(s: string, n: nat)
    ensures Repeat(s, n + 1) == Repeat(s, n) + s
  {
    if n > 0 {
      RepeatSnoc(s, n - 1);
    }
  }

  datatype LogTagName = LogTagName(name: TagId, spaceChar: string, hexColor: string)

  datatype LogTagEdges = LogTagEdges(start: string, end: string, hexColor: string)

  datatype LogTag = LogTag(tagName: LogTagName, tagEdges: LogTagEdges)

  /** `Math.floor(padding / 2)`. */
  function PadLeftAmount(padding: nat): nat {
    padding / 2
  }

  /** `Math.floor(padding / 2) + padding % 2`: the odd space goes to the right. */
  function PadRightAmount(padding: nat): (r: nat)
    ensures PadLeftAmount(padding) + r == padding
    ensures PadLeftAmount(padding) <= r <= PadLeftAmount(padding) + 1
  {
    padding / 2 + padding % 2
  }

  /** The left padding: `n - 1` space characters, then one plain space next to the name. */
  function PaddingLeft(spaceChar: string, n: nat): string {
    if n == 0 then "" else Repeat(spaceChar, n - 1) + " "
  }

  /** The right padding: one plain space next to the name, then `n - 1` space characters. */
  function PaddingRight(spaceChar: string, n: nat): string {
    if n == 0 then "" else " " + Repeat(spaceChar, n - 1)
  }

  lemma PaddingWidths(spaceChar: string, n: nat)
    requires |spaceChar| == 1
    ensures |PaddingLeft(spaceChar, n)| == n && |PaddingRight(spaceChar, n)| == n
  {
    if n > 0 {
      RepeatLength(spaceChar, n - 1);
    }
  }

  /** `LogTag.toString(padding)`. */
  function TagToString(t: LogTag, padding: nat): (s: string)
    ensures StartsWith(s, t.tagEdges.start) && EndsWith(s, t.tagEdges.end)
  {
    var name := PaddingLeft(t.tagName.spaceChar, PadLeftAmount(padding)) + TagName(t.tagName.name)
                + PaddingRight(t.tagName.spaceChar, PadRightAmount(padding));
    Framed(t.tagEdges.start, name, t.tagEdges.end);
    t.tagEdges.start + name + t.tagEdges.end
  }

  /** With a one-character space character, a tag is its edges, its name and exactly `padding` characters wide. */
  lemma TagWidth(t: LogTag, padding: nat)
    requires |t.tagName.spaceChar| == 1
    ensures |TagToString(t, padding)| == |t.tagEdges.start| + padding + |TagName(t.tagName.name)| + |t.tagEdges.end|
  {
    PaddingWidths(t.tagName.spaceChar, PadLeftAmount(padding));
    PaddingWidths(t.tagName.spaceChar, PadRightAmount(padding));
  }

  /** A tag's text, read from the start: the start edge, the left padding, then the name. */
  lemma TagLayout(t: LogTag, padding: nat)
    ensures var s := TagToString(t, padding);
      var l := PaddingLeft(t.tagName.spaceChar, PadLeftAmount(padding));
      && s[..|t.tagEdges.start|] == t.tagEdges.start
      && s[|t.tagEdges.start| + |l|..|t.tagEdges.start| + |l| + |TagName(t.tagName.name)|] == TagName(t.tagName.name)
      && s[|s| - |t.tagEdges.end|..] == t.tagEdges.end
  {
    var s := TagToString(t, padding);
    var l := PaddingLeft(t.tagName.spaceChar, PadLeftAmount(padding));
    var r := PaddingRight(t.tagName.spaceChar, PadRightAmount(padding));
    var st, nm, en := t.tagEdges.start, TagName(t.tagName.name), t.tagEdges.end;
    assert s == st + l + nm + r + en;
    assert s[|st| + |l|..|st| + |l| + |nm|] == nm;
  }

  /** Every tag padded as `Log` pads it has the same width, when the space characters are one character and the edges agree in width. */
  lemma TagsAlign(t: LogTag, u: LogTag)
    requires |t.tagName.spaceChar| == 1 && |u.tagName.spaceChar| == 1
    requires |t.tagEdges.start| + |t.tagEdges.end| == |u.tagEdges.start| + |u.tagEdges.end|
    ensures |TagToString(t, NamePadding(t.tagName.name))| == |TagToString(u, NamePadding(u.tagName.name))|
  {
    NamePaddingValues();
    var pt, pu := NamePadding(t.tagName.name), NamePadding(u.tagName.name);
    assert |TagName(t.tagName.name)| + pt == 8 && |TagName(u.tagName.name)| + pu == 8;
    TagWidth(t, pt);
    TagWidth(u, pu);
  }

  datatype LogLayerTab = LogLayerTab(tabChar: string, size: nat, color: string)

  /** `LogLayerTab.toString()`: the tab character repeated `size` times. */
  function TabToString(tab: LogLayerTab): (s: string)
    ensures |s| == tab.size * |tab.tabChar|
  {
    RepeatLength(tab.tabChar, tab.size);
    Repeat(tab.tabChar, tab.size)
  }

  // ---------------------------------------------------------------------------
  // String.prototype.trim

  /** The characters `trim` removes: ECMAScript's WhiteSpace and LineTerminator. */
  predicate IsWhitespace(c: char) {
    || c == '\t' || c == '\n' || c == '\U{B}' || c == '\U{C}' || c == '\r' || c == ' '
    || c == '\U{A0}' || c == '\U{1680}' || ('\U{2000}' <= c <= '\U{200A}')
    || c == '\U{2028}' || c == '\U{2029}' || c == '\U{202F}' || c == '\U{205F}'
    || c == '\U{3000}' || c == '\U{FEFF}'
  }

  /** Drops the leading whitespace, and only that: the result is a suffix, and what went before it is all whitespace. */
  function TrimStart(s: string): (r: string)
    ensures |r| <= |s| && r == s[|s| - |r|..]
    ensures AllWhitespace(s[..|s| - |r|])
    ensures r == [] || !IsWhitespace(r[0])
  {
    if s != [] && IsWhitespace(s[0]) then
      var r := TrimStart(s[1..]);
      assert s[..|s| - |r|] == [s[0]] + s[1..][..|s| - 1 - |r|];
      r
    else s
  }

  /** Drops the trailing whitespace, and only that: the result is a prefix, and what came after it is all whitespace. */
  function TrimEnd(s: string): (r: string)
    ensures |r| <= |s| && r == s[..|r|]
    ensures AllWhitespace(s[|r|..])
    ensures r == [] || !IsWhitespace(r[|r| - 1])
  {
    if s != [] && IsWhitespace(s[|s| - 1]) then
      var r := TrimEnd(s[..|s| - 1]);
      assert s[|r|..] == s[..|s| - 1][|r|..] + [s[|s| - 1]];
      r
    else s
  }

  /**
   * `trim()`: the middle of the string, between a whitespace-only start and
   * a whitespace-only end, which itself starts and ends with a visible
   * character or is empty.
   */
  function Trim(s: string): (r: string)
    ensures |r| <= |s|
    ensures exists i, j :: 0 <= i <= j <= |s| && r == s[i..j] && AllWhitespace(s[..i]) && AllWhitespace(s[j..])
    ensures r == [] || (!IsWhitespace(r[0]) && !IsWhitespace(r[|r| - 1]))
  {
    var t := TrimStart(s);
    var r := TrimEnd(t);
    var i, j := |s| - |t|, |s| - |t| + |r|;
    assert r == s[i..j];
    assert s[j..] == t[|r|..];
    r
  }

  predicate AllWhitespace(s: string) {
    forall i :: 0 <= i < |s| ==> IsWhitespace(s[i])
  }

  lemma {:induction false} TrimEndDropsWhitespace(s: string, w: string)
    requires AllWhitespace(w)
    ensures TrimEnd(s + w) == TrimEnd(s)
    decreases |w|
  {
    if w != [] {
      var w' := w[..|w| - 1];
      assert IsWhitespace((s + w)[|s + w| - 1]);
      assert (s + w)[..|s + w| - 1] == s + w';
      assert TrimEnd(s + w) == TrimEnd(s + w');
      assert AllWhitespace(w');
      TrimEndDropsWhitespace(s, w');
    } else {
      assert s + w == s;
    }
  }

  lemma {:induction false} TrimStartOfWhitespace(w: string)
    requires AllWhitespace(w)
    ensures TrimStart(w) == ""
    decreases |w|
  {
    if w != [] {
      TrimStartOfWhitespace(w[1..]);
    }
  }

  lemma {:induction false} TrimStartDropsWhitespace(w: string, u: string)
    requires AllWhitespace(w) && (u == [] || !IsWhitespace(u[0]))
    ensures TrimStart(w + u) == u
    decreases |w|
  {
    if w == [] {
      assert w + u == u;
    } else {
      assert (w + u)[1..] == w[1..] + u;
      TrimStartDropsWhitespace(w[1..], u);
    }
  }

  /**
   * `trim` is the only cut of this shape: whenever `s` is a whitespace-only
   * start, a middle that is empty or has visible ends, and a whitespace-only
   * end, the middle is `s.trim()`.
   */
  lemma TrimUnique(s: string, i: nat, j: nat)
    requires i <= j <= |s| && AllWhitespace(s[..i]) && AllWhitespace(s[j..])
    requires i == j || (!IsWhitespace(s[i]) && !IsWhitespace(s[j - 1]))
    ensures Trim(s) == s[i..j]
  {
    if i == j {
      WhitespaceHalves(s, i);
      TrimStartOfWhitespace(s);
      assert TrimEnd(TrimStart(s)) == [];
    } else {
      var w, m, e := s[..i], s[i..j], s[j..];
      assert s == w + (m + e);
      TrimStartDropsWhitespace(w, m + e);
      TrimEndDropsWhitespace(m, e);
      assert TrimEnd(m) == m;
      assert TrimEnd(TrimStart(s)) == m;
    }
  }

  lemma WhitespaceHalves(s: string, i: nat)
    requires i <= |s| && AllWhitespace(s[..i]) && AllWhitespace(s[i..])
    ensures AllWhitespace(s)
  {
    forall k | 0 <= k < |s|
      ensures IsWhitespace(s[k])
    {
      if k < i {
        assert s[k] == s[..i][k];
      } else {
        assert s[k] == s[i..][k - i];
      }
    }
  }

  lemma {:induction false} RepeatOfWhitespace(s: string, n: nat)
    requires AllWhitespace(s)
    ensures AllWhitespace(Repeat(s, n))
  {
    if n > 0 {
      RepeatOfWhitespace(s, n - 1);
      assert Repeat(s, n) == s + Repeat(s, n - 1);
    }
  }

  // ---------------------------------------------------------------------------
  // Log

  datatype RenderedTag = RenderedTag(id: TagId, tag: string)

  datatype Log = Log(tags: seq<RenderedTag>, layerTab: LogLayerTab,
                     spaceAfterTag: bool, spaceBetweenLayers: bool, spaceBeforeMessage: bool)

  /** The `Log` constructor: every tag rendered once, with the padding of its name. */
  function NewLog(tags: seq<LogTag>, layerTab: LogLayerTab, spaceAfterTag: bool, spaceBetweenLayers: bool,
                  spaceBeforeMessage: bool): (l: Log)
    ensures |l.tags| == |tags|
    ensures forall i :: 0 <= i < |tags| ==>
      && l.tags[i].id == tags[i].tagName.name
      && StartsWith(l.tags[i].tag, tags[i].tagEdges.start) && EndsWith(l.tags[i].tag, tags[i].tagEdges.end)
    ensures l.layerTab == layerTab && l.spaceAfterTag == spaceAfterTag
    ensures l.spaceBetweenLayers == spaceBetweenLayers && l.spaceBeforeMessage == spaceBeforeMessage
  {
    Log(seq(|tags|, i requires 0 <= i < |tags| =>
              RenderedTag(tags[i].tagName.name, TagToString(tags[i], NamePadding(tags[i].tagName.name)))),
        layerTab, spaceAfterTag, spaceBetweenLayers, spaceBeforeMessage)
  }

  /** The tags of a log keep their order and ids, and all come out equally wide when their spacing agrees. */
  lemma NewLogTagsAlign(tags: seq<LogTag>, layerTab: LogLayerTab, spaceAfterTag: bool, spaceBetweenLayers: bool,
                        spaceBeforeMessage: bool, w: nat)
    requires forall i :: 0 <= i < |tags| ==>
      |tags[i].tagName.spaceChar| == 1 && |tags[i].tagEdges.start| + |tags[i].tagEdges.end| == w
    ensures var l := NewLog(tags, layerTab, spaceAfterTag, spaceBetweenLayers, spaceBeforeMessage);
      && |l.tags| == |tags|
      && (forall i :: 0 <= i < |tags| ==> l.tags[i].id == tags[i].tagName.name)
      && (forall i :: 0 <= i < |tags| ==> |l.tags[i].tag| == w + 8)
  {
    var l := NewLog(tags, layerTab, spaceAfterTag, spaceBetweenLayers, spaceBeforeMessage);
    forall i | 0 <= i < |tags|
      ensures |l.tags[i].tag| == w + 8
    {
      NamePaddingValues();
      TagWidth(tags[i], NamePadding(tags[i].tagName.name));
    }
  }

  /** `this.tags.find(t => t.id === tag)?.tag`. */
  function FindTag(tags: seq<RenderedTag>, id: TagId): (r: Option<string>)
    ensures r.None? <==> forall i :: 0 <= i < |tags| ==> tags[i].id != id
    ensures r.Some? ==> exists i :: 0 <= i < |tags| && tags[i].id == id && tags[i].tag == r.value &&
                                    forall j :: 0 <= j < i ==> tags[j].id != id
  {
    if tags == [] then None
    else if tags[0].id == id then Some(tags[0].tag)
    else
      var r := FindTag(tags[1..], id);
      if r.Some? then
        var i :| 0 <= i < |tags[1..]| && tags[1..][i].id == id && tags[1..][i].tag == r.value &&
                 forall j :: 0 <= j < i ==> tags[1..][j].id != id;
        assert tags[i + 1] == tags[1..][i];
        r
      else r
  }

  /** The layers part of a line: a space and the trimmed repetition of the tab (and its separator). */
  function LayerSegment(tab: LogLayerTab, spaceBetweenLayers: bool, layer: nat): (r: string)
    ensures layer == 0 ==> r == ""
    ensures layer > 0 ==> r != [] && r[0] == ' ' && (|r| == 1 || !IsWhitespace(r[|r| - 1]))
  {
    var layers := Repeat(TabToString(tab) + (if spaceBetweenLayers then " " else ""), layer);
    var t := Trim(layers);
    assert layer == 0 ==> layers == "" && t == "";
    assert layer > 0 && t != [] ==> (" " + t)[|t|] == t[|t| - 1];
    (if layer > 0 then " " else "") + t
  }

  /** What `print` emits: the warning for an unknown tag, and the line. */
  datatype Printed = Printed(warning: Option<string>, line: string)

  /** `print(tag, message, layer)`. */
  function Print(log: Log, tag: TagId, message: string, layer: nat): (p: Printed)
    ensures p.warning.Some? <==> forall i :: 0 <= i < |log.tags| ==> log.tags[i].id != tag
  {
    var coloredTag := FindTag(log.tags, tag);
    var warning := if coloredTag.None? then Some("Logger: Tag `" + TagKey(tag) + "` was not found!") else None;
    var prefix := if coloredTag.Some? then coloredTag.value else "undefined";
    Printed(warning, Line(prefix, log.spaceAfterTag, LayerSegment(log.layerTab, log.spaceBetweenLayers, layer),
                          log.spaceBeforeMessage, message))
  }

  /** The template literal of `print`. */
  function Line(prefix: string, spaceAfterTag: bool, layers: string, spaceBeforeMessage: bool, message: string): (l: string)
    ensures StartsWith(l, prefix) && EndsWith(l, message)
  {
    var mid := (if spaceAfterTag then " " else "") + layers + (if spaceBeforeMessage then " " else "");
    Framed(prefix, mid, message);
    assert prefix + (if spaceAfterTag then " " else "") + layers + (if spaceBeforeMessage then " " else "") + message
           == prefix + mid + message;
    prefix + (if spaceAfterTag then " " else "") + layers + (if spaceBeforeMessage then " " else "") + message
  }

  lemma LayerZeroIsEmpty(tab: LogLayerTab, spaceBetweenLayers: bool)
    ensures LayerSegment(tab, spaceBetweenLayers, 0) == ""
  {
    assert Repeat(TabToString(tab) + (if spaceBetweenLayers then " " else ""), 0) == "";
  }

  /**
   * The line starts with the first rendered tag of that id (or `undefined`
   * when there is none, which is still printed) and ends with the message;
   * at layer 0 nothing but the optional spaces lies between them.
   */
  lemma PrintLayout(log: Log, tag: TagId, message: string, layer: nat)
    ensures var p := Print(log, tag, message, layer);
      var prefix := if FindTag(log.tags, tag).Some? then FindTag(log.tags, tag).value else "undefined";
      && StartsWith(p.line, prefix)
      && EndsWith(p.line, message)
      && (layer == 0 ==> p.line == Line(prefix, log.spaceAfterTag, "", log.spaceBeforeMessage, message))
  {
    var coloredTag := FindTag(log.tags, tag);
    var prefix := if coloredTag.Some? then coloredTag.value else "undefined";
    var seg := LayerSegment(log.layerTab, log.spaceBetweenLayers, layer);
    if layer == 0 {
      LayerZeroIsEmpty(log.layerTab, log.spaceBetweenLayers);
    }
  }

  lemma Framed(a: string, b: string, c: string)
    ensures StartsWith(a + b + c, a) && EndsWith(a + b + c, c)
  {
    assert (a + b + c)[..|a|] == a;
    assert (a + b + c)[|a + b + c| - |c|..] == c;
  }

  /**
   * For a tab whose text starts and ends with visible characters, the layers
   * part at layer `n > 0` is a space and `n` tabs joined by the separator:
   * `trim` only removes the separator after the last tab.
   */
  lemma {:induction false} LayerSegmentVisibleTab(tab: LogLayerTab, spaceBetweenLayers: bool, layer: nat)
    requires layer > 0
    requires var x := TabToString(tab); x != [] && !IsWhitespace(x[0]) && !IsWhitespace(x[|x| - 1])
    ensures var x := TabToString(tab); var sep := if spaceBetweenLayers then " " else "";
      LayerSegment(tab, spaceBetweenLayers, layer) == " " + Repeat(x + sep, layer - 1) + x
  {
    var x := TabToString(tab);
    var sep := if spaceBetweenLayers then " " else "";
    LayerSegmentUnfold(tab, spaceBetweenLayers, layer);
    TrimRepeatedTab(x, sep, layer);
  }

  lemma LayerSegmentUnfold(tab: LogLayerTab, spaceBetweenLayers: bool, layer: nat)
    requires layer > 0
    ensures LayerSegment(tab, spaceBetweenLayers, layer)
            == " " + Trim(Repeat(TabToString(tab) + (if spaceBetweenLayers then " " else ""), layer))
  {
  }

  /** Repeating a visibly framed text with a whitespace separator and trimming drops only the final separator. */
  lemma TrimRepeatedTab(x: string, sep: string, n: nat)
    requires n > 0 && x != [] && !IsWhitespace(x[0]) && !IsWhitespace(x[|x| - 1])
    requires AllWhitespace(sep)
    ensures Trim(Repeat(x + sep, n)) == Repeat(x + sep, n - 1) + x
  {
    var u := x + sep;
    var body := Repeat(u, n - 1) + x;
    RepeatSnoc(u, n - 1);
    assert Repeat(u, n) == body + sep;
    FirstOfRepeatThen(u, n - 1, x);
    assert body[|body| - 1] == x[|x| - 1];
    TrimFramedText(body, sep);
  }

  /** `trim` keeps text that starts and ends visibly, once the trailing whitespace is gone. */
  lemma TrimFramedText(body: string, sep: string)
    requires body != [] && !IsWhitespace(body[0]) && !IsWhitespace(body[|body| - 1])
    requires AllWhitespace(sep)
    ensures Trim(body + sep) == body
  {
    assert (body + sep)[0] == body[0];
    assert TrimStart(body + sep) == body + sep;
    TrimEndDropsWhitespace(body, sep);
  }

  /** `Repeat(u, n) + x` starts like `u`, or like `x` when `n` is 0. */
  lemma FirstOfRepeatThen(u: string, n: nat, x: string)
    requires x != [] && u != [] && u[0] == x[0]
    ensures (Repeat(u, n) + x)[0] == x[0]
  {
    if n > 0 {
      assert Repeat(u, n) == u + Repeat(u, n - 1);
    }
  }

  /** A tab made only of whitespace trims away completely, leaving a lone space at any layer above 0. */
  lemma LayerSegmentBlankTab(tab: LogLayerTab, spaceBetweenLayers: bool, layer: nat)
    requires layer > 0 && AllWhitespace(tab.tabChar)
    ensures LayerSegment(tab, spaceBetweenLayers, layer) == " "
  {
    var x := TabToString(tab);
    var sep := if spaceBetweenLayers then " " else "";
    RepeatOfWhitespace(tab.tabChar, tab.size);
    assert AllWhitespace(x + sep);
    RepeatOfWhitespace(x + sep, layer);
    TrimStartOfWhitespace(Repeat(x + sep, layer));
  }
}
