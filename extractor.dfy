/** `LinkAndTextExtractor`, the HTML-parser callbacks that collect anchors,
    visible text and the page title. The parser itself is not modelled: its
    callbacks arrive as a sequence of events. */
module Extractor {
  import opened Wrappers
  import opened Strings

  /** One callback: `handle_starttag(tag, attrs)` (an attribute written
      without a value has `None`), `handle_endtag(tag)`, `handle_data(data)`. */
  datatype Event =
    | StartTag(tag: string, attrs: seq<(string, Option<string>)>)
    | EndTag(tag: string)
    | Data(data: string)

  /** Elements whose content is not visible text. */
  predicate IsSkipTag(tag: string) {
    tag == "script" || tag == "style" || tag == "noscript"
  }

  /** `dict(attrs).get(name)`: the value of the last attribute with that name;
      `None` when there is none or it has no value. */
  function AttrValue(attrs: seq<(string, Option<string>)>, name: string): Option<string>
    decreases |attrs|
  {
    if attrs == [] then None
    else if attrs[|attrs| - 1].0 == name then attrs[|attrs| - 1].1
    else AttrValue(attrs[..|attrs| - 1], name)
  }

  /** The link an event contributes: the non-empty `href` of an `a` tag. */
  function LinkOf(e: Event): seq<string> {
    if e.StartTag? && e.tag == "a" then
      match AttrValue(e.attrs, "href")
      case Some(h) => if h != [] then [h] else []
      case None => []
    else []
  }

  /** How one event changes the stack of open skipped elements. */
  function SkipStep(stack: seq<string>, e: Event): seq<string> {
    match e
    case StartTag(tag, _) => if IsSkipTag(tag) then stack + [tag] else stack
    case EndTag(tag) => if stack != [] && stack[|stack| - 1] == tag then stack[..|stack| - 1] else stack
    case Data(_) => stack
  }

  /** The extractor's fields: `links`, `_texts`, `_skip_stack`, `_title`. */
  datatype ParserState = ParserState(links: seq<string>, texts: seq<string>, skipStack: seq<string>, titleParts: seq<string>)

  const Init := ParserState([], [], [], [])

  /** `any(self._title)`. */
  predicate AnyNonEmpty(parts: seq<string>) {
    exists k :: 0 <= k < |parts| && parts[k] != []
  }

  function OnStartTag(st: ParserState, tag: string, attrs: seq<(string, Option<string>)>): ParserState {
    ParserState(st.links + LinkOf(StartTag(tag, attrs)), st.texts,
                SkipStep(st.skipStack, StartTag(tag, attrs)),
                if tag == "title" then st.titleParts + [""] else st.titleParts)
  }

  function OnEndTag(st: ParserState, tag: string): ParserState {
    st.(skipStack := SkipStep(st.skipStack, EndTag(tag)))
  }

  function OnData(st: ParserState, data: string): ParserState {
    if st.skipStack != [] then st
    else if st.titleParts != [] && !AnyNonEmpty(st.titleParts) then
      st.(titleParts := st.titleParts[0 := st.titleParts[0] + data])
    else if Strip(data) != [] then st.(texts := st.texts + [Strip(data)])
    else st
  }

  function OnEvent(st: ParserState, e: Event): ParserState {
    match e
    case StartTag(tag, attrs) => OnStartTag(st, tag, attrs)
    case EndTag(tag) => OnEndTag(st, tag)
    case Data(d) => OnData(st, d)
  }

  /** The state after feeding `evs`, one callback at a time. */
  function Run(st: ParserState, evs: seq<Event>): ParserState
    decreases |evs|
  {
    if evs == [] then st else Run(OnEvent(st, evs[0]), evs[1..])
  }

  /** The `title` property. */
  function TitleOf(st: ParserState): string {
    if st.titleParts != [] then Strip(st.titleParts[0]) else ""
  }

  /** The `text` property. */
  function TextOf(st: ParserState): string {
    Join(st.texts, " ")
  }

  // ---------------------------------------------------------------------
  // An independent description of what the extractor collects.

  /** The anchors of a document, in order, whether or not they sit inside a
      skipped element. */
  function Hrefs(evs: seq<Event>): seq<string>
    decreases |evs|
  {
    if evs == [] then [] else LinkOf(evs[0]) + Hrefs(evs[1..])
  }

  /** What reaches the text/title logic: every `<title>` start tag, and every
      data chunk that arrives while no skipped element is open. */
  datatype Item = TitleOpened | Chunk(text: string)

  function ItemsOf(stack: seq<string>, e: Event): seq<Item> {
    match e
    case StartTag(tag, _) => if tag == "title" then [TitleOpened] else []
    case EndTag(_) => []
    case Data(d) => if stack == [] then [Chunk(d)] else []
  }

  function Delivered(stack: seq<string>, evs: seq<Event>): seq<Item>
    decreases |evs|
  {
    if evs == [] then [] else ItemsOf(stack, evs[0]) + Delivered(SkipStep(stack, evs[0]), evs[1..])
  }

  /** The first non-empty chunk. */
  function FirstNonEmptyChunk(items: seq<Item>): Option<string>
    decreases |items|
  {
    if items == [] then None
    else if items[0].Chunk? && items[0].text != [] then Some(items[0].text)
    else FirstNonEmptyChunk(items[1..])
  }

  /** The first non-empty chunk after the first `<title>`: the title, even
      when it arrives after `</title>`. */
  function AfterTitle(items: seq<Item>): Option<string>
    decreases |items|
  {
    if items == [] then None
    else if items[0] == TitleOpened then FirstNonEmptyChunk(items[1..])
    else AfterTitle(items[1..])
  }

  /** Where the title capture stands: no `<title>` seen yet, a `<title>` seen
      and waiting for its chunk, or the chunk taken. */
  datatype Mode = NoTitle | Pending | Captured

  /** The text chunks: every delivered chunk, stripped, when non-empty, except
      the chunks consumed while the title was pending. */
  function TextsOf(mode: Mode, items: seq<Item>): seq<string>
    decreases |items|
  {
    if items == [] then []
    else match items[0]
      case TitleOpened => TextsOf(if mode == NoTitle then Pending else mode, items[1..])
      case Chunk(c) =>
        if mode == Pending then TextsOf(if c == [] then Pending else Captured, items[1..])
        else (if Strip(c) != [] then [Strip(c)] else []) + TextsOf(mode, items[1..])
  }

  // ---------------------------------------------------------------------
  // The two descriptions agree.

  /** Only `_title[0]` is ever written; later entries stay empty. */
  ghost predicate Inv(st: ParserState) {
    forall k :: 1 <= k < |st.titleParts| ==> st.titleParts[k] == []
  }

  function ModeOf(st: ParserState): Mode {
    if st.titleParts == [] then NoTitle
    else if st.titleParts[0] == [] then Pending
    else Captured
  }

  /** The captured title chunk, if any. */
  function CapturedChunk(st: ParserState): Option<string> {
    if st.titleParts != [] && st.titleParts[0] != [] then Some(st.titleParts[0]) else None
  }

  lemma AnyNonEmptyIsFirst(st: ParserState)
    requires Inv(st) && st.titleParts != []
    ensures AnyNonEmpty(st.titleParts) <==> st.titleParts[0] != []
  {
  }

  /** The title chunk captured after `items`, starting in `mode` with `cap`. */
  function CaptureAfter(mode: Mode, cap: Option<string>, items: seq<Item>): Option<string> {
    match mode
    case Captured => cap
    case Pending => FirstNonEmptyChunk(items)
    case NoTitle => AfterTitle(items)
  }

  lemma StepInv(st: ParserState, e: Event)
    requires Inv(st)
    ensures Inv(OnEvent(st, e))
  {
  }

  /** How one delivered item moves the mode. */
  function ModeStep(mode: Mode, item: Item): Mode {
    match item
    case TitleOpened => if mode == NoTitle then Pending else mode
    case Chunk(c) => if mode == Pending then (if c == [] then Pending else Captured) else mode
  }

  lemma TextsOfCons(mode: Mode, item: Item, later: seq<Item>)
    ensures TextsOf(mode, [item] + later)
            == (if item.Chunk? && mode != Pending && Strip(item.text) != [] then [Strip(item.text)] else [])
               + TextsOf(ModeStep(mode, item), later)
  {
    assert ([item] + later)[0] == item && ([item] + later)[1..] == later;
  }

  lemma CaptureCons(mode: Mode, cap: Option<string>, item: Item, later: seq<Item>)
    requires mode == Captured <==> cap.Some?
    ensures CaptureAfter(mode, cap, [item] + later)
            == CaptureAfter(ModeStep(mode, item),
                            if mode == Pending && item.Chunk? && item.text != [] then Some(item.text) else cap,
                            later)
  {
    assert ([item] + later)[0] == item && ([item] + later)[1..] == later;
  }

  /** One callback, seen through the items it delivers: either it delivers
      nothing and leaves texts and title alone, or it delivers one item and
      moves the mode, the captured chunk and the texts as that item says. */
  lemma StepItem(st: ParserState, e: Event)
    requires Inv(st)
    ensures var st1 := OnEvent(st, e);
      var here := ItemsOf(st.skipStack, e);
      && |here| <= 1
      && (here == [] ==> ModeOf(st1) == ModeOf(st) && CapturedChunk(st1) == CapturedChunk(st) && st1.texts == st.texts)
      && (here != [] ==>
            var item := here[0];
            && ModeOf(st1) == ModeStep(ModeOf(st), item)
            && CapturedChunk(st1) == (if ModeOf(st) == Pending && item.Chunk? && item.text != [] then Some(item.text) else CapturedChunk(st))
            && st1.texts == st.texts + (if item.Chunk? && ModeOf(st) != Pending && Strip(item.text) != [] then [Strip(item.text)] else []))
  {
    if st.titleParts != [] {
      AnyNonEmptyIsFirst(st);
    }
    match e
    case StartTag(tag, attrs) =>
    case EndTag(tag) =>
    case Data(d) =>
      if st.skipStack == [] && ModeOf(st) == Pending {
        assert st.titleParts[0] + d == d;
      }
  }

  /** The texts after one item, whatever state they belong to. */
  lemma TextsAfterItems(t0: seq<string>, t1: seq<string>, m0: Mode, m1: Mode, here: seq<Item>, later: seq<Item>)
    requires |here| <= 1
    requires here == [] ==> m1 == m0 && t1 == t0
    requires here != [] ==>
               && m1 == ModeStep(m0, here[0])
               && t1 == t0 + (if here[0].Chunk? && m0 != Pending && Strip(here[0].text) != []
                              then [Strip(here[0].text)] else [])
    ensures t1 + TextsOf(m1, later) == t0 + TextsOf(m0, here + later)
  {
    if here == [] {
      assert here + later == later;
    } else {
      var item := here[0];
      var head := if item.Chunk? && m0 != Pending && Strip(item.text) != [] then [Strip(item.text)] else [];
      assert here == [item];
      TextsOfCons(m0, item, later);
      ConcatAssoc(t0, head, TextsOf(m1, later));
    }
  }

  /** One callback moves the texts as the described chunks say. */
  lemma StepTexts(st: ParserState, e: Event, later: seq<Item>)
    requires Inv(st)
    ensures var st1 := OnEvent(st, e);
      st1.texts + TextsOf(ModeOf(st1), later)
      == st.texts + TextsOf(ModeOf(st), ItemsOf(st.skipStack, e) + later)
  {
    var st1 := OnEvent(st, e);
    StepItem(st, e);
    TextsAfterItems(st.texts, st1.texts, ModeOf(st), ModeOf(st1), ItemsOf(st.skipStack, e), later);
  }

  /** The captured chunk after one item, whatever state it belongs to. */
  lemma CaptureAfterItems(m0: Mode, c0: Option<string>, m1: Mode, c1: Option<string>, here: seq<Item>,
                          later: seq<Item>)
    requires m0 == Captured <==> c0.Some?
    requires |here| <= 1
    requires here == [] ==> m1 == m0 && c1 == c0
    requires here != [] ==>
               && m1 == ModeStep(m0, here[0])
               && c1 == (if m0 == Pending && here[0].Chunk? && here[0].text != [] then Some(here[0].text) else c0)
    ensures CaptureAfter(m1, c1, later) == CaptureAfter(m0, c0, here + later)
  {
    if here == [] {
      assert here + later == later;
    } else {
      assert here == [here[0]];
      CaptureCons(m0, c0, here[0], later);
    }
  }

  /** One callback moves the captured title chunk as the items say. */
  lemma StepCapture(st: ParserState, e: Event, later: seq<Item>)
    requires Inv(st)
    ensures var st1 := OnEvent(st, e);
      CaptureAfter(ModeOf(st1), CapturedChunk(st1), later)
      == CaptureAfter(ModeOf(st), CapturedChunk(st), ItemsOf(st.skipStack, e) + later)
  {
    var st1 := OnEvent(st, e);
    StepItem(st, e);
    CaptureAfterItems(ModeOf(st), CapturedChunk(st), ModeOf(st1), CapturedChunk(st1), ItemsOf(st.skipStack, e),
                      later);
  }

  lemma {:induction false} RunInv(st: ParserState, evs: seq<Event>)
    requires Inv(st)
    ensures Inv(Run(st, evs))
    decreases |evs|
  {
    if evs != [] {
      StepInv(st, evs[0]);
      RunInv(OnEvent(st, evs[0]), evs[1..]);
    }
  }

  /** Every anchor is collected, in document order. */
  lemma {:induction false} RunLinks(st: ParserState, evs: seq<Event>)
    ensures Run(st, evs).links == st.links + Hrefs(evs)
    decreases |evs|
  {
    if evs != [] {
      RunLinks(OnEvent(st, evs[0]), evs[1..]);
    }
  }

  /** The texts gain exactly the described chunks. */
  lemma {:induction false} RunTexts(st: ParserState, evs: seq<Event>)
    requires Inv(st)
    ensures Run(st, evs).texts == st.texts + TextsOf(ModeOf(st), Delivered(st.skipStack, evs))
    decreases |evs|
  {
    if evs != [] {
      var st1 := OnEvent(st, evs[0]);
      StepInv(st, evs[0]);
      RunTexts(st1, evs[1..]);
      StepTexts(st, evs[0], Delivered(st1.skipStack, evs[1..]));
    }
  }

  /** The title chunk is captured as described. */
  lemma {:induction false} RunCapture(st: ParserState, evs: seq<Event>)
    requires Inv(st)
    ensures CapturedChunk(Run(st, evs))
            == CaptureAfter(ModeOf(st), CapturedChunk(st), Delivered(st.skipStack, evs))
    decreases |evs|
  {
    if evs != [] {
      var st1 := OnEvent(st, evs[0]);
      StepInv(st, evs[0]);
      RunCapture(st1, evs[1..]);
      StepCapture(st, evs[0], Delivered(st1.skipStack, evs[1..]));
    }
  }

  /** The whole document, from the initial state. */
  lemma ParseSpec(evs: seq<Event>)
    ensures var st := Run(Init, evs);
      var items := Delivered([], evs);
      && TitleOf(st) == (match AfterTitle(items) case Some(c) => Strip(c) case None => "")
      && TextOf(st) == Join(TextsOf(NoTitle, items), " ")
      && st.links == Hrefs(evs)
  {
    var st := Run(Init, evs);
    RunLinks(Init, evs);
    RunTexts(Init, evs);
    RunCapture(Init, evs);
    assert CapturedChunk(st) == AfterTitle(Delivered([], evs));
    assert st.texts == TextsOf(NoTitle, Delivered([], evs));
    if st.titleParts != [] && st.titleParts[0] == [] {
      assert Strip(st.titleParts[0]) == [];
    }
  }

  /** `parse_html` on the callbacks of a whole document: the title is the first
      non-empty chunk arriving after a `<title>` (stripped), the text is the
      described chunks joined by single spaces, and the links are all anchors. */
  method ParseHtml(evs: seq<Event>) returns (title: string, text: string, links: seq<string>)
    ensures var items := Delivered([], evs);
      && title == (match AfterTitle(items) case Some(c) => Strip(c) case None => "")
      && text == Join(TextsOf(NoTitle, items), " ")
      && links == Hrefs(evs)
  {
    var p := new LinkAndTextExtractor();
    p.Feed(evs);
    ParseSpec(evs);
    title := p.Title();
    text := p.Text();
    links := p.links;
  }

  /** Data that arrives inside `script`, `style` or `noscript` reaches neither
      the text nor the title. */
  lemma SkippedDataIgnored(st: ParserState, d: string)
    requires st.skipStack != []
    ensures OnData(st, d) == st
  {
  }

  /** Only the three skip tags are ever pushed, and an end tag pops only when
      it names the innermost open one. */
  lemma {:induction false} SkipStackShape(stack: seq<string>, evs: seq<Event>)
    requires forall k :: 0 <= k < |stack| ==> IsSkipTag(stack[k])
    ensures var s := Run(ParserState([], [], stack, []), evs).skipStack;
      forall k :: 0 <= k < |s| ==> IsSkipTag(s[k])
    decreases |evs|
  {
    if evs != [] {
      var st1 := OnEvent(ParserState([], [], stack, []), evs[0]);
      var s1 := st1.skipStack;
      assert s1 == SkipStep(stack, evs[0]);
      assert forall k :: 0 <= k < |s1| ==> IsSkipTag(s1[k]);
      SkipStackShape(s1, evs[1..]);
      RunSkipStackOnly(st1, ParserState([], [], s1, []), evs[1..]);
    }
  }

  /** The skip stack evolves independently of the other fields. */
  lemma {:induction false} RunSkipStackOnly(a: ParserState, b: ParserState, evs: seq<Event>)
    requires a.skipStack == b.skipStack
    ensures Run(a, evs).skipStack == Run(b, evs).skipStack
    decreases |evs|
  {
    if evs != [] {
      RunSkipStackOnly(OnEvent(a, evs[0]), OnEvent(b, evs[0]), evs[1..]);
    }
  }

  /** Every chunk is non-empty and already stripped. */
  predicate AllClean(t: seq<string>) {
    forall k :: 0 <= k < |t| ==> t[k] != [] && Strip(t[k]) == t[k]
  }

  lemma AllCleanConcat(a: seq<string>, b: seq<string>)
    requires AllClean(a) && AllClean(b)
    ensures AllClean(a + b)
  {
    forall k | 0 <= k < |a + b| ensures (a + b)[k] != [] && Strip((a + b)[k]) == (a + b)[k] {
      if k >= |a| {
        assert (a + b)[k] == b[k - |a|];
      }
    }
  }

  /** Every text chunk is stripped and non-empty. */
  lemma {:induction false} TextsClean(mode: Mode, items: seq<Item>)
    ensures AllClean(TextsOf(mode, items))
    decreases |items|
  {
    if items != [] {
      var item := items[0];
      var later := items[1..];
      assert items == [item] + later;
      TextsOfCons(mode, item, later);
      TextsClean(ModeStep(mode, item), later);
      var head := if item.Chunk? && mode != Pending && Strip(item.text) != [] then [Strip(item.text)] else [];
      if item.Chunk? {
        StripIdempotent(item.text);
      }
      assert AllClean(head);
      AllCleanConcat(head, TextsOf(ModeStep(mode, item), later));
    }
  }

  /** The handler object itself, with the fields its callbacks update. */
  class LinkAndTextExtractor {
    var links: seq<string>
    var texts: seq<string>
    var skipStack: seq<string>
    var titleParts: seq<string>

    function State(): ParserState
      reads this
    {
      ParserState(links, texts, skipStack, titleParts)
    }

    constructor ()
      ensures State() == Init
    {
      links, texts, skipStack, titleParts := [], [], [], [];
    }

    method HandleStartTag(tag: string, attrs: seq<(string, Option<string>)>)
      modifies this
      ensures State() == OnStartTag(old(State()), tag, attrs)
    {
      if IsSkipTag(tag) {
        skipStack := skipStack + [tag];
      }
      if tag == "a" {
        var href := AttrValue(attrs, "href");
        if href.Some? && href.value != [] {
          links := links + [href.value];
        }
      }
      if tag == "title" {
        titleParts := titleParts + [""];
      }
    }

    method HandleEndTag(tag: string)
      modifies this
      ensures State() == OnEndTag(old(State()), tag)
    {
      if skipStack != [] && skipStack[|skipStack| - 1] == tag {
        skipStack := skipStack[..|skipStack| - 1];
      }
    }

    method HandleData(data: string)
      modifies this
      ensures State() == OnData(old(State()), data)
    {
      if skipStack != [] {
        return;
      }
      if titleParts != [] && !AnyNonEmpty(titleParts) {
        titleParts := titleParts[0 := titleParts[0] + data];
      } else {
        var s := Strip(data);
        if s != [] {
          texts := texts + [s];
        }
      }
    }

    function Title(): (t: string)
      reads this
      ensures t == TitleOf(State())
    {
      if titleParts != [] then Strip(titleParts[0]) else ""
    }

    function Text(): (t: string)
      reads this
      ensures t == TextOf(State())
    {
      Join(texts, " ")
    }

    /** `feed`: the callbacks of `evs`, in order. */
    method Feed(evs: seq<Event>)
      modifies this
      ensures State() == Run(old(State()), evs)
    {
      for i := 0 to |evs|
        invariant Run(old(State()), evs) == Run(State(), evs[i..])
      {
        assert evs[i..][1..] == evs[i + 1..];
        match evs[i]
        case StartTag(tag, attrs) => HandleStartTag(tag, attrs);
        case EndTag(tag) => HandleEndTag(tag);
        case Data(d) => HandleData(d);
      }
    }
  }
}
