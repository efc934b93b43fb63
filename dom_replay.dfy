/**
 * The replay of a parsed DOM tree as SAX events (walkNode and walkChildren of
 * LabelValidator), with the DOMLocator cursor the schema validator reads
 * positions from. Walk and WalkSeq specify the replay; the methods WalkNode
 * and WalkChildren carry it out on a ContentHandler and a DOMLocator.
 */
module DomReplay {
  import opened Wrappers

  /** The SourceLocation user data the label parser attaches to a node. */
  datatype SourceLocation = SourceLocation(line: int, column: int, url: Option<string>)

  /** An Attr of an element's NamedNodeMap. */
  datatype Attr = Attr(namespaceUri: string, localName: string, nodeName: string, value: string)

  /** DOM nodes, each with its optional SourceLocation. Text stands for every CharacterData that is not a Comment. */
  datatype Node =
    | Document(loc: Option<SourceLocation>, children: seq<Node>)
    | Element(loc: Option<SourceLocation>, namespaceUri: string, localName: string, nodeName: string,
              attributes: seq<Attr>, children: seq<Node>)
    | Text(loc: Option<SourceLocation>, value: string)
    | Comment(loc: Option<SourceLocation>, value: string)
    | ProcessingInstruction(loc: Option<SourceLocation>, target: string, data: string)
    | OtherNode(loc: Option<SourceLocation>)

  /** getChildNodes(): empty for a node that cannot have children. */
  function Children(n: Node): (cs: seq<Node>)
    ensures n.Document? || n.Element? || cs == []
  {
    match n
    case Document(_, cs) => cs
    case Element(_, _, _, _, _, cs) => cs
    case _ => []
  }

  /** What the locator reports: getLineNumber, getColumnNumber and getSystemId. */
  datatype Position = Position(line: int, column: int, systemId: string)

  /** An attribute as AttributesImpl.addAttribute receives it; the type is always "". */
  datatype SaxAttribute = SaxAttribute(uri: string, localName: string, qName: string, attrType: string, value: string)

  datatype EventKind =
    | StartDocument
    | EndDocument
    | StartElement(uri: string, localName: string, qName: string, attributes: seq<SaxAttribute>)
    | EndElement(uri: string, localName: string, qName: string)
    | Characters(text: string)
    | ProcessingInstructionEvent(target: string, data: string)

  /** A ContentHandler callback and the locator's position when it was made. */
  datatype Event = Event(kind: EventKind, at: Position)

  /**
   * DOMLocator.setNode as a function: no SourceLocation gives line and column
   * -1; otherwise both are copied, and the system id too when the location
   * carries a URL.
   */
  function Locate(p: Position, loc: Option<SourceLocation>): (q: Position)
    ensures loc.None? ==> q == Position(-1, -1, p.systemId)
    ensures loc.Some? ==> q.line == loc.value.line && q.column == loc.value.column
    ensures loc.Some? && loc.value.url.Some? ==> q.systemId == loc.value.url.value
    ensures (loc.None? || loc.value.url.None?) ==> q.systemId == p.systemId
  {
    match loc
    case None => Position(-1, -1, p.systemId)
    case Some(l) => Position(l.line, l.column, if l.url.Some? then l.url.value else p.systemId)
  }

  function ToSax(a: Attr): SaxAttribute {
    SaxAttribute(a.namespaceUri, a.localName, a.nodeName, "", a.value)
  }

  /** The attributes of startElement: one per Attr, in map order. */
  function SaxAttributes(attrs: seq<Attr>): seq<SaxAttribute> {
    seq(|attrs|, i requires 0 <= i < |attrs| => ToSax(attrs[i]))
  }

  /** The events of a replay and where it leaves the locator. */
  datatype Replay = Replay(events: seq<Event>, position: Position)

  /** walkNode(n) from locator position p. */
  function Walk(n: Node, p: Position): Replay
    decreases n, 1
  {
    var here := Locate(p, n.loc);
    match n
    case Document(loc, cs) =>
      var inner := WalkSeq(cs, here);
      var back := Locate(inner.position, loc);
      Replay([Event(StartDocument, here)] + inner.events + [Event(EndDocument, back)], back)
    case Element(loc, uri, local, qName, attrs, cs) =>
      var inner := WalkSeq(cs, here);
      var back := Locate(inner.position, loc);
      Replay([Event(StartElement(uri, local, qName, SaxAttributes(attrs)), here)]
             + inner.events + [Event(EndElement(uri, local, qName), back)], back)
    case Text(_, v) => Replay([Event(Characters(v), here)], here)
    case Comment(_, _) => Replay([], here)
    case ProcessingInstruction(_, target, data) => Replay([Event(ProcessingInstructionEvent(target, data), here)], here)
    case OtherNode(_) => Replay([], here)
  }

  /** walkNode on each node of ns in turn. */
  function WalkSeq(ns: seq<Node>, p: Position): Replay
    decreases ns, 0
  {
    if ns == [] then Replay([], p)
    else
      var before := WalkSeq(ns[..|ns| - 1], p);
      var last := Walk(ns[|ns| - 1], before.position);
      Replay(before.events + last.events, last.position)
  }

  // ---------------------------------------------------------------------
  // The cursor and the handler

  /** DOMLocator: the cursor the validator handler reads positions from. */
  class DOMLocator {
    const url: string
    var lineNumber: int
    var columnNumber: int
    var systemId: string

    /** The system id starts as the document URL; line and column as Java's default 0. */
    constructor (url: string)
      ensures this.url == url && Cursor() == Position(0, 0, url)
    {
      this.url := url;
      lineNumber := 0;
      columnNumber := 0;
      systemId := url;
    }

    /** The position the locator reports. */
    function Cursor(): Position
      reads this
    {
      Position(lineNumber, columnNumber, systemId)
    }

    /** setNode: point the cursor at the node's SourceLocation. */
    method SetNode(node: Node)
      modifies this
      ensures Cursor() == Locate(old(Cursor()), node.loc)
    {
      match node.loc
      case None =>
        lineNumber := -1;
        columnNumber := -1;
      case Some(location) =>
        lineNumber := location.line;
        columnNumber := location.column;
        if location.url.Some? {
          systemId := location.url.value;
        }
    }
  }

  /** The validator handler the events go to, as the record of what it received. */
  class ContentHandler {
    var events: seq<Event>

    constructor ()
      ensures events == []
    {
      events := [];
    }

    method Receive(e: Event)
      modifies this
      ensures events == old(events) + [e]
    {
      events := events + [e];
    }
  }

  /** The AttributesImpl walkNode fills from an element's NamedNodeMap, in map order. */
  method CopyAttributes(attrs: seq<Attr>) returns (attributes: seq<SaxAttribute>)
    ensures attributes == SaxAttributes(attrs)
  {
    attributes := [];
    for i := 0 to |attrs|
      invariant |attributes| == i
      invariant forall j | 0 <= j < i :: attributes[j] == ToSax(attrs[j])
    {
      attributes := attributes + [ToSax(attrs[i])];
    }
  }

  /** walkNode: the locator is set to the node before its event and again before its end event. */
  method WalkNode(node: Node, handler: ContentHandler, locator: DOMLocator)
    modifies handler, locator
    ensures var r := Walk(node, old(locator.Cursor()));
      handler.events == old(handler.events) + r.events && locator.Cursor() == r.position
    decreases node, 1
  {
    ghost var start := handler.events;
    locator.SetNode(node);
    ghost var here := locator.Cursor();
    match node
    case Document(_, _) =>
      handler.Receive(Event(StartDocument, locator.Cursor()));
      WalkChildren(node, handler, locator);
      locator.SetNode(node);
      handler.Receive(Event(EndDocument, locator.Cursor()));
      ghost var inner := WalkSeq(Children(node), here);
      assert handler.events == start + ([Event(StartDocument, here)] + inner.events + [Event(EndDocument, locator.Cursor())]);
    case Comment(_, _) =>
    case Text(_, value) =>
      handler.Receive(Event(Characters(value), locator.Cursor()));
    case ProcessingInstruction(_, target, data) =>
      handler.Receive(Event(ProcessingInstructionEvent(target, data), locator.Cursor()));
    case Element(_, uri, local, qName, attrs, _) =>
      var attributes := CopyAttributes(attrs);
      handler.Receive(Event(StartElement(uri, local, qName, attributes), locator.Cursor()));
      WalkChildren(node, handler, locator);
      locator.SetNode(node);
      handler.Receive(Event(EndElement(uri, local, qName), locator.Cursor()));
      ghost var inner := WalkSeq(Children(node), here);
      assert handler.events == start + ([Event(StartElement(uri, local, qName, attributes), here)] + inner.events
                                        + [Event(EndElement(uri, local, qName), locator.Cursor())]);
    case OtherNode(_) =>
  }

  /** walkChildren: walkNode on each child in document order. */
  method WalkChildren(node: Node, handler: ContentHandler, locator: DOMLocator)
    modifies handler, locator
    ensures var r := WalkSeq(Children(node), old(locator.Cursor()));
      handler.events == old(handler.events) + r.events && locator.Cursor() == r.position
    decreases node, 0
  {
    var nodes := Children(node);
    ghost var start := handler.events;
    ghost var p := locator.Cursor();
    for i := 0 to |nodes|
      invariant var r := WalkSeq(nodes[..i], p);
        handler.events == start + r.events && locator.Cursor() == r.position
    {
      assert nodes[i] in Children(node);
      ghost var before := handler.events;
      WalkNode(nodes[i], handler, locator);
      assert nodes[..i + 1][..i] == nodes[..i];
    }
    assert nodes[..|nodes|] == nodes;
  }

  // ---------------------------------------------------------------------
  // Properties of the replay

  /** The line and column the locator takes from a node: its own, or -1 without a SourceLocation. */
  function OwnLine(loc: Option<SourceLocation>): int { if loc.Some? then loc.value.line else -1 }
  function OwnColumn(loc: Option<SourceLocation>): int { if loc.Some? then loc.value.column else -1 }

  /**
   * The end event of a document or element carries the node's own line and
   * column, as its start event does, not those of its last descendant; and the
   * locator is left there. The system id is the start's too when the node's
   * own location carries a URL.
   */
  lemma EndEventCarriesOwnPosition(n: Node, p: Position)
    requires n.Document? || n.Element?
    ensures var es := Walk(n, p).events;
      && |es| >= 2
      && es[0].at == Locate(p, n.loc)
      && es[|es| - 1].at.line == OwnLine(n.loc) && es[|es| - 1].at.column == OwnColumn(n.loc)
      && es[|es| - 1].at.line == es[0].at.line && es[|es| - 1].at.column == es[0].at.column
      && es[|es| - 1].at == Walk(n, p).position
      && (n.loc.Some? && n.loc.value.url.Some? ==> es[|es| - 1].at == es[0].at)
  {
  }

  /** Whatever the node, the walk leaves the locator at the node's own line and column. */
  lemma WalkEndsAtNode(n: Node, p: Position)
    ensures Walk(n, p).position.line == OwnLine(n.loc) && Walk(n, p).position.column == OwnColumn(n.loc)
  {
  }

  /** The open documents and elements of a replay, innermost last. */
  datatype Tag = DocumentTag | ElementTag(uri: string, localName: string, qName: string)

  /** One event against the stack of open tags: None when an end event does not close the innermost tag. */
  function MatchEvent(e: Event, stack: seq<Tag>): Option<seq<Tag>> {
    match e.kind
    case StartDocument => Some(stack + [DocumentTag])
    case StartElement(uri, local, qName, _) => Some(stack + [ElementTag(uri, local, qName)])
    case EndDocument =>
      if stack != [] && stack[|stack| - 1] == DocumentTag then Some(stack[..|stack| - 1]) else None
    case EndElement(uri, local, qName) =>
      if stack != [] && stack[|stack| - 1] == ElementTag(uri, local, qName) then Some(stack[..|stack| - 1]) else None
    case _ => Some(stack)
  }

  /** The events in order against the stack of open tags. */
  function MatchEvents(es: seq<Event>, stack: seq<Tag>): Option<seq<Tag>>
    decreases |es|
  {
    if es == [] then Some(stack)
    else match MatchEvent(es[0], stack)
      case None => None
      case Some(next) => MatchEvents(es[1..], next)
  }

  /** A well-nested replay closes every tag it opens, innermost first, whatever is already open. */
  ghost predicate WellNested(es: seq<Event>) {
    forall stack: seq<Tag> {:trigger MatchEvents(es, stack)} :: MatchEvents(es, stack) == Some(stack)
  }

  lemma {:induction false} MatchEventsAppend(a: seq<Event>, b: seq<Event>, stack: seq<Tag>)
    ensures MatchEvents(a + b, stack)
         == (match MatchEvents(a, stack) case None => None case Some(s) => MatchEvents(b, s))
    decreases |a|
  {
    if a == [] {
      assert a + b == b;
    } else {
      assert (a + b)[0] == a[0];
      assert (a + b)[1..] == a[1..] + b;
      match MatchEvent(a[0], stack)
      case None =>
      case Some(next) => MatchEventsAppend(a[1..], b, next);
    }
  }

  lemma WellNestedAppend(a: seq<Event>, b: seq<Event>)
    requires WellNested(a) && WellNested(b)
    ensures WellNested(a + b)
  {
    forall stack: seq<Tag> ensures MatchEvents(a + b, stack) == Some(stack) {
      MatchEventsAppend(a, b, stack);
      assert MatchEvents(a, stack) == Some(stack);
      assert MatchEvents(b, stack) == Some(stack);
    }
  }

  /** An event that opens or closes nothing is well nested on its own. */
  lemma NeutralEvent(e: Event)
    requires e.kind.Characters? || e.kind.ProcessingInstructionEvent?
    ensures WellNested([e])
  {
    forall stack: seq<Tag> ensures MatchEvents([e], stack) == Some(stack) {
      assert [e][1..] == [];
    }
  }

  /** A start event, well-nested events and the matching end event are well nested. */
  lemma Enclosed(start: Event, inner: seq<Event>, end: Event, tag: Tag)
    requires forall stack: seq<Tag> :: MatchEvent(start, stack) == Some(stack + [tag])
    requires forall stack: seq<Tag> :: MatchEvent(end, stack + [tag]) == Some(stack)
    requires WellNested(inner)
    ensures WellNested([start] + inner + [end])
  {
    forall stack: seq<Tag> ensures MatchEvents([start] + inner + [end], stack) == Some(stack) {
      MatchEventsAppend([start] + inner, [end], stack);
      MatchEventsAppend([start], inner, stack);
      assert [start][1..] == [];
      assert MatchEvents([start], stack) == Some(stack + [tag]);
      assert MatchEvents(inner, stack + [tag]) == Some(stack + [tag]);
      assert [end][1..] == [];
      assert MatchEvents([end], stack + [tag]) == Some(stack);
    }
  }

  /**
   * The replay of any node is well nested: startDocument and endDocument enclose
   * the children of a document, startElement and the endElement of the same names
   * those of an element.
   */
  lemma {:induction false} WalkWellNested(n: Node, p: Position)
    ensures WellNested(Walk(n, p).events)
    decreases n, 1
  {
    var here := Locate(p, n.loc);
    match n
    case Document(loc, cs) =>
      var inner := WalkSeq(cs, here);
      WalkSeqWellNested(cs, here);
      var back := Locate(inner.position, loc);
      forall stack: seq<Tag> ensures MatchEvent(Event(EndDocument, back), stack + [DocumentTag]) == Some(stack) {
        assert (stack + [DocumentTag])[..|stack + [DocumentTag]| - 1] == stack;
      }
      Enclosed(Event(StartDocument, here), inner.events, Event(EndDocument, back), DocumentTag);
    case Element(loc, uri, local, qName, attrs, cs) =>
      var inner := WalkSeq(cs, here);
      WalkSeqWellNested(cs, here);
      var back := Locate(inner.position, loc);
      var tag := ElementTag(uri, local, qName);
      forall stack: seq<Tag> ensures MatchEvent(Event(EndElement(uri, local, qName), back), stack + [tag]) == Some(stack) {
        assert (stack + [tag])[..|stack + [tag]| - 1] == stack;
      }
      Enclosed(Event(StartElement(uri, local, qName, SaxAttributes(attrs)), here), inner.events,
               Event(EndElement(uri, local, qName), back), tag);
    case Text(_, v) => NeutralEvent(Event(Characters(v), here));
    case Comment(_, _) =>
    case ProcessingInstruction(_, target, data) => NeutralEvent(Event(ProcessingInstructionEvent(target, data), here));
    case OtherNode(_) =>
  }

  lemma {:induction false} WalkSeqWellNested(ns: seq<Node>, p: Position)
    ensures WellNested(WalkSeq(ns, p).events)
    decreases ns, 0
  {
    if ns != [] {
      var before := WalkSeq(ns[..|ns| - 1], p);
      WalkSeqWellNested(ns[..|ns| - 1], p);
      WalkWellNested(ns[|ns| - 1], before.position);
      WellNestedAppend(before.events, Walk(ns[|ns| - 1], before.position).events);
    }
  }

  /** The text a replay hands to characters(), in order. */
  function CharactersOf(es: seq<Event>): seq<string> {
    if es == [] then []
    else (if es[0].kind.Characters? then [es[0].kind.text] else []) + CharactersOf(es[1..])
  }

  /** The values of the text nodes of a tree, in document order. */
  function TextsOf(n: Node): seq<string>
    decreases n, 1
  {
    match n
    case Text(_, v) => [v]
    case Document(_, cs) => TextsOfSeq(cs)
    case Element(_, _, _, _, _, cs) => TextsOfSeq(cs)
    case _ => []
  }

  function TextsOfSeq(ns: seq<Node>): seq<string>
    decreases ns, 0
  {
    if ns == [] then [] else TextsOfSeq(ns[..|ns| - 1]) + TextsOf(ns[|ns| - 1])
  }

  lemma {:induction false} CharactersOfAppend(a: seq<Event>, b: seq<Event>)
    ensures CharactersOf(a + b) == CharactersOf(a) + CharactersOf(b)
  {
    if a == [] {
      assert a + b == b;
    } else {
      assert (a + b)[1..] == a[1..] + b;
      CharactersOfAppend(a[1..], b);
    }
  }

  /**
   * Every text node reaches the handler as one characters event holding its whole
   * value, in document order; no other text does (comments are dropped).
   */
  lemma {:induction false} WalkKeepsText(n: Node, p: Position)
    ensures CharactersOf(Walk(n, p).events) == TextsOf(n)
    decreases n, 1
  {
    var here := Locate(p, n.loc);
    match n
    case Document(loc, cs) =>
      var inner := WalkSeq(cs, here);
      WalkSeqKeepsText(cs, here);
      var back := Locate(inner.position, loc);
      CharactersOfAppend([Event(StartDocument, here)] + inner.events, [Event(EndDocument, back)]);
      CharactersOfAppend([Event(StartDocument, here)], inner.events);
    case Element(loc, uri, local, qName, attrs, cs) =>
      var inner := WalkSeq(cs, here);
      WalkSeqKeepsText(cs, here);
      var back := Locate(inner.position, loc);
      var start := Event(StartElement(uri, local, qName, SaxAttributes(attrs)), here);
      CharactersOfAppend([start] + inner.events, [Event(EndElement(uri, local, qName), back)]);
      CharactersOfAppend([start], inner.events);
    case Text(_, v) =>
    case Comment(_, _) =>
    case ProcessingInstruction(_, _, _) =>
    case OtherNode(_) =>
  }

  lemma {:induction false} WalkSeqKeepsText(ns: seq<Node>, p: Position)
    ensures CharactersOf(WalkSeq(ns, p).events) == TextsOfSeq(ns)
    decreases ns, 0
  {
    if ns != [] {
      var before := WalkSeq(ns[..|ns| - 1], p);
      WalkSeqKeepsText(ns[..|ns| - 1], p);
      WalkKeepsText(ns[|ns| - 1], before.position);
      CharactersOfAppend(before.events, Walk(ns[|ns| - 1], before.position).events);
    }
  }

  /** A comment emits nothing but still moves the locator to its own position. */
  lemma CommentMovesLocatorOnly(loc: Option<SourceLocation>, value: string, p: Position)
    ensures Walk(Comment(loc, value), p).events == []
    ensures Walk(Comment(loc, value), p).position == Locate(p, loc)
  {
  }
}
