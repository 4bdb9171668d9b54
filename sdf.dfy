/**
 * The SDFormat writer: `produce_sdf` and its per-board extras drive a
 * tinyxml2 `XMLPrinter`, an object with a stack of open element names that
 * appends to its output as elements are opened, given attributes and text,
 * and closed. The printer is the class `XmlPrinter`, its output a list of
 * printing events; the document those calls print is the element tree
 * `SdfDocument`, and `ProduceSdf` is proved to print exactly that tree's
 * events, balanced and free of NUL characters.
 */
module Sdf {
  import opened Wrappers
  import opened Boards
  import opened SeqFacts

  /** The text of the XML declaration `PushHeader` writes. */
  const XML_DECLARATION: string := "xml version=\"1.0\""
  const SDF_VERSION: string := "1.11"
  /** Gazebo's frame is +X forward, +Y left, +Z up; the glTF scene is turned to match. */
  const LINK_POSE: string := "0 0 0 90 0 90"
  const COLLISION_DENSITY: string := "10.0"
  const MODEL_URI_SCHEME: string := "model://"

  // ---------------------------------------------------------------------------
  // C strings

  predicate NulFree(s: string)
  {
    '\0' !in s
  }

  /** What `c_str()` hands to a C API: the string up to its first NUL. */
  function CString(s: string): (r: string)
    ensures NulFree(r) && |r| <= |s| && r == s[..|r|]
    ensures |r| < |s| ==> s[|r|] == '\0'
  {
    if s == [] || s[0] == '\0' then [] else [s[0]] + CString(s[1..])
  }

  /** A string without NUL passes through `c_str()` whole. */
  lemma {:induction false} CStringOfNulFree(s: string)
    requires NulFree(s)
    ensures CString(s) == s
  {
    if s != [] {
      assert s[0] in s;
      assert NulFree(s[1..]) by {
        forall c | c in s[1..] ensures c != '\0' { assert c in s; }
      }
      CStringOfNulFree(s[1..]);
    }
  }

  lemma {:induction false} CStringAppend(prefix: string, s: string)
    requires NulFree(prefix)
    ensures CString(prefix + s) == prefix + CString(s)
  {
    if prefix != [] {
      var rest := prefix[1..];
      assert prefix[0] in prefix;
      assert (prefix + s)[0] == prefix[0] != '\0';
      assert (prefix + s)[1..] == rest + s;
      assert NulFree(rest) by {
        forall c | c in rest ensures c != '\0' { assert c in prefix; }
      }
      CStringAppend(rest, s);
      assert prefix == [prefix[0]] + rest;
      AppendAssoc([prefix[0]], rest, CString(s));
    } else {
      assert prefix + s == s;
    }
  }


  // ---------------------------------------------------------------------------
  // Printing events and the element tree

  /** Element text: characters, or a float the printer formats itself. */
  datatype Content = Chars(chars: string) | Number(value: real)

  /** One printer call's contribution to the output. */
  datatype Event =
    | Declaration(text: string)
    | Open(name: string)
    | Attribute(key: string, value: string)
    | Text(content: Content)
    | Close(name: string)

  datatype Attr = Attr(key: string, value: string)

  datatype Element = Element(name: string, attributes: seq<Attr>, text: seq<Content>, children: seq<Element>)

  function AttributeEvents(attributes: seq<Attr>): (r: seq<Event>)
    ensures |r| == |attributes|
  {
    seq(|attributes|, i requires 0 <= i < |attributes| => Attribute(attributes[i].key, attributes[i].value))
  }

  function TextEvents(text: seq<Content>): (r: seq<Event>)
    ensures |r| == |text|
  {
    seq(|text|, i requires 0 <= i < |text| => Text(text[i]))
  }

  /** The events that print `e`: open, attributes, text, children, close. */
  function Serialize(e: Element): seq<Event>
    decreases e, 1
  {
    [Open(e.name)] + AttributeEvents(e.attributes) + TextEvents(e.text) + SerializeAll(e.children) + [Close(e.name)]
  }

  function SerializeAll(es: seq<Element>): seq<Event>
    decreases es, 0
  {
    if es == [] then [] else Serialize(es[0]) + SerializeAll(es[1..])
  }

  /** `acc` followed by the events that print `e`, in the order a printer
      emits them. */
  function Print(acc: seq<Event>, e: Element): seq<Event>
    decreases e, 1
  {
    PrintAll(PrintTexts(PrintAttributes(acc + [Open(e.name)], e.attributes), e.text), e.children) + [Close(e.name)]
  }

  function PrintAll(acc: seq<Event>, es: seq<Element>): seq<Event>
    decreases es, 0
  {
    if es == [] then acc else PrintAll(Print(acc, es[0]), es[1..])
  }

  function PrintAttributes(acc: seq<Event>, attributes: seq<Attr>): seq<Event>
    decreases |attributes|
  {
    if attributes == [] then acc
    else PrintAttributes(acc + [Attribute(attributes[0].key, attributes[0].value)], attributes[1..])
  }

  function PrintTexts(acc: seq<Event>, text: seq<Content>): seq<Event>
    decreases |text|
  {
    if text == [] then acc else PrintTexts(acc + [Text(text[0])], text[1..])
  }

  lemma {:induction false} PrintAttributesAppends(acc: seq<Event>, attributes: seq<Attr>)
    ensures PrintAttributes(acc, attributes) == acc + AttributeEvents(attributes)
    decreases |attributes|
  {
    if attributes != [] {
      var first := Attribute(attributes[0].key, attributes[0].value);
      PrintAttributesAppends(acc + [first], attributes[1..]);
      assert AttributeEvents(attributes) == [first] + AttributeEvents(attributes[1..]);
    }
  }

  lemma {:induction false} PrintTextsAppends(acc: seq<Event>, text: seq<Content>)
    ensures PrintTexts(acc, text) == acc + TextEvents(text)
    decreases |text|
  {
    if text != [] {
      PrintTextsAppends(acc + [Text(text[0])], text[1..]);
      assert TextEvents(text) == [Text(text[0])] + TextEvents(text[1..]);
    }
  }

  /** Printing an element after `acc` appends its serialization to `acc`. */
  lemma {:induction false} PrintAppends(acc: seq<Event>, e: Element)
    ensures Print(acc, e) == acc + Serialize(e)
    decreases e, 1
  {
    var inside := acc + [Open(e.name)];
    PrintAttributesAppends(inside, e.attributes);
    var withAttributes := inside + AttributeEvents(e.attributes);
    PrintTextsAppends(withAttributes, e.text);
    var withText := withAttributes + TextEvents(e.text);
    PrintAllAppends(withText, e.children);
    var opening := [Open(e.name)] + AttributeEvents(e.attributes);
    var header := opening + TextEvents(e.text);
    var body := header + SerializeAll(e.children);
    AppendAssoc(acc, [Open(e.name)], AttributeEvents(e.attributes));
    AppendAssoc(acc, opening, TextEvents(e.text));
    AppendAssoc(acc, header, SerializeAll(e.children));
    AppendAssoc(acc, body, [Close(e.name)]);
  }

  lemma {:induction false} PrintAllAppends(acc: seq<Event>, es: seq<Element>)
    ensures PrintAll(acc, es) == acc + SerializeAll(es)
    decreases es, 0
  {
    if es != [] {
      PrintAppends(acc, es[0]);
      PrintAllAppends(acc + Serialize(es[0]), es[1..]);
      AppendAssoc(acc, Serialize(es[0]), SerializeAll(es[1..]));
    } else {
      assert acc + [] == acc;
    }
  }

  // ---------------------------------------------------------------------------
  // Nesting

  /** The effect of one event on the stack of open element names; closing
      anything but the innermost open element is an error. */
  function Step(stack: seq<string>, e: Event): Option<seq<string>>
  {
    match e
    case Open(name) => Some(stack + [name])
    case Close(name) => if stack != [] && stack[|stack| - 1] == name then Some(stack[..|stack| - 1]) else None
    case _ => Some(stack)
  }

  /** The stack after `events`, starting from `stack`, or None on a mismatched close. */
  function Run(stack: seq<string>, events: seq<Event>): Option<seq<string>>
  {
    if events == [] then Some(stack)
    else
      match Run(stack, events[..|events| - 1])
      case None => None
      case Some(s) => Step(s, events[|events| - 1])
  }

  /** Every element opened is closed, innermost first. */
  predicate Balanced(events: seq<Event>)
  {
    Run([], events) == Some([])
  }

  lemma {:induction false} RunAppend(stack: seq<string>, a: seq<Event>, b: seq<Event>)
    ensures Run(stack, a + b) == match Run(stack, a) case None => None case Some(s) => Run(s, b)
    decreases |b|
  {
    if b != [] {
      var n := |b| - 1;
      assert (a + b)[..|a + b| - 1] == a + b[..n];
      assert (a + b)[|a + b| - 1] == b[n];
      RunAppend(stack, a, b[..n]);
    } else {
      assert a + b == a;
    }
  }

  /** Events that neither open nor close leave the stack alone. */
  lemma {:induction false} RunFlat(stack: seq<string>, events: seq<Event>)
    requires forall i :: 0 <= i < |events| ==> !events[i].Open? && !events[i].Close?
    ensures Run(stack, events) == Some(stack)
  {
    if events != [] {
      RunFlat(stack, events[..|events| - 1]);
    }
  }

  /** Printing an element returns the stack to where it was: the tree's
      events are properly nested at any depth. */
  lemma {:induction false} SerializeNested(e: Element, stack: seq<string>)
    ensures Run(stack, Serialize(e)) == Some(stack)
    decreases e, 1
  {
    var inner := stack + [e.name];
    var flat := AttributeEvents(e.attributes) + TextEvents(e.text);
    RunFlat(inner, flat);
    SerializeAllNested(e.children, inner);
    RunAppend(stack, [Open(e.name)], flat);
    RunAppend(stack, [Open(e.name)] + flat, SerializeAll(e.children));
    RunAppend(stack, [Open(e.name)] + flat + SerializeAll(e.children), [Close(e.name)]);
    AppendAssoc([Open(e.name)], AttributeEvents(e.attributes), TextEvents(e.text));
    assert inner[..|inner| - 1] == stack;
  }

  lemma {:induction false} SerializeAllNested(es: seq<Element>, stack: seq<string>)
    ensures Run(stack, SerializeAll(es)) == Some(stack)
    decreases es, 0
  {
    if es != [] {
      SerializeNested(es[0], stack);
      SerializeAllNested(es[1..], stack);
      RunAppend(stack, Serialize(es[0]), SerializeAll(es[1..]));
    }
  }

  /** A printed document (a declaration, then one element) is balanced. */
  lemma DocumentBalanced(root: Element)
    ensures Balanced([Declaration(XML_DECLARATION)] + Serialize(root))
  {
    SerializeNested(root, []);
    RunAppend([], [Declaration(XML_DECLARATION)], Serialize(root));
    assert [Declaration(XML_DECLARATION)][..0] == [];
  }

  // ---------------------------------------------------------------------------
  // NUL characters

  predicate EventNulFree(e: Event)
  {
    match e
    case Declaration(text) => NulFree(text)
    case Open(name) => NulFree(name)
    case Attribute(key, value) => NulFree(key) && NulFree(value)
    case Text(content) => content.Number? || NulFree(content.chars)
    case Close(name) => NulFree(name)
  }

  /** No string handed to the printer contains NUL, so the printed text has
      none before the terminator the printer adds. */
  predicate EventsNulFree(events: seq<Event>)
  {
    forall i :: 0 <= i < |events| ==> EventNulFree(events[i])
  }

  predicate ContentNulFree(c: Content)
  {
    c.Number? || NulFree(c.chars)
  }

  /** Every name, attribute and text of the tree is free of NUL. */
  predicate ElementNulFree(e: Element)
  {
    && NulFree(e.name)
    && (forall a :: a in e.attributes ==> NulFree(a.key) && NulFree(a.value))
    && (forall c :: c in e.text ==> ContentNulFree(c))
    && (forall child :: child in e.children ==> ElementNulFree(child))
  }

  lemma {:induction false} SerializeNulFree(e: Element)
    requires ElementNulFree(e)
    ensures EventsNulFree(Serialize(e))
    decreases e, 1
  {
    SerializeAllNulFree(e.children);
    var attributes := AttributeEvents(e.attributes);
    var text := TextEvents(e.text);
    forall i | 0 <= i < |attributes| ensures EventNulFree(attributes[i]) {
      assert e.attributes[i] in e.attributes;
    }
    forall i | 0 <= i < |text| ensures EventNulFree(text[i]) {
      assert e.text[i] in e.text;
    }
    EventsNulFreeAppend([Open(e.name)], attributes);
    EventsNulFreeAppend([Open(e.name)] + attributes, text);
    EventsNulFreeAppend([Open(e.name)] + attributes + text, SerializeAll(e.children));
    EventsNulFreeAppend([Open(e.name)] + attributes + text + SerializeAll(e.children), [Close(e.name)]);
  }

  lemma {:induction false} SerializeAllNulFree(es: seq<Element>)
    requires forall e :: e in es ==> ElementNulFree(e)
    ensures EventsNulFree(SerializeAll(es))
    decreases es, 0
  {
    if es != [] {
      assert es[0] in es;
      SerializeNulFree(es[0]);
      SerializeAllNulFree(es[1..]);
      EventsNulFreeAppend(Serialize(es[0]), SerializeAll(es[1..]));
    }
  }

  lemma EventsNulFreeAppend(a: seq<Event>, b: seq<Event>)
    requires EventsNulFree(a) && EventsNulFree(b)
    ensures EventsNulFree(a + b)
  {
    forall i | 0 <= i < |a + b| ensures EventNulFree((a + b)[i]) {
      if i >= |a| {
        assert (a + b)[i] == b[i - |a|];
      }
    }
  }

  // ---------------------------------------------------------------------------
  // The printer

  /** tinyxml2's `XMLPrinter`: the stack of open element names, the output so
      far, and whether the innermost element's start tag is still open for
      attributes. */
  class XmlPrinter {
    var stack: seq<string>
    var events: seq<Event>
    var elementJustOpened: bool

    constructor ()
      ensures stack == [] && events == [] && !elementJustOpened
    {
      stack := [];
      events := [];
      elementJustOpened := false;
    }

    /** `PushHeader(writeBOM, writeDec)`; a byte order mark is not modelled. */
    method PushHeader(writeBom: bool, writeDeclaration: bool)
      modifies this
      ensures events == old(events) + (if writeDeclaration then [Declaration(XML_DECLARATION)] else [])
      ensures stack == old(stack) && elementJustOpened == (old(elementJustOpened) && !writeDeclaration)
    {
      if writeDeclaration {
        events := events + [Declaration(XML_DECLARATION)];
        elementJustOpened := false;
      }
    }

    method OpenElement(name: string)
      requires NulFree(name)
      modifies this
      ensures events == old(events) + [Open(name)] && stack == old(stack) + [name]
      ensures elementJustOpened
    {
      events := events + [Open(name)];
      stack := stack + [name];
      elementJustOpened := true;
    }

    /** Attributes may only follow the start of an element. */
    method PushAttribute(key: string, value: string)
      requires elementJustOpened && NulFree(key) && NulFree(value)
      modifies this
      ensures events == old(events) + [Attribute(key, value)] && stack == old(stack)
      ensures elementJustOpened
    {
      events := events + [Attribute(key, value)];
    }

    /** The `bool` overload, which prints "true" or "false". */
    method PushBoolAttribute(key: string, value: bool)
      requires elementJustOpened && NulFree(key)
      modifies this
      ensures events == old(events) + [Attribute(key, if value then "true" else "false")] && stack == old(stack)
      ensures elementJustOpened
    {
      PushAttribute(key, if value then "true" else "false");
    }

    method PushText(text: string)
      requires NulFree(text)
      modifies this
      ensures events == old(events) + [Text(Chars(text))] && stack == old(stack)
      ensures !elementJustOpened
    {
      events := events + [Text(Chars(text))];
      elementJustOpened := false;
    }

    /** The `float` overload; the printer's number formatting is not modelled. */
    method PushNumber(value: real)
      modifies this
      ensures events == old(events) + [Text(Number(value))] && stack == old(stack)
      ensures !elementJustOpened
    {
      events := events + [Text(Number(value))];
      elementJustOpened := false;
    }

    /** Closes the innermost open element. */
    method CloseElement()
      requires stack != []
      modifies this
      ensures events == old(events) + [Close(old(stack)[|old(stack)| - 1])]
      ensures stack == old(stack)[..|old(stack)| - 1]
      ensures !elementJustOpened
    {
      var name := stack[|stack| - 1];
      events := events + [Close(name)];
      stack := stack[..|stack| - 1];
      elementJustOpened := false;
    }
  }

  // ---------------------------------------------------------------------------
  // The SDF document

  /** An element with text and no attributes or children. */
  function TextElement(name: string, text: seq<Content>): Element
  {
    Element(name, [], text, [])
  }

  /** An element with children only. */
  function Wrap(name: string, children: seq<Element>): Element
  {
    Element(name, [], [], children)
  }

  /** The box's collision size, "width height depth". */
  function SizeText(size: BoxSize): seq<Content>
  {
    [Number(size.width), Chars(" "), Number(size.height), Chars(" "), Number(size.depth)]
  }

  function CollisionElement(box: BoxSettings): Element
  {
    Element("collision", [Attr("name", "collision")], [], [
      TextElement("density", [Chars(COLLISION_DENSITY)]),
      Wrap("geometry", [Wrap("box", [TextElement("size", SizeText(box.size))])])])
  }

  const INERTIAL_ELEMENT: Element := Element("inertial", [Attr("auto", "true")], [], [])

  const STATIC_ELEMENT: Element := TextElement("static", [Chars("true")])

  const POSE_ELEMENT: Element := Element("pose", [Attr("degrees", "true")], [Chars(LINK_POSE)], [])

  function UriText(gltfPath: string): string
  {
    CString(MODEL_URI_SCHEME + gltfPath)
  }

  function VisualElement(gltfPath: string): Element
  {
    Element("visual", [Attr("name", "visual")], [], [
      Wrap("geometry", [Wrap("mesh", [TextElement("uri", [Chars(UriText(gltfPath))])])])])
  }

  /** `produce_sdf_model_extras`: a grid board is static, a box board adds nothing. */
  function ModelExtras(board: ConcreteBoard): seq<Element>
  {
    match board
    case BoxBoard(_) => []
    case GridBoard(_) => [STATIC_ELEMENT]
  }

  /** `produce_sdf_link_extras`: a box board collides and has an inertia
      computed by the simulator, a grid board adds nothing. */
  function LinkExtras(board: ConcreteBoard): seq<Element>
  {
    match board
    case BoxBoard(box) => [CollisionElement(box), INERTIAL_ELEMENT]
    case GridBoard(_) => []
  }

  function LinkElement(gltfPath: string, board: ConcreteBoard): Element
  {
    Element("link", [Attr("name", "link")], [], [POSE_ELEMENT, VisualElement(gltfPath)] + LinkExtras(board))
  }

  /** The `<model>` element: the model extras, then the link. */
  function ModelElement(name: string, gltfPath: string, board: ConcreteBoard): Element
  {
    Element("model", [Attr("name", CString(name))], [], ModelExtras(board) + [LinkElement(gltfPath, board)])
  }

  /** The document `produce_sdf` prints for model `name` showing the glTF file at `gltfPath`. */
  function SdfDocument(name: string, gltfPath: string, board: ConcreteBoard): Element
  {
    Element("sdf", [Attr("version", SDF_VERSION)], [], [ModelElement(name, gltfPath, board)])
  }


  // ---------------------------------------------------------------------------
  // Printing the document, block by block as `produce_sdf` does

  /** An element's events: open, attributes and text, then its children, then close. */
  lemma PrintParent(acc: seq<Event>, e: Element)
    ensures Print(acc, e)
         == PrintAll(acc + [Open(e.name)] + AttributeEvents(e.attributes) + TextEvents(e.text), e.children)
            + [Close(e.name)]
  {
    PrintAttributesAppends(acc + [Open(e.name)], e.attributes);
    PrintTextsAppends(acc + [Open(e.name)] + AttributeEvents(e.attributes), e.text);
  }

  lemma PrintAllOne(acc: seq<Event>, e: Element)
    ensures PrintAll(acc, [e]) == Print(acc, e)
  {
    assert [e][1..] == [];
  }

  /** Printing two lists of siblings is printing their concatenation. */
  lemma {:induction false} PrintAllConcat(acc: seq<Event>, xs: seq<Element>, ys: seq<Element>)
    ensures PrintAll(acc, xs + ys) == PrintAll(PrintAll(acc, xs), ys)
    decreases |xs|
  {
    if xs != [] {
      assert (xs + ys)[0] == xs[0];
      assert (xs + ys)[1..] == xs[1..] + ys;
      PrintAllConcat(Print(acc, xs[0]), xs[1..], ys);
    } else {
      assert xs + ys == ys;
    }
  }

  /** Printing one more sibling after a list of siblings. */
  lemma PrintAllSnoc(acc: seq<Event>, xs: seq<Element>, e: Element)
    ensures Print(PrintAll(acc, xs), e) == PrintAll(acc, xs + [e])
  {
    PrintAllConcat(acc, xs, [e]);
    PrintAllOne(PrintAll(acc, xs), e);
  }

  /** An element with text only: open, push the text, close. */
  method PrintTextElement(printer: XmlPrinter, name: string, text: string)
    requires NulFree(name) && NulFree(text)
    modifies printer
    ensures printer.events == Print(old(printer.events), TextElement(name, [Chars(text)]))
    ensures printer.stack == old(printer.stack)
  {
    PrintParent(printer.events, TextElement(name, [Chars(text)]));
    printer.OpenElement(name);
    printer.PushText(text);
    printer.CloseElement();
  }

  /** `<static>true</static>`, the grid board's model extra. */
  method PrintStatic(printer: XmlPrinter)
    modifies printer
    ensures printer.events == Print(old(printer.events), STATIC_ELEMENT)
    ensures printer.stack == old(printer.stack)
  {
    PrintTextElement(printer, "static", "true");
  }

  /** `produce_sdf_model_extras`, chosen by the kind of board. */
  method ProduceModelExtras(printer: XmlPrinter, board: ConcreteBoard)
    modifies printer
    ensures printer.events == PrintAll(old(printer.events), ModelExtras(board))
    ensures printer.stack == old(printer.stack)
  {
    match board
    case BoxBoard(_) =>
    case GridBoard(_) =>
      PrintAllOne(printer.events, STATIC_ELEMENT);
      PrintStatic(printer);
  }

  /** `<size>w h d</size>`: the box dimensions separated by single spaces. */
  method PrintSize(printer: XmlPrinter, size: BoxSize)
    modifies printer
    ensures printer.events == Print(old(printer.events), TextElement("size", SizeText(size)))
    ensures printer.stack == old(printer.stack)
  {
    var e := TextElement("size", SizeText(size));
    PrintParent(printer.events, e);
    assert TextEvents(SizeText(size))
        == [Text(Number(size.width)), Text(Chars(" ")), Text(Number(size.height)), Text(Chars(" ")),
            Text(Number(size.depth))];
    printer.OpenElement("size");
    printer.PushNumber(size.width);
    printer.PushText(" ");
    printer.PushNumber(size.height);
    printer.PushText(" ");
    printer.PushNumber(size.depth);
    printer.CloseElement();
  }

  /** Opens `name`, prints `child` inside it and closes it. */
  lemma PrintWrapOne(acc: seq<Event>, name: string, child: Element)
    ensures Print(acc, Wrap(name, [child])) == Print(acc + [Open(name)], child) + [Close(name)]
  {
    PrintParent(acc, Wrap(name, [child]));
    assert acc + [Open(name)] + AttributeEvents([]) + TextEvents([]) == acc + [Open(name)];
    PrintAllOne(acc + [Open(name)], child);
  }

  /** The collision geometry: `<geometry><box><size>…</size></box></geometry>`. */
  method PrintBoxGeometry(printer: XmlPrinter, size: BoxSize)
    modifies printer
    ensures printer.events
         == Print(old(printer.events), Wrap("geometry", [Wrap("box", [TextElement("size", SizeText(size))])]))
    ensures printer.stack == old(printer.stack)
  {
    var sizeElement := TextElement("size", SizeText(size));
    ghost var before := printer.events;
    printer.OpenElement("geometry");
    ghost var inGeometry := printer.events;
    printer.OpenElement("box");
    PrintSize(printer, size);
    printer.CloseElement();
    PrintWrapOne(inGeometry, "box", sizeElement);
    printer.CloseElement();
    PrintWrapOne(before, "geometry", Wrap("box", [sizeElement]));
  }

  /** The box board's collision: its density, then its box geometry. */
  method PrintCollision(printer: XmlPrinter, box: BoxSettings)
    modifies printer
    ensures printer.events == Print(old(printer.events), CollisionElement(box))
    ensures printer.stack == old(printer.stack)
  {
    var density := TextElement("density", [Chars(COLLISION_DENSITY)]);
    var geometry := Wrap("geometry", [Wrap("box", [TextElement("size", SizeText(box.size))])]);
    PrintParent(printer.events, CollisionElement(box));
    printer.OpenElement("collision");
    printer.PushAttribute("name", "collision");
    ghost var inside := printer.events;
    PrintTextElement(printer, "density", COLLISION_DENSITY);
    PrintAllOne(inside, density);
    PrintBoxGeometry(printer, box.size);
    PrintAllSnoc(inside, [density], geometry);
    printer.CloseElement();
  }

  /** `<inertial auto="true"/>`: the simulator computes the inertia. */
  method PrintInertial(printer: XmlPrinter)
    modifies printer
    ensures printer.events == Print(old(printer.events), INERTIAL_ELEMENT)
    ensures printer.stack == old(printer.stack)
  {
    PrintParent(printer.events, INERTIAL_ELEMENT);
    printer.OpenElement("inertial");
    printer.PushBoolAttribute("auto", true);
    printer.CloseElement();
  }

  /** `produce_sdf_link_extras`, chosen by the kind of board. */
  method ProduceLinkExtras(printer: XmlPrinter, board: ConcreteBoard)
    modifies printer
    ensures printer.events == PrintAll(old(printer.events), LinkExtras(board))
    ensures printer.stack == old(printer.stack)
  {
    match board
    case BoxBoard(box) =>
      ghost var before := printer.events;
      PrintCollision(printer, box);
      PrintAllOne(before, CollisionElement(box));
      PrintInertial(printer);
      PrintAllSnoc(before, [CollisionElement(box)], INERTIAL_ELEMENT);
    case GridBoard(_) =>
  }

  /** The link pose, in degrees. */
  method PrintPose(printer: XmlPrinter)
    modifies printer
    ensures printer.events == Print(old(printer.events), POSE_ELEMENT)
    ensures printer.stack == old(printer.stack)
  {
    PrintParent(printer.events, POSE_ELEMENT);
    printer.OpenElement("pose");
    printer.PushBoolAttribute("degrees", true);
    printer.PushText(LINK_POSE);
    printer.CloseElement();
  }

  /** The visual: a mesh read from `model://` followed by the glTF path. */
  method PrintVisual(printer: XmlPrinter, gltfPath: string)
    modifies printer
    ensures printer.events == Print(old(printer.events), VisualElement(gltfPath))
    ensures printer.stack == old(printer.stack)
  {
    var uri := TextElement("uri", [Chars(UriText(gltfPath))]);
    PrintParent(printer.events, VisualElement(gltfPath));
    printer.OpenElement("visual");
    printer.PushAttribute("name", "visual");
    ghost var inside := printer.events;
    printer.OpenElement("geometry");
    ghost var inGeometry := printer.events;
    printer.OpenElement("mesh");
    PrintTextElement(printer, "uri", UriText(gltfPath));
    printer.CloseElement();
    PrintWrapOne(inGeometry, "mesh", uri);
    printer.CloseElement();
    PrintWrapOne(inside, "geometry", Wrap("mesh", [uri]));
    PrintAllOne(inside, Wrap("geometry", [Wrap("mesh", [uri])]));
    printer.CloseElement();
  }

  /** The link: pose, visual, then the board's link extras. */
  method PrintLink(printer: XmlPrinter, gltfPath: string, board: ConcreteBoard)
    modifies printer
    ensures printer.events == Print(old(printer.events), LinkElement(gltfPath, board))
    ensures printer.stack == old(printer.stack)
  {
    PrintParent(printer.events, LinkElement(gltfPath, board));
    printer.OpenElement("link");
    printer.PushAttribute("name", "link");
    ghost var inside := printer.events;
    PrintPose(printer);
    PrintAllOne(inside, POSE_ELEMENT);
    PrintVisual(printer, gltfPath);
    PrintAllSnoc(inside, [POSE_ELEMENT], VisualElement(gltfPath));
    ProduceLinkExtras(printer, board);
    PrintAllConcat(inside, [POSE_ELEMENT, VisualElement(gltfPath)], LinkExtras(board));
    printer.CloseElement();
  }

  /** The model: its name, the board's model extras, then the link. */
  method PrintModel(printer: XmlPrinter, name: string, gltfPath: string, board: ConcreteBoard)
    modifies printer
    ensures printer.events == Print(old(printer.events), ModelElement(name, gltfPath, board))
    ensures printer.stack == old(printer.stack)
  {
    var link := LinkElement(gltfPath, board);
    var model := ModelElement(name, gltfPath, board);
    ghost var before := printer.events;
    PrintParent(before, model);
    printer.OpenElement("model");
    printer.PushAttribute("name", CString(name));
    ghost var inside := printer.events;
    assert inside == before + [Open("model")] + AttributeEvents(model.attributes) + TextEvents(model.text);
    ProduceModelExtras(printer, board);
    PrintLink(printer, gltfPath, board);
    PrintAllSnoc(inside, ModelExtras(board), link);
    assert printer.stack == old(printer.stack) + ["model"];
    printer.CloseElement();
  }

  /** `produce_sdf`: the declaration, then the document; the result is what
      is written, the printer's text without its terminating NUL. */
  method ProduceSdf(name: string, gltfPath: string, board: ConcreteBoard) returns (document: seq<Event>)
    ensures document == Print([Declaration(XML_DECLARATION)], SdfDocument(name, gltfPath, board))
  {
    var printer := new XmlPrinter();
    printer.PushHeader(false, true);
    var model := ModelElement(name, gltfPath, board);
    ghost var header := printer.events;
    assert header == [Declaration(XML_DECLARATION)];
    PrintParent(header, SdfDocument(name, gltfPath, board));
    printer.OpenElement("sdf");
    printer.PushAttribute("version", SDF_VERSION);
    ghost var inside := printer.events;
    assert inside == header + [Open("sdf")] + AttributeEvents([Attr("version", SDF_VERSION)]) + TextEvents([]);
    PrintModel(printer, name, gltfPath, board);
    PrintAllOne(inside, model);
    assert printer.stack == ["sdf"];
    printer.CloseElement();
    document := printer.events;
  }

  /** What `produce_sdf` writes is the declaration followed by the document
      tree, properly nested, with no NUL in it. */
  lemma PrintedDocument(name: string, gltfPath: string, board: ConcreteBoard)
    ensures var document := Print([Declaration(XML_DECLARATION)], SdfDocument(name, gltfPath, board));
      && document == [Declaration(XML_DECLARATION)] + Serialize(SdfDocument(name, gltfPath, board))
      && Balanced(document)
      && EventsNulFree(document)
  {
    PrintAppends([Declaration(XML_DECLARATION)], SdfDocument(name, gltfPath, board));
    DocumentBalanced(SdfDocument(name, gltfPath, board));
    SdfDocumentNulFree(name, gltfPath, board);
  }

  // ---------------------------------------------------------------------------
  // What the document contains

  /** The elements named `name` in the tree of `e`, in document order. */
  function Find(e: Element, name: string): seq<Element>
    decreases e, 1
  {
    (if e.name == name then [e] else []) + FindAll(e.children, name)
  }

  function FindAll(es: seq<Element>, name: string): seq<Element>
    decreases es, 0
  {
    if es == [] then [] else Find(es[0], name) + FindAll(es[1..], name)
  }

  lemma {:induction false} FindAllConcat(xs: seq<Element>, ys: seq<Element>, name: string)
    ensures FindAll(xs + ys, name) == FindAll(xs, name) + FindAll(ys, name)
    decreases |xs|
  {
    if xs != [] {
      assert (xs + ys)[0] == xs[0];
      assert (xs + ys)[1..] == xs[1..] + ys;
      FindAllConcat(xs[1..], ys, name);
    } else {
      assert xs + ys == ys;
    }
  }

  lemma FindAllOne(e: Element, name: string)
    ensures FindAll([e], name) == Find(e, name)
  {
    assert [e][1..] == [];
  }

  /** An element without children is found only as itself. */
  lemma FindLeaf(e: Element, name: string)
    requires e.children == []
    ensures Find(e, name) == if e.name == name then [e] else []
  {
  }

  /** Searching an element with one child searches the child. */
  lemma FindWrapOne(e: Element, name: string)
    requires |e.children| == 1 && e.name != name
    ensures Find(e, name) == Find(e.children[0], name)
  {
    assert e.children == [e.children[0]];
    FindAllOne(e.children[0], name);
  }

  const URI_NAMES: set<string> := {"visual", "geometry", "mesh"}
  const COLLISION_NAMES: set<string> := {"density", "geometry", "box"}
  const FRAME_NAMES: set<string> := {"sdf", "model", "link"}

  lemma FindVisual(gltfPath: string, name: string)
    requires name !in URI_NAMES
    ensures Find(VisualElement(gltfPath), name)
         == if name == "uri" then [TextElement("uri", [Chars(UriText(gltfPath))])] else []
  {
    var uri := TextElement("uri", [Chars(UriText(gltfPath))]);
    FindWrapOne(VisualElement(gltfPath), name);
    FindWrapOne(Wrap("geometry", [Wrap("mesh", [uri])]), name);
    FindWrapOne(Wrap("mesh", [uri]), name);
    FindLeaf(uri, name);
  }

  lemma FindCollision(box: BoxSettings, name: string)
    requires name !in COLLISION_NAMES
    ensures Find(CollisionElement(box), name)
         == (if name == "collision" then [CollisionElement(box)] else [])
            + (if name == "size" then [TextElement("size", SizeText(box.size))] else [])
  {
    var size := TextElement("size", SizeText(box.size));
    var density := TextElement("density", [Chars(COLLISION_DENSITY)]);
    var geometry := Wrap("geometry", [Wrap("box", [size])]);
    assert CollisionElement(box).children == [density] + [geometry];
    FindAllConcat([density], [geometry], name);
    FindAllOne(density, name);
    FindAllOne(geometry, name);
    FindLeaf(density, name);
    FindWrapOne(geometry, name);
    FindWrapOne(Wrap("box", [size]), name);
    FindLeaf(size, name);
  }

  /** The link holds the pose and the mesh, then a box board's collision,
      size and inertial. */
  lemma FindLink(gltfPath: string, board: ConcreteBoard, name: string)
    requires name !in URI_NAMES && name !in COLLISION_NAMES && name != "link"
    ensures Find(LinkElement(gltfPath, board), name)
         == (if name == "pose" then [POSE_ELEMENT] else [])
            + (if name == "uri" then [TextElement("uri", [Chars(UriText(gltfPath))])] else [])
            + match board
              case BoxBoard(box) =>
                (if name == "collision" then [CollisionElement(box)] else [])
                + (if name == "size" then [TextElement("size", SizeText(box.size))] else [])
                + (if name == "inertial" then [INERTIAL_ELEMENT] else [])
              case GridBoard(_) => []
  {
    var fixed := [POSE_ELEMENT, VisualElement(gltfPath)];
    FindAllConcat(fixed, LinkExtras(board), name);
    FindAllConcat([POSE_ELEMENT], [VisualElement(gltfPath)], name);
    FindAllOne(POSE_ELEMENT, name);
    FindAllOne(VisualElement(gltfPath), name);
    FindLeaf(POSE_ELEMENT, name);
    FindVisual(gltfPath, name);
    match board
    case BoxBoard(box) =>
      FindAllConcat([CollisionElement(box)], [INERTIAL_ELEMENT], name);
      FindAllOne(CollisionElement(box), name);
      FindAllOne(INERTIAL_ELEMENT, name);
      FindCollision(box, name);
      FindLeaf(INERTIAL_ELEMENT, name);
    case GridBoard(_) =>
  }

  /** The document holds the link's elements, after the static flag of a grid board. */
  lemma FindDocument(name: string, gltfPath: string, board: ConcreteBoard, element: string)
    requires element !in URI_NAMES && element !in COLLISION_NAMES && element !in FRAME_NAMES
    ensures Find(SdfDocument(name, gltfPath, board), element)
         == (if board.GridBoard? && element == "static" then [STATIC_ELEMENT] else [])
            + Find(LinkElement(gltfPath, board), element)
  {
    var link := LinkElement(gltfPath, board);
    FindWrapOne(SdfDocument(name, gltfPath, board), element);
    FindAllConcat(ModelExtras(board), [link], element);
    FindAllOne(link, element);
    match board
    case BoxBoard(_) =>
    case GridBoard(_) =>
      FindAllOne(STATIC_ELEMENT, element);
      FindLeaf(STATIC_ELEMENT, element);
  }

  /** The root is `<sdf version="1.11">` holding one model, named by the
      given name up to its first NUL, whose last child is the link. */
  lemma DocumentRoot(name: string, gltfPath: string, board: ConcreteBoard)
    ensures var root := SdfDocument(name, gltfPath, board);
      && root.name == "sdf" && root.attributes == [Attr("version", "1.11")] && |root.children| == 1
      && root.children[0].name == "model"
      && root.children[0].attributes == [Attr("name", CString(name))]
      && root.children[0].children[|root.children[0].children| - 1] == LinkElement(gltfPath, board)
      && (NulFree(name) ==> root.children[0].attributes == [Attr("name", name)])
  {
    if NulFree(name) {
      CStringOfNulFree(name);
    }
  }

  /** A grid board is a static model without collision or inertial. */
  lemma GridDocument(name: string, gltfPath: string, grid: GridSettings)
    ensures Find(SdfDocument(name, gltfPath, GridBoard(grid)), "static") == [TextElement("static", [Chars("true")])]
    ensures Find(SdfDocument(name, gltfPath, GridBoard(grid)), "collision") == []
    ensures Find(SdfDocument(name, gltfPath, GridBoard(grid)), "inertial") == []
  {
    FindDocument(name, gltfPath, GridBoard(grid), "static");
    FindDocument(name, gltfPath, GridBoard(grid), "collision");
    FindDocument(name, gltfPath, GridBoard(grid), "inertial");
    FindLink(gltfPath, GridBoard(grid), "static");
    FindLink(gltfPath, GridBoard(grid), "collision");
    FindLink(gltfPath, GridBoard(grid), "inertial");
  }

  /** A box board is a dynamic model that collides as a box of exactly the
      board's dimensions, with a density of 10 and an inertia the simulator
      computes. */
  lemma BoxDocument(name: string, gltfPath: string, box: BoxSettings)
    ensures Find(SdfDocument(name, gltfPath, BoxBoard(box)), "static") == []
    ensures Find(SdfDocument(name, gltfPath, BoxBoard(box)), "collision") == [CollisionElement(box)]
    ensures CollisionElement(box).attributes == [Attr("name", "collision")]
    ensures CollisionElement(box).children[0] == TextElement("density", [Chars("10.0")])
    ensures Find(SdfDocument(name, gltfPath, BoxBoard(box)), "size")
         == [TextElement("size", [Number(box.size.width), Chars(" "), Number(box.size.height), Chars(" "),
                                  Number(box.size.depth)])]
    ensures Find(SdfDocument(name, gltfPath, BoxBoard(box)), "inertial")
         == [Element("inertial", [Attr("auto", "true")], [], [])]
  {
    FindDocument(name, gltfPath, BoxBoard(box), "static");
    FindDocument(name, gltfPath, BoxBoard(box), "collision");
    FindDocument(name, gltfPath, BoxBoard(box), "size");
    FindDocument(name, gltfPath, BoxBoard(box), "inertial");
    FindLink(gltfPath, BoxBoard(box), "static");
    FindLink(gltfPath, BoxBoard(box), "collision");
    FindLink(gltfPath, BoxBoard(box), "size");
    FindLink(gltfPath, BoxBoard(box), "inertial");
  }

  /** Every board has one pose, rotating the glTF frame into the simulator's
      (in degrees), and one mesh URI, `model://` followed by the glTF path. */
  lemma LinkPoseAndUri(name: string, gltfPath: string, board: ConcreteBoard)
    ensures Find(SdfDocument(name, gltfPath, board), "pose")
         == [Element("pose", [Attr("degrees", "true")], [Chars("0 0 0 90 0 90")], [])]
    ensures Find(SdfDocument(name, gltfPath, board), "uri") == [TextElement("uri", [Chars(UriText(gltfPath))])]
    ensures NulFree(gltfPath) ==> UriText(gltfPath) == "model://" + gltfPath
  {
    FindDocument(name, gltfPath, board, "pose");
    FindDocument(name, gltfPath, board, "uri");
    FindLink(gltfPath, board, "pose");
    FindLink(gltfPath, board, "uri");
    if NulFree(gltfPath) {
      assert NulFree(MODEL_URI_SCHEME);
      CStringAppend(MODEL_URI_SCHEME, gltfPath);
      CStringOfNulFree(gltfPath);
    }
  }

  lemma VisualNulFree(gltfPath: string)
    ensures ElementNulFree(VisualElement(gltfPath))
  {
    var uri := TextElement("uri", [Chars(UriText(gltfPath))]);
    assert ElementNulFree(uri);
    assert ElementNulFree(Wrap("mesh", [uri]));
    assert ElementNulFree(Wrap("geometry", [Wrap("mesh", [uri])]));
  }

  lemma CollisionNulFree(box: BoxSettings)
    ensures ElementNulFree(CollisionElement(box))
  {
    var size := TextElement("size", SizeText(box.size));
    assert ElementNulFree(size);
    assert ElementNulFree(Wrap("box", [size]));
    assert ElementNulFree(Wrap("geometry", [Wrap("box", [size])]));
    assert ElementNulFree(TextElement("density", [Chars(COLLISION_DENSITY)]));
  }

  lemma LinkExtrasNulFree(board: ConcreteBoard)
    ensures forall child :: child in LinkExtras(board) ==> ElementNulFree(child)
  {
    match board {
      case BoxBoard(box) =>
        CollisionNulFree(box);
        assert ElementNulFree(INERTIAL_ELEMENT);
      case GridBoard(_) =>
    }
  }

  lemma LinkNulFree(gltfPath: string, board: ConcreteBoard)
    ensures ElementNulFree(LinkElement(gltfPath, board))
  {
    VisualNulFree(gltfPath);
    assert ElementNulFree(POSE_ELEMENT);
    LinkExtrasNulFree(board);
    var children := [POSE_ELEMENT, VisualElement(gltfPath)] + LinkExtras(board);
    assert forall child :: child in children ==> ElementNulFree(child);
  }

  lemma ModelNulFree(name: string, gltfPath: string, board: ConcreteBoard)
    ensures ElementNulFree(ModelElement(name, gltfPath, board))
  {
    LinkNulFree(gltfPath, board);
    assert ElementNulFree(STATIC_ELEMENT);
  }

  /** Nothing handed to the printer contains NUL: the name and the URI are
      cut at their first NUL, as `c_str()` does. */
  lemma SdfDocumentNulFree(name: string, gltfPath: string, board: ConcreteBoard)
    ensures EventsNulFree([Declaration(XML_DECLARATION)] + Serialize(SdfDocument(name, gltfPath, board)))
  {
    ModelNulFree(name, gltfPath, board);
    assert ElementNulFree(SdfDocument(name, gltfPath, board));
    SerializeNulFree(SdfDocument(name, gltfPath, board));
    EventsNulFreeAppend([Declaration(XML_DECLARATION)], Serialize(SdfDocument(name, gltfPath, board)));
  }
}
