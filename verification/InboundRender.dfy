/** Rendering of inbound messages and framework events (openjiuwen/agent_teams/inbound_render.py), and
    reading them back. */
module InboundRender {
  import opened Markup
  import opened Ordering
  import opened Wrappers

  // ---------------------------------------------------------------- what is rendered

  datatype Block =
    | Inbound(content: string, sender: string, messageId: string, msgType: string, timeInfo: string,
              forController: bool, noteKind: Option<string>, noteText: Option<string>)
    | ControllerInput(content: string)
    | Event(kind: string, body: string, taskId: Option<string>, forController: bool,
            noteKind: Option<string>, noteText: Option<string>)
    | TeamContext(body: string)
    | TeamContextWithIdentity(identityBody: string, conversion: Option<string>, info: Option<string>)

  /** Python's truth of an optional string. */
  predicate Truthy(s: Option<string>)
  {
    s.Some? && s.value != ""
  }

  // ---------------------------------------------------------------- the renderers

  function EscText(s: string): string { Escape(s, false) }

  function EscAttr(s: string): string { Escape(s, true) }

  function RenderNote(kind: Option<string>, text: Option<string>): string
  {
    if !Truthy(kind) || !Truthy(text) then ""
    else "<team-note kind=\"" + EscAttr(kind.value) + "\">\n" + EscText(text.value) + "\n</team-note>\n"
  }

  /** `" ".join(parts)`. */
  function JoinSpaces(parts: seq<string>): string
    requires parts != []
  {
    if |parts| == 1 then parts[0] else parts[0] + " " + JoinSpaces(parts[1..])
  }

  function RenderBlock(tag: string, attrs: seq<string>, body: string, note: string): string
  {
    "<" + JoinSpaces([tag] + attrs) + ">\n" + EscText(body) + "\n" + note + "</" + tag + ">"
  }

  function AttrText(name: string, value: string): string
  {
    name + "=\"" + EscAttr(value) + "\""
  }

  const FOR_CONTROLLER := "for=\"controller\""

  function RenderIdentity(identityBody: string, conversion: Option<string>): string
  {
    "<identity>\n" + EscText(identityBody)
      + (if Truthy(conversion) then "\n" + RenderBlock("identity-conversion", [], conversion.value, "") else "")
      + "\n</identity>"
  }

  function Render(b: Block): string
  {
    match b
    case Inbound(content, sender, messageId, msgType, timeInfo, forController, noteKind, noteText) =>
      RenderBlock("team-inbound",
                  [AttrText("from", sender), AttrText("message_id", messageId), AttrText("type", msgType),
                   AttrText("time", timeInfo)]
                    + (if forController then [FOR_CONTROLLER] else []),
                  content, RenderNote(noteKind, noteText))
    case ControllerInput(content) =>
      RenderBlock("team-inbound", ["from=\"controller\"", "type=\"direct\""], content, "")
    case Event(kind, body, taskId, forController, noteKind, noteText) =>
      RenderBlock("team-event",
                  [AttrText("kind", kind)] + (if taskId.Some? then [AttrText("task_id", taskId.value)] else [])
                    + (if forController then [FOR_CONTROLLER] else []),
                  body, RenderNote(noteKind, noteText))
    case TeamContext(body) => RenderBlock("team-context", [], body, "")
    case TeamContextWithIdentity(identityBody, conversion, info) =>
      "<team-context>\n" + RenderIdentity(identityBody, conversion)
        + (if Truthy(info) then "\n" + EscText(info.value) else "") + "\n</team-context>"
  }

  // ---------------------------------------------------------------- the element a block prints

  function BodyElement(tag: string, attrs: seq<Attr>, body: string, note: seq<Child>): Element
  {
    Element(tag, attrs, "\n" + body + "\n", note)
  }

  /** `None` and `""` alike. */
  predicate AbsentOrEmpty(s: Option<string>)
  {
    s == None || s == Some("")
  }

  function NoteChildren(kind: Option<string>, text: Option<string>): seq<Child>
  {
    if AbsentOrEmpty(kind) || AbsentOrEmpty(text) then []
    else [Child(BodyElement("team-note", [Attr("kind", kind.value)], text.value, []), "\n")]
  }

  function ControllerAttr(forController: bool): seq<Attr>
  {
    if forController then [Attr("for", "controller")] else []
  }

  function TaskAttr(taskId: Option<string>): seq<Attr>
  {
    if taskId.Some? then [Attr("task_id", taskId.value)] else []
  }

  function IdentityElement(identityBody: string, conversion: Option<string>): Element
  {
    BodyElement("identity", [], identityBody,
                if !AbsentOrEmpty(conversion) then
                  [Child(BodyElement("identity-conversion", [], conversion.value, []), "\n")]
                else [])
  }

  function InfoTail(info: Option<string>): string
  {
    if !AbsentOrEmpty(info) then "\n" + info.value + "\n" else "\n"
  }

  function ElementOf(b: Block): Element
  {
    match b
    case Inbound(content, sender, messageId, msgType, timeInfo, forController, noteKind, noteText) =>
      BodyElement("team-inbound",
                  [Attr("from", sender), Attr("message_id", messageId), Attr("type", msgType), Attr("time", timeInfo)]
                    + ControllerAttr(forController),
                  content, NoteChildren(noteKind, noteText))
    case ControllerInput(content) =>
      BodyElement("team-inbound", [Attr("from", "controller"), Attr("type", "direct")], content, [])
    case Event(kind, body, taskId, forController, noteKind, noteText) =>
      BodyElement("team-event", [Attr("kind", kind)] + TaskAttr(taskId) + ControllerAttr(forController),
                  body, NoteChildren(noteKind, noteText))
    case TeamContext(body) => BodyElement("team-context", [], body, [])
    case TeamContextWithIdentity(identityBody, conversion, info) =>
      Element("team-context", [], "\n",
              [Child(IdentityElement(identityBody, conversion), InfoTail(info))])
  }

  lemma NoSpecials(s: string)
    requires forall i :: 0 <= i < |s| ==> 'a' <= s[i] <= 'z'
    ensures EscAttr(s) == s
  {
    EscapePlain(s, true);
  }

  lemma {:induction false} JoinedAttrs(tag: string, attrs: seq<Attr>)
    ensures JoinSpaces([tag] + AttrTexts(attrs)) == tag + PrintAttrs(attrs)
    decreases attrs
  {
    if attrs == [] {
      assert [tag] + AttrTexts(attrs) == [tag];
    } else {
      var texts := AttrTexts(attrs);
      JoinedAttrs(texts[0], attrs[1..]);
      assert texts == [texts[0]] + AttrTexts(attrs[1..]);
      assert ([tag] + texts)[1..] == texts;
    }
  }

  function AttrTexts(attrs: seq<Attr>): seq<string>
  {
    if attrs == [] then [] else [AttrText(attrs[0].name, attrs[0].value)] + AttrTexts(attrs[1..])
  }

  lemma EscapeFramed(body: string)
    ensures Escape("\n" + body + "\n", false) == "\n" + EscText(body) + "\n"
  {
    EscapePlain("\n", false);
    EscapeConcat("\n", body, false);
    EscapeConcat("\n" + body, "\n", false);
  }

  lemma BlockPrints(tag: string, attrs: seq<Attr>, body: string, note: seq<Child>)
    ensures RenderBlock(tag, AttrTexts(attrs), body, PrintChildren(note)) == Print(BodyElement(tag, attrs, body, note))
  {
    JoinedAttrs(tag, attrs);
    EscapeFramed(body);
    Reassociate(tag, PrintAttrs(attrs), EscText(body), PrintChildren(note));
  }

  lemma Reassociate(tag: string, attrs: string, body: string, note: string)
    ensures "<" + (tag + attrs) + ">\n" + body + "\n" + note + "</" + tag + ">"
         == "<" + (tag + (attrs + (">" + (("\n" + body + "\n") + (note + ("</" + (tag + ">")))))))
  {
  }

  lemma NoteShape(kind: string, text: string)
    ensures "<team-note kind=\"" + kind + "\">\n" + text + "\n</team-note>\n"
         == "<" + ("team-note" + " " + ("kind" + "=\"" + kind + "\"")) + ">\n" + text + "\n" + ""
            + "</" + "team-note" + ">" + "\n"
  {
    var open := "<" + ("team-note" + " " + ("kind" + "=\"" + kind + "\"")) + ">\n";
    assert "<team-note kind=\"" == "<" + ("team-note" + " " + ("kind" + "=\""));
    assert "<team-note kind=\"" + kind + "\">\n" == open;
    assert "\n" + "" + "</" + "team-note" + ">" + "\n" == "\n</team-note>\n";
  }

  lemma NotePrints(kind: Option<string>, text: Option<string>)
    ensures RenderNote(kind, text) == PrintChildren(NoteChildren(kind, text))
  {
    if Truthy(kind) && Truthy(text) {
      var attrs := [Attr("kind", kind.value)];
      BlockPrints("team-note", attrs, text.value, []);
      assert AttrTexts(attrs) == [AttrText("kind", kind.value)];
      JoinTwo("team-note", AttrText("kind", kind.value));
      NoteShape(EscAttr(kind.value), EscText(text.value));
      EscapePlain("\n", false);
    }
  }

  lemma JoinTwo(a: string, b: string)
    ensures JoinSpaces([a] + [b]) == a + " " + b
  {
    assert ([a] + [b])[1..] == [b];
  }

  lemma {:induction false} AttrTextsConcat(a: seq<Attr>, b: seq<Attr>)
    ensures AttrTexts(a + b) == AttrTexts(a) + AttrTexts(b)
  {
    if a == [] {
      assert a + b == b;
    } else {
      AttrTextsConcat(a[1..], b);
      assert (a + b)[1..] == a[1..] + b && (a + b)[0] == a[0];
      Regroup([AttrText(a[0].name, a[0].value)], AttrTexts(a[1..]), AttrTexts(b));
    }
  }

  lemma OneText(a: Attr)
    ensures AttrTexts([a]) == [AttrText(a.name, a.value)]
  {
    assert [a][1..] == [];
  }

  lemma FixedAttr(name: string, value: string, text: string)
    requires (forall i :: 0 <= i < |value| ==> 'a' <= value[i] <= 'z') && text == name + "=\"" + value + "\""
    ensures AttrTexts([Attr(name, value)]) == [text]
  {
    NoSpecials(value);
    OneText(Attr(name, value));
  }

  lemma ControllerAttrTexts(forController: bool)
    ensures AttrTexts(ControllerAttr(forController)) == if forController then [FOR_CONTROLLER] else []
  {
    FixedAttr("for", "controller", FOR_CONTROLLER);
  }

  lemma TaskAttrTexts(taskId: Option<string>)
    ensures AttrTexts(TaskAttr(taskId)) == if taskId.Some? then [AttrText("task_id", taskId.value)] else []
  {
    if taskId.Some? {
      OneText(Attr("task_id", taskId.value));
    }
  }

  lemma InboundPrints(b: Block)
    requires b.Inbound?
    ensures Render(b) == Print(ElementOf(b))
  {
    var four := [Attr("from", b.sender), Attr("message_id", b.messageId), Attr("type", b.msgType),
                 Attr("time", b.timeInfo)];
    AttrTextsConcat(four, ControllerAttr(b.forController));
    ControllerAttrTexts(b.forController);
    NotePrints(b.noteKind, b.noteText);
    BlockPrints("team-inbound", four + ControllerAttr(b.forController), b.content,
                NoteChildren(b.noteKind, b.noteText));
    assert AttrTexts(four) == [AttrText("from", b.sender), AttrText("message_id", b.messageId),
                               AttrText("type", b.msgType), AttrText("time", b.timeInfo)] by {
      FourTexts(four);
    }
  }

  lemma FourTexts(attrs: seq<Attr>)
    requires |attrs| == 4
    ensures AttrTexts(attrs) == [AttrText(attrs[0].name, attrs[0].value), AttrText(attrs[1].name, attrs[1].value),
                                 AttrText(attrs[2].name, attrs[2].value), AttrText(attrs[3].name, attrs[3].value)]
  {
    assert attrs == [attrs[0]] + ([attrs[1]] + ([attrs[2]] + [attrs[3]]));
    AttrTextsConcat([attrs[0]], [attrs[1]] + ([attrs[2]] + [attrs[3]]));
    AttrTextsConcat([attrs[1]], [attrs[2]] + [attrs[3]]);
    AttrTextsConcat([attrs[2]], [attrs[3]]);
  }

  lemma ControllerPrints(b: Block)
    requires b.ControllerInput?
    ensures Render(b) == Print(ElementOf(b))
  {
    SenderTexts();
    BlockPrints("team-inbound", [Attr("from", "controller"), Attr("type", "direct")], b.content, []);
  }

  lemma TwoTexts(a: Attr, b: Attr, s: string, t: string)
    requires AttrTexts([a]) == [s] && AttrTexts([b]) == [t]
    ensures AttrTexts([a, b]) == [s, t]
  {
    AttrTextsConcat([a], [b]);
    assert [a] + [b] == [a, b];
  }

  lemma FromControllerText()
    ensures AttrTexts([Attr("from", "controller")]) == ["from=\"controller\""]
  {
    FixedAttr("from", "controller", "from=\"controller\"");
  }

  lemma DirectText()
    ensures AttrTexts([Attr("type", "direct")]) == ["type=\"direct\""]
  {
    FixedAttr("type", "direct", "type=\"direct\"");
  }

  lemma SenderTexts()
    ensures AttrTexts([Attr("from", "controller"), Attr("type", "direct")])
        == ["from=\"controller\"", "type=\"direct\""]
  {
    FromControllerText();
    DirectText();
    TwoTexts(Attr("from", "controller"), Attr("type", "direct"), "from=\"controller\"", "type=\"direct\"");
  }

  lemma EventPrints(b: Block)
    requires b.Event?
    ensures Render(b) == Print(ElementOf(b))
  {
    var kind := [Attr("kind", b.kind)];
    OneText(kind[0]);
    TaskAttrTexts(b.taskId);
    ControllerAttrTexts(b.forController);
    AttrTextsConcat(kind, TaskAttr(b.taskId));
    AttrTextsConcat(kind + TaskAttr(b.taskId), ControllerAttr(b.forController));
    NotePrints(b.noteKind, b.noteText);
    BlockPrints("team-event", kind + TaskAttr(b.taskId) + ControllerAttr(b.forController), b.body,
        NoteChildren(b.noteKind, b.noteText));
  }

  lemma ConversionPrints(conversion: Option<string>)
    requires Truthy(conversion)
    ensures RenderBlock("identity-conversion", [], conversion.value, "")
         == Print(BodyElement("identity-conversion", [], conversion.value, []))
  {
    BlockPrints("identity-conversion", [], conversion.value, []);
  }

  lemma IdentityPrints(identityBody: string, conversion: Option<string>)
    ensures RenderIdentity(identityBody, conversion) == Print(IdentityElement(identityBody, conversion))
  {
    EscapeFramed(identityBody);
    EscapePlain("\n", false);
    var body := EscText(identityBody);
    if Truthy(conversion) {
      ConversionPrints(conversion);
      var c := BodyElement("identity-conversion", [], conversion.value, []);
      assert PrintChildren([Child(c, "\n")]) == Print(c) + "\n";
      IdentityShape(body, Print(c));
    } else {
      BlockPrints("identity", [], identityBody, []);
      IdentityShapePlain(body);
    }
  }

  lemma IdentityShape(body: string, conversion: string)
    ensures "<identity>\n" + body + ("\n" + conversion) + "\n</identity>"
         == "<" + ("identity" + ("" + (">" + (("\n" + body + "\n")
              + ((conversion + "\n") + ("</" + ("identity" + ">")))))))
  {
    assert "<identity>\n" == "<" + ("identity" + (">" + "\n"));
    assert "\n</identity>" == "\n" + ("</" + ("identity" + ">"));
  }

  lemma IdentityShapePlain(body: string)
    ensures "<identity>\n" + body + "" + "\n</identity>"
         == "<" + ("identity" + ("" + (">" + (("\n" + body + "\n") + ("" + ("</" + ("identity" + ">")))))))
  {
    assert "<identity>\n" == "<" + ("identity" + (">" + "\n"));
    assert "\n</identity>" == "\n" + ("</" + ("identity" + ">"));
  }

  lemma ContextShape(identity: string, info: string)
    ensures "<team-context>\n" + identity + info + "\n</team-context>"
         == "<" + ("team-context" + ("" + (">" + ("\n" + ((identity + ((info + "\n") + ""))
              + ("</" + ("team-context" + ">")))))))
  {
    assert "<team-context>\n" == "<" + ("team-context" + (">" + "\n"));
    assert "\n</team-context>" == "\n" + ("</" + ("team-context" + ">"));
  }

  lemma InfoPrints(info: Option<string>)
    ensures Escape(InfoTail(info), false) == (if Truthy(info) then "\n" + EscText(info.value) else "") + "\n"
  {
    EscapePlain("\n", false);
    if Truthy(info) {
      EscapeFramed(info.value);
    }
  }

  lemma ContextPrints(b: Block)
    requires b.TeamContextWithIdentity?
    ensures Render(b) == Print(ElementOf(b))
  {
    IdentityPrints(b.identityBody, b.conversion);
    InfoPrints(b.info);
    EscapePlain("\n", false);
    var e, identity := IdentityElement(b.identityBody, b.conversion), RenderIdentity(b.identityBody, b.conversion);
    var info := if Truthy(b.info) then "\n" + EscText(b.info.value) else "";
    ChildPrints(e, InfoTail(b.info), identity, info);
    ContextShape(identity, info);
  }

  lemma ChildPrints(e: Element, tail: string, identity: string, info: string)
    requires Print(e) == identity && Escape(tail, false) == info + "\n"
    ensures PrintChildren([Child(e, tail)]) == identity + ((info + "\n") + "")
  {
    assert [Child(e, tail)][1..] == [];
  }

  /** Every renderer prints one element, escaping and all. */
  lemma RenderPrints(b: Block)
    ensures Render(b) == Print(ElementOf(b))
  {
    match b
    case Inbound(_, _, _, _, _, _, _, _) => InboundPrints(b);
    case ControllerInput(_) => ControllerPrints(b);
    case Event(_, _, _, _, _, _) => EventPrints(b);
    case TeamContext(body) => BlockPrints("team-context", [], body, []);
    case TeamContextWithIdentity(_, _, _) => ContextPrints(b);
  }

  lemma ElementTag(b: Block)
    ensures var e := ElementOf(b);
            if b.Event? then e.tag == "team-event" && e.attrs != [] && e.attrs[0] == Attr("kind", b.kind)
            else |e.tag| > 5 && e.tag[5] != 'e'
  {
  }

  // ---------------------------------------------------------------- reading a block back

  /** An absent or empty optional part is not rendered, nor is a note without its other half. */
  function Normalize(b: Block): Block
  {
    match b
    case Inbound(content, sender, messageId, msgType, timeInfo, forController, k, t) =>
      if !AbsentOrEmpty(k) && !AbsentOrEmpty(t) then b
      else Inbound(content, sender, messageId, msgType, timeInfo, forController, None, None)
    case Event(kind, body, taskId, forController, k, t) =>
      if !AbsentOrEmpty(k) && !AbsentOrEmpty(t) then b else Event(kind, body, taskId, forController, None, None)
    case TeamContextWithIdentity(identityBody, c, i) =>
      TeamContextWithIdentity(identityBody, if AbsentOrEmpty(c) then None else c, if AbsentOrEmpty(i) then None else i)
    case _ => b
  }

  function Unframe(head: string): string
  {
    if |head| < 2 then "" else head[1..|head| - 1]
  }

  function NoteOf(cs: seq<Child>): (Option<string>, Option<string>)
  {
    if cs == [] || cs[0].elem.attrs == [] then (None, None)
    else (Some(cs[0].elem.attrs[0].value), Some(Unframe(cs[0].elem.head)))
  }

  function BlockOf(e: Element): Option<Block>
  {
    var a, note := e.attrs, NoteOf(e.children);
    if e.tag == "team-inbound" && |a| >= 4 then
      Some(Inbound(Unframe(e.head), a[0].value, a[1].value, a[2].value, a[3].value, |a| > 4, note.0, note.1))
    else if e.tag == "team-inbound" then Some(ControllerInput(Unframe(e.head)))
    else if e.tag == "team-event" && a != [] then
      Some(Event(a[0].value, Unframe(e.head),
                 if |a| > 1 && a[1].name == "task_id" then Some(a[1].value) else None,
                 a[|a| - 1].name == "for", note.0, note.1))
    else if e.tag == "team-context" && e.children == [] then Some(TeamContext(Unframe(e.head)))
    else if e.tag == "team-context" then
      var identity, tail := e.children[0].elem, e.children[0].tail;
      Some(TeamContextWithIdentity(Unframe(identity.head),
                                   if identity.children == [] then None
                                   else Some(Unframe(identity.children[0].elem.head)),
                                   if |tail| < 2 then None else Some(Unframe(tail))))
    else None
  }

  /** The inverse of rendering. */
  function Recover(s: string): Option<Block>
  {
    match Parse(s)
    case None => None
    case Some((e, rest)) => if rest == "" then BlockOf(e) else None
  }

  lemma UnframeFramed(s: string)
    ensures Unframe("\n" + s + "\n") == s
  {
  }

  lemma NoteRecovered(kind: Option<string>, text: Option<string>)
    ensures NoteOf(NoteChildren(kind, text)) == if Truthy(kind) && Truthy(text) then (kind, text) else (None, None)
  {
    if Truthy(kind) && Truthy(text) {
      UnframeFramed(text.value);
    }
  }

  lemma InboundRecovered(b: Block)
    requires b.Inbound?
    ensures BlockOf(ElementOf(b)) == Some(Normalize(b))
  {
    UnframeFramed(b.content);
    NoteRecovered(b.noteKind, b.noteText);
  }

  lemma EventRecovered(b: Block)
    requires b.Event?
    ensures BlockOf(ElementOf(b)) == Some(Normalize(b))
  {
    UnframeFramed(b.body);
    NoteRecovered(b.noteKind, b.noteText);
  }

  lemma ContextRecovered(b: Block)
    requires b.TeamContextWithIdentity?
    ensures BlockOf(ElementOf(b)) == Some(Normalize(b))
  {
    UnframeFramed(b.identityBody);
    if Truthy(b.conversion) {
      UnframeFramed(b.conversion.value);
    }
    if Truthy(b.info) {
      UnframeFramed(b.info.value);
    }
  }

  lemma ElementRecovered(b: Block)
    ensures BlockOf(ElementOf(b)) == Some(Normalize(b))
  {
    match b
    case Inbound(_, _, _, _, _, _, _, _) => InboundRecovered(b);
    case ControllerInput(content) => UnframeFramed(content);
    case Event(_, _, _, _, _, _) => EventRecovered(b);
    case TeamContext(body) => UnframeFramed(body);
    case TeamContextWithIdentity(_, _, _) => ContextRecovered(b);
  }

  lemma TagNames()
    ensures NameOk("team-inbound") && NameOk("team-event") && NameOk("team-context") && NameOk("team-note")
    ensures NameOk("identity") && NameOk("identity-conversion")
  {
  }

  lemma AttrNames()
    ensures NameOk("from") && NameOk("message_id") && NameOk("type") && NameOk("time")
    ensures NameOk("kind") && NameOk("task_id") && NameOk("for")
  {
  }

  lemma BodyWellNamed(tag: string, attrs: seq<Attr>, body: string, note: seq<Child>)
    requires NameOk(tag) && forall a :: a in attrs ==> NameOk(a.name)
    requires forall ch :: ch in note ==> WellNamed(ch.elem)
    ensures WellNamed(BodyElement(tag, attrs, body, note))
  {
  }

  lemma NoteWellNamed(kind: Option<string>, text: Option<string>)
    ensures forall ch :: ch in NoteChildren(kind, text) ==> WellNamed(ch.elem)
  {
    TagNames();
    AttrNames();
    if Truthy(kind) && Truthy(text) {
      BodyWellNamed("team-note", [Attr("kind", kind.value)], text.value, []);
    }
  }

  lemma IdentityWellNamed(identityBody: string, conversion: Option<string>)
    ensures WellNamed(IdentityElement(identityBody, conversion))
  {
    TagNames();
    if Truthy(conversion) {
      BodyWellNamed("identity-conversion", [], conversion.value, []);
    }
  }

  lemma ElementWellNamed(b: Block)
    ensures WellNamed(ElementOf(b))
  {
    var e := ElementOf(b);
    TagNames();
    AttrNames();
    match b
    case Inbound(content, _, _, _, _, _, k, t) =>
      NoteWellNamed(k, t);
      BodyWellNamed("team-inbound", e.attrs, content, NoteChildren(k, t));
    case ControllerInput(content) => BodyWellNamed("team-inbound", e.attrs, content, []);
    case Event(_, body, _, _, k, t) =>
      NoteWellNamed(k, t);
      BodyWellNamed("team-event", e.attrs, body, NoteChildren(k, t));
    case TeamContext(body) => BodyWellNamed("team-context", [], body, []);
    case TeamContextWithIdentity(body, c, _) => IdentityWellNamed(body, c);
  }

  /** From any rendered block, whatever its texts, the renderer used and every field can be read
      back, up to optional parts that are absent or empty. */
  lemma RecoverRender(b: Block)
    ensures Recover(Render(b)) == Some(Normalize(b))
  {
    RenderPrints(b);
    ElementWellNamed(b);
    ParsePrint(ElementOf(b), "");
    assert Print(ElementOf(b)) + "" == Print(ElementOf(b));
    ElementRecovered(b);
  }

  lemma NoteDropped(kind: Option<string>, text: Option<string>)
    requires AbsentOrEmpty(kind) || AbsentOrEmpty(text)
    ensures RenderNote(kind, text) == RenderNote(None, None)
  {
  }

  lemma ContextNormalized(b: Block)
    requires b.TeamContextWithIdentity?
    ensures Render(Normalize(b)) == Render(b)
  {
    var c := Normalize(b).conversion;
    assert RenderIdentity(b.identityBody, c) == RenderIdentity(b.identityBody, b.conversion);
  }

  lemma RenderNormalized(b: Block)
    ensures Render(Normalize(b)) == Render(b)
  {
    match b
    case Inbound(_, _, _, _, _, _, kind, text) =>
      if AbsentOrEmpty(kind) || AbsentOrEmpty(text) {
        NoteDropped(kind, text);
      }
    case Event(_, _, _, _, kind, text) =>
      if AbsentOrEmpty(kind) || AbsentOrEmpty(text) {
        NoteDropped(kind, text);
      }
    case TeamContextWithIdentity(_, _, _) => ContextNormalized(b);
    case _ =>
  }

  /** Two blocks render alike exactly when they agree up to absent or empty optional parts. */
  lemma RenderInjective(a: Block, b: Block)
    ensures Render(a) == Render(b) <==> Normalize(a) == Normalize(b)
  {
    RecoverRender(a);
    RecoverRender(b);
    RenderNormalized(a);
    RenderNormalized(b);
  }

  /** No member can write a message that reads as its controller's instruction. */
  lemma MemberNeverController(content: string, sender: string, messageId: string, msgType: string, timeInfo: string,
                              forController: bool, noteKind: Option<string>, noteText: Option<string>,
                              instruction: string)
    ensures Render(Inbound(content, sender, messageId, msgType, timeInfo, forController, noteKind, noteText))
         != Render(ControllerInput(instruction))
  {
    RenderInjective(Inbound(content, sender, messageId, msgType, timeInfo, forController, noteKind, noteText),
                    ControllerInput(instruction));
  }
}
