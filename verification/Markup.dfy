/** Escaped markup as the inbound renderer emits it, and the parser that reads it back. An element
    is kept in the text/tail form: a head text, then children each followed by a tail text. */
module Markup {
  import opened Ordering
  import opened Wrappers

  // ---------------------------------------------------------------- html.escape

  /** What `html.escape` turns one character into; `quote` is its keyword argument. */
  function Entity(c: char, quote: bool): string
  {
    if c == '&' then "&amp;"
    else if c == '<' then "&lt;"
    else if c == '>' then "&gt;"
    else if quote && c == '"' then "&quot;"
    else if quote && c == '\'' then "&#x27;"
    else [c]
  }

  function Escape(s: string, quote: bool): string
  {
    if s == "" then "" else Entity(s[0], quote) + Escape(s[1..], quote)
  }

  /** Reads the entities back. */
  function Unescape(s: string): string
  {
    if s == "" then ""
    else if s[0] != '&' then [s[0]] + Unescape(s[1..])
    else if "&amp;" <= s then "&" + Unescape(s[5..])
    else if "&lt;" <= s then "<" + Unescape(s[4..])
    else if "&gt;" <= s then ">" + Unescape(s[4..])
    else if "&quot;" <= s then "\"" + Unescape(s[6..])
    else if "&#x27;" <= s then "'" + Unescape(s[6..])
    else [s[0]] + Unescape(s[1..])
  }

  lemma UnescapeEntity(c: char, quote: bool, r: string)
    ensures Unescape(Entity(c, quote) + r) == [c] + Unescape(r)
  {
    var e := Entity(c, quote);
    assert (e + r)[|e|..] == r && e <= e + r;
    if e[0] == '&' {
      assert (e + r)[1] == e[1] && (e + r)[2] == e[2];
    }
  }

  lemma {:induction false} UnescapeEscape(s: string, quote: bool)
    ensures Unescape(Escape(s, quote)) == s
  {
    if s != "" {
      UnescapeEscape(s[1..], quote);
      UnescapeEntity(s[0], quote, Escape(s[1..], quote));
    }
  }

  /** The five characters that have an entity, of which text keeps the quotes; any other stays as it is. */
  lemma EscapesFive(c: char, quote: bool)
    ensures Escape("&", quote) == "&amp;" && Escape("<", quote) == "&lt;" && Escape(">", quote) == "&gt;"
    ensures Escape("\"", quote) == if quote then "&quot;" else "\""
    ensures Escape("'", quote) == if quote then "&#x27;" else "'"
    ensures c !in "&<>\"'" ==> Escape([c], quote) == [c]
  {
    EscapeOne('&', quote);
    EscapeOne('<', quote);
    EscapeOne('>', quote);
    EscapeOne('"', quote);
    EscapeOne('\'', quote);
    EscapeOne(c, quote);
  }

  lemma EscapeOne(c: char, quote: bool)
    ensures Escape([c], quote) == Entity(c, quote)
  {
    assert [c][1..] == "";
    assert Entity(c, quote) + "" == Entity(c, quote);
  }

  /** Escaped text contains no markup character; escaped attribute values contain no quote. */
  lemma {:induction false} EscapeSafe(s: string, quote: bool)
    ensures '<' !in Escape(s, quote) && '>' !in Escape(s, quote)
    ensures quote ==> '"' !in Escape(s, quote) && '\'' !in Escape(s, quote)
  {
    if s != "" {
      EscapeSafe(s[1..], quote);
      EntitySafe(s[0], quote);
      var e, r := Entity(s[0], quote), Escape(s[1..], quote);
      assert forall c :: c in e + r <==> c in e || c in r;
    }
  }

  lemma EntitySafe(c: char, quote: bool)
    ensures '<' !in Entity(c, quote) && '>' !in Entity(c, quote)
    ensures quote ==> '"' !in Entity(c, quote) && '\'' !in Entity(c, quote)
  {
  }

  predicate Plain(s: string)
  {
    forall i :: 0 <= i < |s| ==> s[i] != '&' && s[i] != '<' && s[i] != '>' && s[i] != '"' && s[i] != '\''
  }

  lemma {:induction false} EscapePlain(s: string, quote: bool)
    requires Plain(s)
    ensures Escape(s, quote) == s
  {
    if s != "" {
      EscapePlain(s[1..], quote);
      assert Entity(s[0], quote) == [s[0]];
      assert s == [s[0]] + s[1..];
    }
  }

  lemma {:induction false} EscapeConcat(a: string, b: string, quote: bool)
    ensures Escape(a + b, quote) == Escape(a, quote) + Escape(b, quote)
  {
    if a == "" {
      assert a + b == b;
    } else {
      EscapeConcat(a[1..], b, quote);
      assert (a + b)[1..] == a[1..] + b && (a + b)[0] == a[0];
      Regroup(Entity(a[0], quote), Escape(a[1..], quote), Escape(b, quote));
    }
  }

  // ---------------------------------------------------------------- elements

  datatype Attr = Attr(name: string, value: string)

  datatype Element = Element(tag: string, attrs: seq<Attr>, head: string, children: seq<Child>)

  datatype Child = Child(elem: Element, tail: string)

  /** A tag or attribute name: nothing in it could end it. */
  predicate NameOk(s: string)
  {
    s != "" && forall i :: 0 <= i < |s| ==> s[i] != ' ' && s[i] != '>' && s[i] != '=' && s[i] != '<' && s[i] != '/'
  }

  predicate WellNamed(e: Element)
    decreases e
  {
    && NameOk(e.tag)
    && (forall a :: a in e.attrs ==> NameOk(a.name))
    && (forall ch :: ch in e.children ==> WellNamed(ch.elem))
  }

  function PrintAttr(a: Attr): string
  {
    a.name + "=\"" + Escape(a.value, true) + "\""
  }

  function PrintAttrs(attrs: seq<Attr>): string
  {
    if attrs == [] then "" else " " + (PrintAttr(attrs[0]) + PrintAttrs(attrs[1..]))
  }

  function Print(e: Element): string
    decreases e
  {
    "<" + (e.tag + (PrintAttrs(e.attrs)
      + (">" + (Escape(e.head, false) + (PrintChildren(e.children) + ("</" + (e.tag + ">")))))))
  }

  function PrintChildren(cs: seq<Child>): string
    decreases cs
  {
    if cs == [] then "" else Print(cs[0].elem) + (Escape(cs[0].tail, false) + PrintChildren(cs[1..]))
  }

  // ---------------------------------------------------------------- the parser

  /** The position of the first character of `stops`, or the length. */
  function Until(s: string, stops: string): (n: nat)
    ensures n <= |s|
    ensures n < |s| ==> s[n] in stops
    ensures forall i :: 0 <= i < n ==> s[i] !in stops
  {
    if s == "" || s[0] in stops then 0 else 1 + Until(s[1..], stops)
  }

  lemma {:induction false} UntilStop(a: string, stops: string, r: string)
    requires (forall i :: 0 <= i < |a| ==> a[i] !in stops) && r != "" && r[0] in stops
    ensures Until(a + r, stops) == |a|
    ensures (a + r)[..|a|] == a && (a + r)[|a|..] == r
  {
    if a == "" {
      assert a + r == r;
    } else {
      UntilStop(a[1..], stops, r);
      assert (a + r)[1..] == a[1..] + r && (a + r)[0] == a[0];
    }
  }

  /** An attribute's name and the opening quote of its value. */
  function ReadName(s: string): (r: Option<(string, string)>)
    ensures r.Some? ==> |r.value.1| < |s|
  {
    var n := Until(s, "=");
    if |s| < n + 2 || s[n + 1] != '"' then None else Some((s[..n], s[n + 2..]))
  }

  /** An attribute's value and its closing quote. */
  function ReadValue(s: string): (r: Option<(string, string)>)
    ensures r.Some? ==> |r.value.1| < |s|
  {
    var n := Until(s, "\"");
    if n == |s| then None else Some((Unescape(s[..n]), s[n + 1..]))
  }

  function ParseAttrs(s: string): (r: Option<(seq<Attr>, string)>)
    ensures r.Some? ==> |r.value.1| <= |s|
    decreases |s|
  {
    if s == "" || s[0] != ' ' then Some(([], s))
    else
      match ReadName(s[1..])
      case None => None
      case Some((name, afterName)) =>
        match ReadValue(afterName)
        case None => None
        case Some((value, afterValue)) =>
          match ParseAttrs(afterValue)
          case None => None
          case Some((attrs, rest)) => Some(([Attr(name, value)] + attrs, rest))
  }

  /** One element off the front of `s`, with what follows it. */
  function Parse(s: string): (r: Option<(Element, string)>)
    ensures r.Some? ==> |r.value.1| < |s|
    decreases |s|, 1
  {
    if s == "" || s[0] != '<' then None
    else
      var n := Until(s[1..], " >");
      var tag, afterTag := s[1..][..n], s[1..][n..];
      match ParseAttrs(afterTag)
      case None => None
      case Some((attrs, rest)) =>
        if rest == "" || rest[0] != '>' then None
        else
          var m := Until(rest[1..], "<");
          match ParseChildren(rest[1..][m..])
          case None => None
          case Some((children, close)) =>
            var end := "</" + (tag + ">");
            if end <= close then Some((Element(tag, attrs, Unescape(rest[1..][..m]), children), close[|end|..]))
            else None
  }

  /** Children up to the closing tag of their parent. */
  function ParseChildren(s: string): (r: Option<(seq<Child>, string)>)
    ensures r.Some? ==> |r.value.1| <= |s|
    decreases |s|, 2
  {
    if "</" <= s then Some(([], s))
    else
      match Parse(s)
      case None => None
      case Some((e, rest)) =>
        var m := Until(rest, "<");
        match ParseChildren(rest[m..])
        case None => None
        case Some((cs, close)) => Some(([Child(e, Unescape(rest[..m]))] + cs, close))
  }

  lemma ReadNameOf(name: string, r: string)
    requires NameOk(name)
    ensures ReadName(name + ("=\"" + r)) == Some((name, r))
  {
    var s := name + ("=\"" + r);
    UntilStop(name, "=", "=\"" + r);
    assert s[|name| + 1] == ("=\"" + r)[1];
    assert s[|name| + 2..] == s[|name|..][2..] && ("=\"" + r)[2..] == r;
  }

  lemma ReadValueOf(v: string, r: string)
    requires forall i :: 0 <= i < |v| ==> v[i] != '"'
    ensures ReadValue(v + ("\"" + r)) == Some((Unescape(v), r))
  {
    var s := v + ("\"" + r);
    UntilStop(v, "\"", "\"" + r);
    assert s[|v| + 1..] == s[|v|..][1..] && ("\"" + r)[1..] == r;
  }

  /** One attribute, its value escaped as `v`, in front of text whose attributes are known. */
  lemma ParseOneAttr(a: Attr, v: string, rest: string, attrs: seq<Attr>, r: string)
    requires NameOk(a.name) && ParseAttrs(rest) == Some((attrs, r))
    requires (forall i :: 0 <= i < |v| ==> v[i] != '"') && Unescape(v) == a.value
    ensures ParseAttrs(" " + (a.name + ("=\"" + (v + ("\"" + rest))))) == Some(([a] + attrs, r))
  {
    var s := a.name + ("=\"" + (v + ("\"" + rest)));
    ReadNameOf(a.name, v + ("\"" + rest));
    ReadValueOf(v, rest);
    AttrsUnfold(s, a.name, v + ("\"" + rest), a.value, rest, attrs, r);
  }

  lemma AttrsUnfold(s: string, name: string, afterName: string, value: string, afterValue: string, attrs: seq<Attr>,
                    r: string)
    requires ReadName(s) == Some((name, afterName)) && ReadValue(afterName) == Some((value, afterValue))
    requires ParseAttrs(afterValue) == Some((attrs, r))
    ensures ParseAttrs(" " + s) == Some(([Attr(name, value)] + attrs, r))
  {
    assert (" " + s)[1..] == s;
  }

  lemma AttrShape(name: string, v: string, more: string, r: string)
    ensures " " + ((name + "=\"" + v + "\"") + more) + r == " " + (name + ("=\"" + (v + ("\"" + (more + r)))))
  {
    assert (name + "=\"" + v + "\"") + more == name + ("=\"" + (v + ("\"" + more)));
  }

  lemma AttrsShape(attrs: seq<Attr>, r: string)
    requires attrs != []
    ensures PrintAttrs(attrs) + r
         == " " + (attrs[0].name + ("=\"" + (Escape(attrs[0].value, true) + ("\"" + (PrintAttrs(attrs[1..]) + r)))))
  {
    AttrShape(attrs[0].name, Escape(attrs[0].value, true), PrintAttrs(attrs[1..]), r);
  }

  lemma NoAttrs(r: string)
    requires r != "" && r[0] == '>'
    ensures ParseAttrs(PrintAttrs([]) + r) == Some(([], r))
  {
    assert PrintAttrs([]) + r == r;
  }

  lemma AttrStep(attrs: seq<Attr>, r: string)
    requires attrs != [] && NameOk(attrs[0].name)
    requires ParseAttrs(PrintAttrs(attrs[1..]) + r) == Some((attrs[1..], r))
    ensures ParseAttrs(PrintAttrs(attrs) + r) == Some((attrs, r))
  {
    AttrsShape(attrs, r);
    FirstAndRest(attrs);
    var v := Escape(attrs[0].value, true);
    EscapeSafe(attrs[0].value, true);
    UnescapeEscape(attrs[0].value, true);
    ParseOneAttr(attrs[0], v, PrintAttrs(attrs[1..]) + r, attrs[1..], r);
  }

  lemma {:induction false} ParsePrintAttrs(attrs: seq<Attr>, r: string)
    requires (forall i :: 0 <= i < |attrs| ==> NameOk(attrs[i].name)) && r != "" && r[0] == '>'
    ensures ParseAttrs(PrintAttrs(attrs) + r) == Some((attrs, r))
  {
    if attrs == [] {
      NoAttrs(r);
    } else {
      ParsePrintAttrs(attrs[1..], r);
      AttrStep(attrs, r);
    }
  }

  lemma AttrsStart(attrs: seq<Attr>, r: string)
    requires r != "" && r[0] == '>'
    ensures (PrintAttrs(attrs) + r)[0] in " >"
  {
  }

  /** An element put together from the readings of its parts. */
  lemma ParseAssembled(e: Element, afterTag: string, head: string, body: string, r: string)
    requires NameOk(e.tag) && afterTag != "" && afterTag[0] in " >"
    requires ParseAttrs(afterTag) == Some((e.attrs, ">" + (head + body)))
    requires body != "" && body[0] == '<' && (forall i :: 0 <= i < |head| ==> head[i] != '<')
    requires ParseChildren(body) == Some((e.children, ("</" + (e.tag + ">")) + r)) && Unescape(head) == e.head
    ensures Parse("<" + (e.tag + afterTag)) == Some((e, r))
  {
    var s := "<" + (e.tag + afterTag);
    assert s[1..] == e.tag + afterTag;
    UntilStop(e.tag, " >", afterTag);
    assert (">" + (head + body))[1..] == head + body;
    UntilStop(head, "<", body);
    var end := "</" + (e.tag + ">");
    assert end <= end + r && (end + r)[|end|..] == r;
  }

  lemma {:induction false} ParsePrint(e: Element, r: string)
    requires WellNamed(e)
    ensures Parse(Print(e) + r) == Some((e, r))
    decreases e
  {
    var close := ("</" + (e.tag + ">")) + r;
    var head, body := Escape(e.head, false), PrintChildren(e.children) + close;
    PrintShape(e, r);
    AttrsStart(e.attrs, ">" + (head + body));
    ParsePrintAttrs(e.attrs, ">" + (head + body));
    EscapeSafe(e.head, false);
    ChildrenStart(e.children, close);
    ParsePrintChildren(e.children, close);
    UnescapeEscape(e.head, false);
    ParseAssembled(e, PrintAttrs(e.attrs) + (">" + (head + body)), head, body, r);
  }

  lemma PushEnd(a: string, b: string, c: string, d: string, e: string, f: string, g: string, r: string)
    ensures a + (b + (c + (d + (e + (f + g))))) + r == a + (b + (c + (d + (e + (f + (g + r))))))
  {
    Regroup(f, g, r);
    Regroup(e, f + g, r);
    Regroup(d, e + (f + g), r);
    Regroup(c, d + (e + (f + g)), r);
    Regroup(b, c + (d + (e + (f + g))), r);
    Regroup(a, b + (c + (d + (e + (f + g)))), r);
  }

  lemma PrintShape(e: Element, r: string)
    ensures Print(e) + r
         == "<" + (e.tag + (PrintAttrs(e.attrs)
              + (">" + (Escape(e.head, false) + (PrintChildren(e.children) + (("</" + (e.tag + ">")) + r))))))
  {
    PushEnd("<", e.tag, PrintAttrs(e.attrs), ">", Escape(e.head, false), PrintChildren(e.children),
            "</" + (e.tag + ">"), r);
  }

  lemma PrintStart(e: Element)
    requires NameOk(e.tag)
    ensures |Print(e)| >= 2 && Print(e)[0] == '<' && Print(e)[1] != '/'
  {
    assert Print(e)[1] == e.tag[0];
  }

  lemma ChildrenStart(cs: seq<Child>, close: string)
    requires "</" <= close && forall ch :: ch in cs ==> WellNamed(ch.elem)
    ensures (PrintChildren(cs) + close) != "" && (PrintChildren(cs) + close)[0] == '<'
  {
    if cs != [] {
      PrintStart(cs[0].elem);
    }
  }

  /** One child, printed as `p`, and its tail, escaped as `t`, in front of text whose children are
      known. */
  lemma ParseOneChild(c: Child, p: string, t: string, more: string, cs: seq<Child>, close: string)
    requires |p| >= 2 && p[1] != '/' && Parse(p + (t + more)) == Some((c.elem, t + more))
    requires (forall i :: 0 <= i < |t| ==> t[i] != '<') && Unescape(t) == c.tail
    requires more != "" && more[0] == '<' && ParseChildren(more) == Some((cs, close))
    ensures ParseChildren(p + (t + more)) == Some(([c] + cs, close))
  {
    NotClosing(p + (t + more));
    UntilStop(t, "<", more);
    ChildrenUnfold(p + (t + more), c.elem, t + more, |t|, cs, close);
  }

  lemma NotClosing(s: string)
    requires |s| >= 2 && s[1] != '/'
    ensures !("</" <= s)
  {
  }

  lemma ChildrenUnfold(s: string, e: Element, rest: string, m: nat, cs: seq<Child>, close: string)
    requires !("</" <= s) && Parse(s) == Some((e, rest)) && m == Until(rest, "<")
    requires ParseChildren(rest[m..]) == Some((cs, close))
    ensures ParseChildren(s) == Some(([Child(e, Unescape(rest[..m]))] + cs, close))
  {
  }

  lemma ChildrenShape(cs: seq<Child>, close: string)
    requires cs != []
    ensures PrintChildren(cs) + close
         == Print(cs[0].elem) + (Escape(cs[0].tail, false) + (PrintChildren(cs[1..]) + close))
  {
  }

  lemma NoChildren(close: string)
    requires "</" <= close
    ensures ParseChildren(PrintChildren([]) + close) == Some(([], close))
  {
    assert PrintChildren([]) + close == close;
  }

  lemma ChildStep(cs: seq<Child>, close: string)
    requires cs != [] && NameOk(cs[0].elem.tag)
    requires var after := Escape(cs[0].tail, false) + (PrintChildren(cs[1..]) + close);
             Parse(Print(cs[0].elem) + after) == Some((cs[0].elem, after))
    requires var more := PrintChildren(cs[1..]) + close;
             more != "" && more[0] == '<' && ParseChildren(more) == Some((cs[1..], close))
    ensures ParseChildren(PrintChildren(cs) + close) == Some((cs, close))
  {
    ChildrenShape(cs, close);
    PrintStart(cs[0].elem);
    EscapeSafe(cs[0].tail, false);
    UnescapeEscape(cs[0].tail, false);
    ParseFirstChild(cs, PrintChildren(cs) + close, Print(cs[0].elem), Escape(cs[0].tail, false),
                    PrintChildren(cs[1..]) + close, close);
  }

  lemma ParseFirstChild(cs: seq<Child>, printed: string, p: string, t: string, more: string, close: string)
    requires cs != [] && printed == p + (t + more)
    requires |p| >= 2 && p[1] != '/' && Parse(p + (t + more)) == Some((cs[0].elem, t + more))
    requires (forall i :: 0 <= i < |t| ==> t[i] != '<') && Unescape(t) == cs[0].tail
    requires more != "" && more[0] == '<' && ParseChildren(more) == Some((cs[1..], close))
    ensures ParseChildren(printed) == Some((cs, close))
  {
    FirstAndRest(cs);
    ParseOneChild(cs[0], p, t, more, cs[1..], close);
  }

  lemma FirstAndRest<T>(s: seq<T>)
    requires s != []
    ensures [s[0]] + s[1..] == s
  {
  }

  lemma {:induction false} ParsePrintChildren(cs: seq<Child>, close: string)
    requires "</" <= close && forall i :: 0 <= i < |cs| ==> WellNamed(cs[i].elem)
    ensures ParseChildren(PrintChildren(cs) + close) == Some((cs, close))
    decreases cs
  {
    if cs == [] {
      NoChildren(close);
    } else {
      ParsePrint(cs[0].elem, Escape(cs[0].tail, false) + (PrintChildren(cs[1..]) + close));
      ParsePrintChildren(cs[1..], close);
      ChildrenStart(cs[1..], close);
      ChildStep(cs, close);
    }
  }

  /** Printing is injective on well-named elements, whatever text they carry. */
  lemma PrintInjective(d: Element, e: Element)
    requires WellNamed(d) && WellNamed(e) && Print(d) == Print(e)
    ensures d == e
  {
    ParsePrint(d, "");
    ParsePrint(e, "");
    assert Print(d) + "" == Print(d) && Print(e) + "" == Print(e);
  }
}
