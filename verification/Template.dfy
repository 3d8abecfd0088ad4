/** Framework-templated messages (openjiuwen/agent_teams/message_template.py): one left-to-right pass
    over the template replaces each `{{ns.field}}`; values are never read again, and a row shows only
    its whitelisted fields. */
module Template {
  import opened Text
  import opened Wrappers

  // ---------------------------------------------------------------- placeholders

  predicate IsNameChar(c: char)
  {
    'a' <= c <= 'z' || c == '_'
  }

  predicate Between(p: char -> bool, s: string, i: nat, j: nat)
  {
    i <= j <= |s| && forall k :: i <= k < j ==> p(s[k])
  }

  /** `s` starts with a placeholder: double braces, white space up to `a`, a name up to `b`, a dot, a name
      up to `c`, white space up to `d`, double braces. */
  predicate Shaped(space: char -> bool, name: char -> bool, s: string, a: nat, b: nat, c: nat, d: nat)
  {
    && 2 <= a < b && b + 1 < c <= d && d + 2 <= |s|
    && s[0] == '{' && s[1] == '{' && Between(space, s, 2, a)
    && Between(name, s, a, b) && s[b] == '.' && Between(name, s, b + 1, c)
    && Between(space, s, c, d) && s[d] == '}' && s[d + 1] == '}'
  }

  /** `text` as a whole is a placeholder for these two names. */
  ghost predicate IsPlaceholder(text: string, ns: string, field: string)
  {
    exists a: nat, b: nat, c: nat, d: nat ::
      Shaped(IsSpace, IsNameChar, text, a, b, c, d) && d + 2 == |text| && ns == text[a..b] && field == text[b + 1..c]
  }

  /** The characters of a name. */
  lemma NameCharacters(c: char)
    ensures IsNameChar(c) <==> c in "abcdefghijklmnopqrstuvwxyz_"
  {
  }

  ghost predicate IsName(s: string)
  {
    s != "" && Between(IsNameChar, s, 0, |s|)
  }

  /** A placeholder with white space `a` and `b` inside its braces. */
  ghost predicate Written(text: string, ns: string, field: string, a: string, b: string)
  {
    && text == "{{" + (a + (ns + ("." + (field + (b + "}}")))))
    && Blank(a) && Blank(b) && IsName(ns) && IsName(field)
  }

  lemma WrittenIsPlaceholder(text: string, ns: string, field: string, a: string, b: string)
    requires Written(text, ns, field, a, b)
    ensures IsPlaceholder(text, ns, field)
  {
    var i := 2 + |a|;
    var j := i + |ns|;
    var k := j + 1 + |field|;
    var l := k + |b|;
    assert text[2..i] == a && text[i..j] == ns && text[j + 1..k] == field && text[k..l] == b;
    SliceHas(IsSpace, text, 2, i);
    SliceHas(IsNameChar, text, i, j);
    SliceHas(IsNameChar, text, j + 1, k);
    SliceHas(IsSpace, text, k, l);
    assert Shaped(IsSpace, IsNameChar, text, i, j, k, l);
  }

  lemma SliceHas(p: char -> bool, s: string, i: nat, j: nat)
    requires i <= j <= |s|
    ensures Between(p, s[i..j], 0, j - i) <==> Between(p, s, i, j)
  {
    assert forall k :: i <= k < j ==> s[i..j][k - i] == s[k];
  }

  lemma ShapedIsWritten(text: string, i: nat, j: nat, k: nat, l: nat)
    requires Shaped(IsSpace, IsNameChar, text, i, j, k, l) && l + 2 == |text|
    ensures Written(text, text[i..j], text[j + 1..k], text[2..i], text[k..l])
  {
    SliceHas(IsSpace, text, 2, i);
    SliceHas(IsNameChar, text, i, j);
    SliceHas(IsNameChar, text, j + 1, k);
    SliceHas(IsSpace, text, k, l);
  }

  /** A placeholder is two names with a dot between them in double braces, with white space inside the braces
      or none. */
  lemma PlaceholderMeans(text: string, ns: string, field: string)
    ensures IsPlaceholder(text, ns, field) <==> exists a, b :: Written(text, ns, field, a, b)
  {
    if IsPlaceholder(text, ns, field) {
      var i: nat, j: nat, k: nat, l: nat :| Shaped(IsSpace, IsNameChar, text, i, j, k, l) && l + 2 == |text|
        && ns == text[i..j] && field == text[j + 1..k];
      ShapedIsWritten(text, i, j, k, l);
    }
    if a, b :| Written(text, ns, field, a, b) {
      WrittenIsPlaceholder(text, ns, field, a, b);
    }
  }

  // ---------------------------------------------------------------- matching

  /** The end of the longest stretch of characters satisfying `p` that starts at `i`. */
  function RunEnd(p: char -> bool, s: string, i: nat): (j: nat)
    requires i <= |s|
    ensures i <= j <= |s| && (forall k :: i <= k < j ==> p(s[k])) && (j < |s| ==> !p(s[j]))
    decreases |s| - i
  {
    if i < |s| && p(s[i]) then RunEnd(p, s, i + 1) else i
  }

  datatype Found = Found(ns: string, field: string, length: nat)

  /** What follows the opening braces and white space, read from position `a`. */
  function MatchNames(space: char -> bool, name: char -> bool, s: string, a: nat): (r: Option<Found>)
    requires a <= |s|
    ensures r.Some? ==> 0 < r.value.length <= |s|
  {
    var b := RunEnd(name, s, a);
    if b == a || b == |s| || s[b] != '.' then None
    else
      var c := RunEnd(name, s, b + 1);
      var d := RunEnd(space, s, c);
      if c == b + 1 || d + 2 > |s| || s[d] != '}' || s[d + 1] != '}' then None
      else Some(Found(s[a..b], s[b + 1..c], d + 2))
  }

  /** The placeholder at the start of `s`, if there is one, for any two classes of characters. */
  function MatchWith(space: char -> bool, name: char -> bool, s: string): (r: Option<Found>)
    ensures r.Some? ==> 0 < r.value.length <= |s|
  {
    if |s| < 2 || s[0] != '{' || s[1] != '{' then None else MatchNames(space, name, s, RunEnd(space, s, 2))
  }

  function Match(s: string): Option<Found>
  {
    MatchWith(IsSpace, IsNameChar, s)
  }

  lemma MatchWithSound(space: char -> bool, name: char -> bool, s: string) returns (a: nat, b: nat, c: nat, d: nat)
    requires MatchWith(space, name, s).Some?
    ensures Shaped(space, name, s, a, b, c, d) && MatchWith(space, name, s).value == Found(s[a..b], s[b + 1..c], d + 2)
  {
    a := RunEnd(space, s, 2);
    b := RunEnd(name, s, a);
    c := RunEnd(name, s, b + 1);
    d := RunEnd(space, s, c);
  }

  lemma RunEnds(p: char -> bool, s: string, i: nat, j: nat)
    requires Between(p, s, i, j) && j < |s| && !p(s[j])
    ensures RunEnd(p, s, i) == j
  {
  }

  lemma MatchNamesComplete(space: char -> bool, name: char -> bool, s: string, a: nat, b: nat, c: nat, d: nat)
    requires Shaped(space, name, s, a, b, c, d) && !name(s[b]) && !name(s[c]) && !space(s[d])
    ensures MatchNames(space, name, s, a) == Some(Found(s[a..b], s[b + 1..c], d + 2))
  {
    RunEnds(name, s, a, b);
    RunEnds(name, s, b + 1, c);
    RunEnds(space, s, c, d);
  }

  lemma MatchWithComplete(space: char -> bool, name: char -> bool, s: string, a: nat, b: nat, c: nat, d: nat)
    requires Shaped(space, name, s, a, b, c, d)
    requires !space(s[a]) && !name(s[b]) && !name(s[c]) && !space(s[d])
    ensures MatchWith(space, name, s) == Some(Found(s[a..b], s[b + 1..c], d + 2))
  {
    RunEnds(space, s, 2, a);
    MatchNamesComplete(space, name, s, a, b, c, d);
  }

  /** Being a placeholder up to `d + 2` does not depend on what follows. */
  lemma ShapedPrefix(space: char -> bool, name: char -> bool, s: string, n: nat, a: nat, b: nat, c: nat, d: nat)
    requires d + 2 <= n <= |s|
    ensures Shaped(space, name, s, a, b, c, d) <==> Shaped(space, name, s[..n], a, b, c, d)
  {
    var t := s[..n];
    assert forall k :: 0 <= k < n ==> t[k] == s[k];
  }

  lemma Classes(c: char)
    ensures IsNameChar(c) ==> !IsSpace(c)
    ensures IsSpace(c) || c == '.' || c == '}' ==> !IsNameChar(c)
    ensures c == '}' ==> !IsSpace(c)
  {
  }

  lemma ShapeClasses(s: string, a: nat, b: nat, c: nat, d: nat)
    requires Shaped(IsSpace, IsNameChar, s, a, b, c, d)
    ensures !IsSpace(s[a]) && !IsNameChar(s[b]) && !IsNameChar(s[c]) && !IsSpace(s[d])
  {
    Classes(s[a]);
    Classes(s[b]);
    Classes(s[c]);
    Classes(s[d]);
  }

  lemma SliceOfPrefix(s: string, n: nat, i: nat, j: nat)
    requires i <= j <= n <= |s|
    ensures s[..n][i..j] == s[i..j]
  {
  }

  lemma MatchSound(s: string)
    requires Match(s).Some?
    ensures var m := Match(s).value; m.length <= |s| && IsPlaceholder(s[..m.length], m.ns, m.field)
  {
    var a, b, c, d := MatchWithSound(IsSpace, IsNameChar, s);
    ShapedPrefix(IsSpace, IsNameChar, s, d + 2, a, b, c, d);
    SliceOfPrefix(s, d + 2, a, b);
    SliceOfPrefix(s, d + 2, b + 1, c);
    var text := s[..d + 2];
    assert |text| == d + 2;
  }

  lemma PrefixMatches(space: char -> bool, name: char -> bool, s: string, n: nat, a: nat, b: nat, c: nat, d: nat)
    requires n <= |s| && Shaped(space, name, s[..n], a, b, c, d) && d + 2 == n
    requires !space(s[a]) && !name(s[b]) && !name(s[c]) && !space(s[d])
    ensures MatchWith(space, name, s) == Some(Found(s[..n][a..b], s[..n][b + 1..c], n))
  {
    ShapedPrefix(space, name, s, n, a, b, c, d);
    SliceOfPrefix(s, n, a, b);
    SliceOfPrefix(s, n, b + 1, c);
    MatchWithComplete(space, name, s, a, b, c, d);
  }

  lemma PrefixShapes(s: string, text: string, a: nat, b: nat, c: nat, d: nat)
    requires text <= s && Shaped(IsSpace, IsNameChar, text, a, b, c, d) && d + 2 == |text|
    ensures Match(s) == Some(Found(text[a..b], text[b + 1..c], |text|))
  {
    assert s[..|text|] == text;
    ShapeClasses(text, a, b, c, d);
    assert text[a] == s[a] && text[b] == s[b] && text[c] == s[c] && text[d] == s[d];
    PrefixMatches(IsSpace, IsNameChar, s, |text|, a, b, c, d);
  }

  /** A placeholder at the start of `s` is found, whatever follows it. */
  lemma MatchComplete(s: string, text: string, ns: string, field: string)
    requires text <= s && IsPlaceholder(text, ns, field)
    ensures Match(s) == Some(Found(ns, field, |text|))
  {
    var a: nat, b: nat, c: nat, d: nat :|
      Shaped(IsSpace, IsNameChar, text, a, b, c, d) && d + 2 == |text| && ns == text[a..b] && field == text[b + 1..c];
    PrefixShapes(s, text, a, b, c, d);
  }

  // ---------------------------------------------------------------- one pass over the template

  datatype Token = Literal(c: char) | Slot(text: string, ns: string, field: string)

  function TextOf(t: Token): string
  {
    match t
    case Literal(c) => [c]
    case Slot(text, _, _) => text
  }

  function Concat(ts: seq<Token>): string
  {
    if ts == [] then "" else TextOf(ts[0]) + Concat(ts[1..])
  }

  /** Left to right, taking every placeholder met and skipping what it covers: `re.sub`. */
  function Tokenize(t: string): seq<Token>
    decreases |t|
  {
    if t == "" then []
    else
      match Match(t)
      case Some(m) => [Slot(t[..m.length], m.ns, m.field)] + Tokenize(t[m.length..])
      case None => [Literal(t[0])] + Tokenize(t[1..])
  }

  ghost predicate NoneStarts(s: string)
  {
    forall text, ns, field :: IsPlaceholder(text, ns, field) ==> !(text <= s)
  }

  /** One token read off the front of `s`: a placeholder, or a character at which none starts. */
  ghost predicate Reads(tok: Token, s: string)
  {
    match tok
    case Literal(c) => s != "" && s[0] == c && NoneStarts(s)
    case Slot(text, ns, field) => text <= s && IsPlaceholder(text, ns, field)
  }

  /** The tokens spell out the template, and each is what stands at its place in it. */
  ghost predicate IsReading(t: string, ts: seq<Token>)
  {
    Concat(ts) == t && forall k :: 0 <= k < |ts| ==> Reads(ts[k], Concat(ts[k..]))
  }

  lemma NoneStartsIffNoMatch(s: string)
    ensures NoneStarts(s) <==> Match(s).None?
  {
    if Match(s).Some? {
      MatchSound(s);
      assert s[..Match(s).value.length] <= s;
    }
    forall text, ns, field | IsPlaceholder(text, ns, field) && text <= s ensures Match(s).Some? {
      MatchComplete(s, text, ns, field);
    }
  }

  lemma ReadsTail(t: string, ts: seq<Token>)
    requires IsReading(t, ts) && ts != []
    ensures t[..|TextOf(ts[0])|] == TextOf(ts[0]) && IsReading(t[|TextOf(ts[0])|..], ts[1..])
  {
    assert t == TextOf(ts[0]) + Concat(ts[1..]);
    forall k | 0 <= k < |ts| - 1 ensures Reads(ts[1..][k], Concat(ts[1..][k..])) {
      assert ts[1..][k..] == ts[k + 1..] && Reads(ts[k + 1], Concat(ts[k + 1..]));
    }
  }

  lemma ReadsCons(t: string, tok: Token, tail: string, ts: seq<Token>)
    requires IsReading(tail, ts) && t == TextOf(tok) + tail && Reads(tok, t)
    ensures IsReading(t, [tok] + ts)
  {
    var all := [tok] + ts;
    assert all[1..] == ts;
    forall k | 0 <= k < |all| ensures Reads(all[k], Concat(all[k..])) {
      if k == 0 {
        assert all[0..] == all;
      } else {
        assert all[k..] == ts[k - 1..] && Reads(ts[k - 1], Concat(ts[k - 1..]));
      }
    }
  }

  lemma CutAt(t: string, n: nat)
    requires n <= |t|
    ensures t == t[..n] + t[n..] && t[..n] <= t
  {
  }

  /** The pass reads the template: it loses no character, takes no placeholder that is not there and
      leaves none behind. */
  lemma {:induction false} TokenizeReads(t: string)
    ensures IsReading(t, Tokenize(t))
    decreases |t|
  {
    if t != "" {
      NoneStartsIffNoMatch(t);
      match Match(t)
      case Some(m) =>
        TokenizeReads(t[m.length..]);
        MatchSound(t);
        CutAt(t, m.length);
        ReadsCons(t, Slot(t[..m.length], m.ns, m.field), t[m.length..], Tokenize(t[m.length..]));
      case None =>
        TokenizeReads(t[1..]);
        CutAt(t, 1);
        assert t[..1] == [t[0]];
        ReadsCons(t, Literal(t[0]), t[1..], Tokenize(t[1..]));
    }
  }

  /** There is only one way to read a template, so token boundaries depend on nothing but the template. */
  lemma {:induction false} ReadingUnique(t: string, ts: seq<Token>)
    requires IsReading(t, ts)
    ensures ts == Tokenize(t)
    decreases |ts|
  {
    if ts != [] {
      var tok := ts[0];
      assert ts[0..] == ts && Reads(tok, t);
      NoneStartsIffNoMatch(t);
      if tok.Slot? {
        MatchComplete(t, tok.text, tok.ns, tok.field);
      }
      ReadsTail(t, ts);
      ReadingUnique(t[|TextOf(tok)|..], ts[1..]);
      assert ts == [tok] + ts[1..];
    }
  }

  // ---------------------------------------------------------------- substitution

  type Values = map<string, map<string, string>>

  function ValueOf(values: Values, ns: string, field: string): string
  {
    if ns in values && field in values[ns] then values[ns][field] else "<missing:" + ns + "." + field + ">"
  }

  function Render(ts: seq<Token>, values: Values): string
  {
    if ts == [] then ""
    else
      (match ts[0]
       case Literal(c) => [c]
       case Slot(_, ns, field) => ValueOf(values, ns, field)) + Render(ts[1..], values)
  }

  /** `_substitute`. */
  function Substitute(template: string, values: Values): string
  {
    Render(Tokenize(template), values)
  }

  /** The output is the literal text with a value for each placeholder, however the template is read. */
  lemma SubstituteReads(t: string, ts: seq<Token>, values: Values)
    ensures IsReading(t, ts) <==> ts == Tokenize(t)
    ensures IsReading(t, ts) ==> Substitute(t, values) == Render(ts, values)
  {
    TokenizeReads(t);
    if IsReading(t, ts) {
      ReadingUnique(t, ts);
    }
  }

  lemma SlotFirst(text: string, ns: string, field: string, b: string, values: Values)
    requires IsPlaceholder(text, ns, field)
    ensures Substitute(text + b, values) == ValueOf(values, ns, field) + Substitute(b, values)
  {
    var t := text + b;
    MatchComplete(t, text, ns, field);
    assert t[|text|..] == b && t != "";
    var ts := Tokenize(t);
    assert ts[1..] == Tokenize(b) && ts[0] == Slot(t[..|text|], ns, field);
  }

  lemma LiteralFirst(t: string, values: Values)
    requires t != "" && NoneStarts(t)
    ensures Substitute(t, values) == [t[0]] + Substitute(t[1..], values)
  {
    NoneStartsIffNoMatch(t);
    var ts := Tokenize(t);
    assert ts[1..] == Tokenize(t[1..]) && ts[0] == Literal(t[0]);
  }

  /** No placeholder starts inside `a` when `rest` follows it. */
  ghost predicate IsPlain(a: string, rest: string)
  {
    forall i :: 0 <= i < |a| ==> NoneStarts(a[i..] + rest)
  }

  lemma PlainTail(a: string, rest: string)
    requires IsPlain(a, rest) && a != ""
    ensures NoneStarts(a + rest) && IsPlain(a[1..], rest)
  {
    assert a[0..] == a && NoneStarts(a[0..] + rest);
    forall i | 0 <= i < |a| - 1 ensures NoneStarts(a[1..][i..] + rest) {
      assert a[1..][i..] == a[i + 1..];
    }
  }

  lemma HeadAndTail(a: string, rest: string)
    requires a != ""
    ensures (a + rest)[0] == a[0] && (a + rest)[1..] == a[1..] + rest && [a[0]] + (a[1..] + rest) == a + rest
  {
  }

  lemma {:induction false} PlainFirst(a: string, rest: string, values: Values)
    requires IsPlain(a, rest)
    ensures Substitute(a + rest, values) == a + Substitute(rest, values)
  {
    if a == "" {
      assert a + rest == rest;
    } else {
      PlainTail(a, rest);
      LiteralFirst(a + rest, values);
      HeadAndTail(a, rest);
      PlainFirst(a[1..], rest, values);
      HeadAndTail(a, Substitute(rest, values));
    }
  }

  /** A value lands in the document as it is, braces and all: the text around it is substituted as if it
      stood alone. */
  lemma ValuesVerbatim(a: string, text: string, ns: string, field: string, b: string, values: Values)
    requires IsPlaceholder(text, ns, field) && IsPlain(a, text + b)
    ensures Substitute(a + (text + b), values) == a + (ValueOf(values, ns, field) + Substitute(b, values))
  {
    PlainFirst(a, text + b, values);
    SlotFirst(text, ns, field, b, values);
  }

  /** The document depends only on the values its placeholders ask for. */
  lemma {:induction false} RenderDepends(ts: seq<Token>, v: Values, w: Values)
    requires forall k :: 0 <= k < |ts| && ts[k].Slot? ==>
               ValueOf(v, ts[k].ns, ts[k].field) == ValueOf(w, ts[k].ns, ts[k].field)
    ensures Render(ts, v) == Render(ts, w)
  {
    if ts != [] {
      RenderDepends(ts[1..], v, w);
    }
  }
}
