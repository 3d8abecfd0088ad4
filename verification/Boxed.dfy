/** Extraction of `\boxed{...}` contents (examples/MANGO/utilities.py, `extract_boxed`). */
module Boxed {
  import opened Ordering

  const OPENER := "\\boxed{"

  // ---------------------------------------------------------------- the extractor

  /** How far the content reaches from the start of `s`, `depth` braces being open: up to the brace
      that closes the last of them, or to the end when none does. */
  function ContentLength(s: string, depth: nat): (n: nat)
    requires depth > 0
    ensures n <= |s|
  {
    if s == "" then 0
    else if s[0] == '{' then 1 + ContentLength(s[1..], depth + 1)
    else if s[0] != '}' then 1 + ContentLength(s[1..], depth)
    else if depth == 1 then 0
    else 1 + ContentLength(s[1..], depth - 1)
  }

  function Extract(s: string): seq<string>
    decreases |s|
  {
    if s == "" then []
    else if !(OPENER <= s) then Extract(s[1..])
    else
      var body := s[|OPENER|..];
      var n := ContentLength(body, 1);
      if n == |body| then [] else [body[..n]] + Extract(body[n + 1..])
  }

  lemma ContentStep(s: string, i: nat, depth: nat)
    requires i < |s| && depth > 0
    ensures ContentLength(s[i..], depth) ==
      if s[i] == '{' then 1 + ContentLength(s[i + 1..], depth + 1)
      else if s[i] != '}' then 1 + ContentLength(s[i + 1..], depth)
      else if depth == 1 then 0 else 1 + ContentLength(s[i + 1..], depth - 1)
  {
    assert s[i..][0] == s[i] && s[i..][1..] == s[i + 1..];
  }

  /** The inner loop: from just behind an opener at `start` to the closing brace or the end. */
  method ReadContent(s: string, start: nat) returns (i: nat, closed: bool, buf: string)
    requires start <= |s|
    ensures i == start + ContentLength(s[start..], 1) && closed == (i < |s|)
    ensures closed ==> buf == s[start..i]
  {
    i := start;
    var depth := 1;
    buf := "";
    closed := false;
    while i < |s|
      invariant start <= i <= |s| && depth > 0
      invariant i + ContentLength(s[i..], depth) == start + ContentLength(s[start..], 1)
      invariant buf == s[start..i]
    {
      var ch := s[i];
      ContentStep(s, i, depth);
      if ch == '{' {
        depth := depth + 1;
      } else if ch == '}' {
        if depth == 1 {
          closed := true;
          return;
        }
        depth := depth - 1;
      }
      buf := buf + [ch];
      i := i + 1;
    }
  }

  /** What is still to be extracted from position `i` on; the outer loop may step past the end. */
  function Remaining(s: string, i: nat): seq<string>
  {
    if i <= |s| then Extract(s[i..]) else []
  }

  lemma RemainingSkip(s: string, i: nat)
    requires i < |s| && !(OPENER <= s[i..])
    ensures Remaining(s, i) == Remaining(s, i + 1)
  {
    assert s[i..][1..] == s[i + 1..];
  }

  lemma RemainingBox(s: string, i: nat, l: nat, n: nat)
    requires i + l + n <= |s| && OPENER <= s[i..] && l == |OPENER| && n == ContentLength(s[i + l..], 1)
    ensures Remaining(s, i) == (if i + l + n < |s| then [s[i + l..i + l + n]] else []) + Remaining(s, i + l + n + 1)
  {
    SuffixOfSuffix(s, i, l);
    ExtractBox(s[i..], l, s[i + l..], n);
    RemainingBehind(s, i, l, n);
  }

  lemma SuffixOfSuffix(s: string, i: nat, l: nat)
    requires i + l <= |s|
    ensures s[i..][l..] == s[i + l..]
  {
  }

  lemma ExtractBox(t: string, l: nat, body: string, n: nat)
    requires OPENER <= t && l == |OPENER| && body == t[l..] && n == ContentLength(body, 1)
    ensures Extract(t) == if n < |body| then [body[..n]] + Extract(body[n + 1..]) else []
  {
  }

  /** From what is extracted of a suffix to what remains of the string. */
  lemma RemainingBehind(s: string, i: nat, l: nat, n: nat)
    requires i + l + n <= |s|
    requires Extract(s[i..]) == if n < |s[i + l..]| then [s[i + l..][..n]] + Extract(s[i + l..][n + 1..]) else []
    ensures Remaining(s, i) == (if i + l + n < |s| then [s[i + l..i + l + n]] else []) + Remaining(s, i + l + n + 1)
  {
    Behind(s, i, l, n);
  }

  lemma Behind(s: string, i: nat, l: nat, n: nat)
    requires i + l + n <= |s|
    ensures s[i..][l..] == s[i + l..] && s[i + l..][..n] == s[i + l..i + l + n]
    ensures i + l + n < |s| ==> s[i + l..][n + 1..] == s[i + l + n + 1..]
  {
  }

  lemma BoxRemains(s: string, i: nat, start: nat, close: nat)
    requires i <= start <= |s| && OPENER <= s[i..] && start == i + |OPENER|
    requires close == start + ContentLength(s[start..], 1)
    ensures Remaining(s, i) == (if close < |s| then [s[start..close]] else []) + Remaining(s, close + 1)
  {
    RemainingBox(s, i, |OPENER|, close - start);
  }

  /** One turn of the outer loop at position `i`. */
  method Scan(s: string, i: nat) returns (next: nat, found: seq<string>)
    requires i < |s|
    ensures i < next && Remaining(s, i) == found + Remaining(s, next)
  {
    if OPENER <= s[i..] {
      next, found := ScanBox(s, i + |OPENER|);
      BoxRemains(s, i, i + |OPENER|, next - 1);
    } else {
      RemainingSkip(s, i);
      next, found := i + 1, [];
    }
  }

  /** ... when a box opens there, its content starting at position `start`. */
  method ScanBox(s: string, start: nat) returns (next: nat, found: seq<string>)
    requires start <= |s|
    ensures var close := start + ContentLength(s[start..], 1);
      next == close + 1 && found == if close < |s| then [s[start..close]] else []
  {
    var close, closed, buf := ReadContent(s, start);
    return close + 1, if closed then [buf] else [];
  }

  // ---------------------------------------------------------------- balanced braces

  /** Opening braces less closing ones. */
  function Net(s: string): int
  {
    if s == "" then 0
    else (if s[0] == '{' then 1 else if s[0] == '}' then -1 else 0) + Net(s[1..])
  }

  /** No prefix closes more than it opens, and the whole closes what it opens. */
  ghost predicate Balanced(s: string)
  {
    Net(s) == 0 && forall k :: 0 <= k <= |s| ==> Net(s[..k]) >= 0
  }

  lemma NetStep(s: string, k: nat)
    requires 0 < k <= |s|
    ensures Net(s[..k]) == Net([s[0]]) + Net(s[1..][..k - 1])
  {
    assert s[..k][1..] == s[1..][..k - 1];
  }

  /** The content is the longest prefix that never closes below its start; what stops it is the
      brace that would. */
  lemma {:induction false} ContentLengthSpec(s: string, depth: nat, k: nat)
    requires depth > 0 && k <= |s|
    ensures k <= ContentLength(s, depth) ==> depth + Net(s[..k]) >= 1
    ensures k == ContentLength(s, depth) < |s| ==> s[k] == '}' && depth + Net(s[..k]) == 1
  {
    if k > 0 {
      NetStep(s, k);
      var d := depth + Net([s[0]]);
      if d > 0 {
        ContentLengthSpec(s[1..], d, k - 1);
      }
    }
  }

  lemma {:induction false} ContentLengthUnique(s: string, depth: nat, n: nat)
    requires depth > 0 && n < |s| && s[n] == '}' && depth + Net(s[..n]) == 1
    requires forall k :: 0 <= k <= n ==> depth + Net(s[..k]) >= 1
    ensures ContentLength(s, depth) == n
  {
    if n > 0 {
      NetStep(s, 1);
      assert s[1..][..0] == "";
      assert depth + Net(s[..1]) >= 1;
      var d := depth + Net([s[0]]);
      forall k | 0 <= k <= n - 1 ensures d + Net(s[1..][..k]) >= 1 {
        NetStep(s, k + 1);
        assert depth + Net(s[..k + 1]) >= 1;
      }
      NetStep(s, n);
      ContentLengthUnique(s[1..], d, n - 1);
    } else {
      assert s[..0] == "";
    }
  }

  // ---------------------------------------------------------------- properties

  lemma ContentIsBalanced(body: string)
    requires ContentLength(body, 1) < |body|
    ensures Balanced(body[..ContentLength(body, 1)])
  {
    var n := ContentLength(body, 1);
    ContentLengthSpec(body, 1, n);
    forall k | 0 <= k <= n ensures Net(body[..n][..k]) >= 0 {
      ContentLengthSpec(body, 1, k);
      assert body[..n][..k] == body[..k];
    }
  }

  /** Everything extracted has balanced braces. */
  lemma {:induction false} ExtractedIsBalanced(s: string, c: string)
    requires c in Extract(s)
    ensures Balanced(c)
    decreases |s|
  {
    if !(OPENER <= s) {
      ExtractedIsBalanced(s[1..], c);
    } else {
      var body := s[|OPENER|..];
      var n := ContentLength(body, 1);
      if c in Extract(body[n + 1..]) {
        ExtractedIsBalanced(body[n + 1..], c);
      } else {
        ContentIsBalanced(body);
      }
    }
  }

  /** A text without an opener in it. */
  ghost predicate NoOpener(p: string)
  {
    forall i :: 0 <= i <= |p| ==> !("\\boxed{" <= p[i..])
  }

  /** No opener straddles the border between such a text and an opener. */
  lemma NoStraddle(p: string, r: string)
    requires p != "" && !(OPENER <= p)
    ensures !(OPENER <= p + (OPENER + r))
  {
    var s := p + (OPENER + r);
    if |p| < |OPENER| {
      assert s[|p|] == '\\';
      assert OPENER[|p|] != '\\';
    } else {
      assert s[..|OPENER|] == p[..|OPENER|];
    }
  }

  lemma {:induction false} SkipPrefix(p: string, r: string)
    requires NoOpener(p)
    ensures Extract(p + (OPENER + r)) == Extract(OPENER + r)
  {
    if p == "" {
      assert p + (OPENER + r) == OPENER + r;
    } else {
      assert p[0..] == p;
      NoStraddle(p, r);
      assert (p + (OPENER + r))[1..] == p[1..] + (OPENER + r);
      forall i | 0 <= i <= |p[1..]| ensures !(OPENER <= p[1..][i..]) {
        assert p[1..][i..] == p[i + 1..];
      }
      SkipPrefix(p[1..], r);
    }
  }

  /** Extraction inverts boxing: the first boxed balanced text behind opener-free text is returned
      exactly, nested boxes included, and extraction goes on behind its closing brace. */
  lemma ExtractInvertsBoxing(p: string, c: string, rest: string)
    requires NoOpener(p) && Balanced(c)
    ensures Extract(p + (OPENER + (c + ("}" + rest)))) == [c] + Extract(rest)
  {
    var body := c + ("}" + rest);
    SkipPrefix(p, body);
    BalancedEnds(c, rest);
    OpenerCut(body);
    ExtractBox(OPENER + body, |OPENER|, body, |c|);
  }

  lemma OpenerCut(body: string)
    ensures OPENER <= OPENER + body && (OPENER + body)[|OPENER|..] == body
  {
  }

  /** Balanced content ends exactly at the brace behind it. */
  lemma BalancedEnds(c: string, rest: string)
    requires Balanced(c)
    ensures var body := c + ("}" + rest);
      ContentLength(body, 1) == |c| && body[..|c|] == c && body[|c| + 1..] == rest
  {
    var body := c + ("}" + rest);
    forall k | 0 <= k <= |c| ensures 1 + Net(body[..k]) >= 1 {
      assert body[..k] == c[..k];
    }
    assert body[..|c|] == c;
    ContentLengthUnique(body, 1, |c|);
  }

  lemma {:induction false} NeverCloses(s: string, depth: nat)
    requires depth > 0 && forall k :: 0 <= k <= |s| ==> depth + Net(s[..k]) >= 1
    ensures ContentLength(s, depth) == |s|
  {
    var n := ContentLength(s, depth);
    if n < |s| {
      assert s[..n + 1] == s[..n] + [s[n]];
      NetAppend(s[..n], s[n]);
      ContentLengthSpec(s, depth, n);
      assert false;
    }
  }

  lemma {:induction false} NetAppend(s: string, c: char)
    ensures Net(s + [c]) == Net(s) + Net([c])
  {
    if s == "" {
      assert s + [c] == [c];
    } else {
      NetAppend(s[1..], c);
      assert (s + [c])[1..] == s[1..] + [c];
    }
  }

  /** A box that is never closed yields nothing, and hides whatever follows it. */
  lemma UnclosedYieldsNothing(p: string, c: string)
    requires NoOpener(p) && forall k :: 0 <= k <= |c| ==> Net(c[..k]) >= 0
    ensures Extract(p + (OPENER + c)) == []
  {
    SkipPrefix(p, c);
    assert (OPENER + c)[|OPENER|..] == c && OPENER <= OPENER + c;
    NeverCloses(c, 1);
  }

  lemma {:induction false} NoBoxYieldsNothing(p: string)
    requires NoOpener(p)
    ensures Extract(p) == []
  {
    if p != "" {
      assert p[0..] == p;
      forall i | 0 <= i <= |p[1..]| ensures !("\\boxed{" <= p[1..][i..]) {
        assert p[1..][i..] == p[i + 1..];
      }
      NoBoxYieldsNothing(p[1..]);
    }
  }

  // ---------------------------------------------------------------- every text, read as boxes

  /** Texts and boxed contents in turn, and what follows the last box. */
  function Boxing(texts: seq<string>, contents: seq<string>, rest: string): string
  {
    if texts == [] || contents == [] then rest
    else texts[0] + ("\\boxed{" + (contents[0] + ("}" + Boxing(texts[1..], contents[1..], rest))))
  }

  /** No box opens in the text, or the only one that does is never closed. */
  ghost predicate BoxLess(rest: string)
  {
    NoOpener(rest) || exists p, c :: Unclosed(rest, p, c)
  }

  ghost predicate Unclosed(rest: string, p: string, c: string)
  {
    rest == p + ("\\boxed{" + c) && NoOpener(p) && forall k :: 0 <= k <= |c| ==> Net(c[..k]) >= 0
  }

  ghost predicate IsBoxing(s: string, texts: seq<string>, contents: seq<string>, rest: string)
  {
    && |texts| == |contents| && s == Boxing(texts, contents, rest) && BoxLess(rest)
    && forall i :: 0 <= i < |texts| ==> NoOpener(texts[i]) && Balanced(contents[i])
  }

  /** Whatever is read as boxes of balanced contents between texts without a box is extracted to exactly
      the list of the contents. */
  lemma {:induction false} ExtractsTheContents(s: string, texts: seq<string>, contents: seq<string>, rest: string)
    requires IsBoxing(s, texts, contents, rest)
    ensures Extract(s) == contents
    decreases |texts|
  {
    if texts == [] {
      if p, c :| Unclosed(rest, p, c) {
        UnclosedYieldsNothing(p, c);
      } else {
        NoBoxYieldsNothing(rest);
      }
    } else {
      var more := Boxing(texts[1..], contents[1..], rest);
      assert IsBoxing(more, texts[1..], contents[1..], rest);
      ExtractsTheContents(more, texts[1..], contents[1..], rest);
      ExtractInvertsBoxing(texts[0], contents[0], more);
      assert contents == [contents[0]] + contents[1..];
    }
  }

  lemma NoOpenerCons(c: char, p: string, s: string)
    requires NoOpener(p) && [c] + p <= s && !(OPENER <= s)
    ensures NoOpener([c] + p)
  {
    var q := [c] + p;
    forall i | 0 <= i <= |q| ensures !("\\boxed{" <= q[i..]) {
      if i > 0 {
        assert q[i..] == p[i - 1..];
      } else {
        assert OPENER <= q ==> OPENER <= s;
      }
    }
  }

  lemma BoxLessCons(c: char, rest: string)
    requires BoxLess(rest) && !(OPENER <= [c] + rest)
    ensures BoxLess([c] + rest)
  {
    if NoOpener(rest) {
      NoOpenerCons(c, rest, [c] + rest);
    } else {
      var p, d :| Unclosed(rest, p, d);
      NoOpenerCons(c, p, [c] + rest);
      Regroup([c], p, OPENER + d);
      assert Unclosed([c] + rest, [c] + p, d);
    }
  }

  lemma TextCons(c: char, s: string, texts: seq<string>, contents: seq<string>, rest: string)
    requires IsBoxing(s, texts, contents, rest) && texts != [] && !(OPENER <= [c] + s)
    ensures IsBoxing([c] + s, [[c] + texts[0]] + texts[1..], contents, rest)
  {
    var more := [[c] + texts[0]] + texts[1..];
    NoOpenerCons(c, texts[0], [c] + s);
    assert more[1..] == texts[1..];
    Regroup([c], texts[0], "\\boxed{" + (contents[0] + ("}" + Boxing(texts[1..], contents[1..], rest))));
    forall i | 0 <= i < |more| ensures NoOpener(more[i]) && Balanced(contents[i]) {
      assert i > 0 ==> more[i] == texts[i];
    }
  }

  lemma BoxCons(c: string, s: string, texts: seq<string>, contents: seq<string>, rest: string)
    requires IsBoxing(s, texts, contents, rest) && Balanced(c)
    ensures IsBoxing(OPENER + (c + ("}" + s)), [""] + texts, [c] + contents, rest)
  {
    assert OPENER + (c + ("}" + s)) == "" + ("\\boxed{" + (c + ("}" + s)));
    assert ([""] + texts)[1..] == texts && ([c] + contents)[1..] == contents;
  }

  lemma NeverClosed(body: string)
    requires ContentLength(body, 1) == |body|
    ensures forall k :: 0 <= k <= |body| ==> Net(body[..k]) >= 0
  {
    forall k | 0 <= k <= |body| ensures Net(body[..k]) >= 0 {
      ContentLengthSpec(body, 1, k);
    }
  }

  lemma OpenBox(s: string, body: string)
    requires s == OPENER + body && ContentLength(body, 1) == |body|
    ensures BoxLess(s)
  {
    NeverClosed(body);
    assert s == "" + (OPENER + body);
    assert Unclosed(s, "", body);
  }

  lemma ContentSplits(body: string, n: nat)
    requires n == ContentLength(body, 1) < |body|
    ensures Balanced(body[..n]) && body == body[..n] + ("}" + body[n + 1..])
  {
    ContentIsBalanced(body);
    ContentLengthSpec(body, 1, n);
    SplitAtBrace(body, n);
  }

  lemma SplitAtBrace(body: string, n: nat)
    requires n < |body| && body[n] == '}'
    ensures body == body[..n] + ("}" + body[n + 1..])
  {
  }

  /** Every text can be read this way, so the contents are what is extracted, from any input. */
  lemma {:induction false} ReadsAsBoxes(s: string) returns (texts: seq<string>, contents: seq<string>, rest: string)
    ensures IsBoxing(s, texts, contents, rest) && Extract(s) == contents
    decreases |s|
  {
    if s == "" {
      texts, contents, rest := [], [], "";
    } else if !(OPENER <= s) {
      texts, contents, rest := ReadsAsBoxes(s[1..]);
      assert s == [s[0]] + s[1..];
      if texts == [] {
        BoxLessCons(s[0], rest);
        rest := [s[0]] + rest;
      } else {
        TextCons(s[0], s[1..], texts, contents, rest);
        texts := [[s[0]] + texts[0]] + texts[1..];
      }
    } else {
      var body := s[|OPENER|..];
      var n := ContentLength(body, 1);
      assert s == OPENER + body;
      if n == |body| {
        OpenBox(s, body);
        texts, contents, rest := [], [], s;
      } else {
        texts, contents, rest := ReadsAsBoxes(body[n + 1..]);
        ContentSplits(body, n);
        BoxCons(body[..n], body[n + 1..], texts, contents, rest);
        texts, contents := [""] + texts, [body[..n]] + contents;
      }
    }
    ExtractsTheContents(s, texts, contents, rest);
  }

  /** `extract_boxed`. */
  method ExtractBoxed(s: string) returns (results: seq<string>)
    ensures results == Extract(s)
    ensures exists texts, rest :: IsBoxing(s, texts, results, rest)
  {
    results := [];
    var i := 0;
    assert s[0..] == s;
    while i < |s|
      invariant results + Remaining(s, i) == Remaining(s, 0)
      decreases |s| - i
    {
      var next, found := Scan(s, i);
      Regroup(results, found, Remaining(s, next));
      i, results := next, results + found;
    }
    assert i == |s| ==> s[i..] == "";
    assert Remaining(s, i) == [];
    ghost var texts, contents, rest := ReadsAsBoxes(s);
  }
}
