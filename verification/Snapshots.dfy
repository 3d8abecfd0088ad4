/** Coalescing of queued inputs: `snapshot_kind_of` and `drop_superseded_snapshots` of
    openjiuwen/agent_teams/inbound_render.py. */
module Snapshots {
  import opened Markup
  import opened InboundRender
  import opened Ordering
  import Text
  import opened Wrappers

  const TASK_BOARD := "task-board"

  /** The opening tag of a snapshot event, up to and including its kind. */
  function OpenTag(kind: string): string
  {
    "<team-event kind=\"" + kind + "\""
  }

  function SnapshotKindOf(text: string): Option<string>
  {
    var stripped := Text.Strip(text);
    if !Text.EndsWith(stripped, "</team-event>") then None
    else if Text.StartsWith(stripped, OpenTag(TASK_BOARD)) then Some(TASK_BOARD)
    else None
  }

  ghost predicate IsSnapshot(text: string, a: string, body: string, b: string)
  {
    text == a + (("<team-event kind=\"task-board\"" + (body + "</team-event>")) + b) && Text.Blank(a) && Text.Blank(b)
  }

  lemma PrefixHas(s: string, open: string, k: nat)
    requires open <= s && k < |s|
    ensures k < |open| ==> s[k] == open[k]
  {
  }

  lemma TagsApart(s: string, open: string, close: string)
    requires open <= s && Text.EndsWith(s, close) && |close| >= 2 && close[1] !in open
    requires open != "" && close[0] != open[|open| - 1]
    ensures |open| + |close| <= |s|
  {
    var k := |s| - |close|;
    PrefixHas(s, open, k);
    PrefixHas(s, open, k + 1);
    assert s[k..][0] == close[0] && s[k..][1] == close[1];
  }

  /** What stands between two texts that cannot overlap. */
  lemma BetweenTags(s: string, open: string, close: string) returns (body: string)
    requires open <= s && Text.EndsWith(s, close) && |close| >= 2 && close[1] !in open
    requires open != "" && close[0] != open[|open| - 1]
    ensures s == open + (body + close)
  {
    TagsApart(s, open, close);
    body := s[|open|..|s| - |close|];
  }

  lemma SnapshotTags(s: string)
    requires OpenTag(TASK_BOARD) <= s && Text.EndsWith(s, "</team-event>")
    ensures exists body :: s == "<team-event kind=\"task-board\"" + (body + "</team-event>")
  {
    OpenTagText();
    var body := BetweenTags(s, "<team-event kind=\"task-board\"", "</team-event>");
  }

  lemma OpenTagText()
    ensures OpenTag(TASK_BOARD) == "<team-event kind=\"task-board\""
  {
    assert "<team-event kind=\"" + ("task-board" + "\"") == "<team-event kind=\"task-board\"";
  }

  lemma TaggedIsSnapshot(open: string, body: string, close: string, m: string)
    requires m == open + (body + close) && close != ""
    ensures open <= m && Text.EndsWith(m, close) && (open != "" ==> m[0] == open[0])
    ensures m[|m| - 1] == close[|close| - 1]
  {
  }

  /** A text is a snapshot exactly when it is one task-board event, with white space around it at most. */
  lemma SnapshotMeans(text: string)
    ensures SnapshotKindOf(text) == Some("task-board") || SnapshotKindOf(text) == None
    ensures SnapshotKindOf(text).Some? <==> exists a, body, b :: IsSnapshot(text, a, body, b)
  {
    if SnapshotKindOf(text).Some? {
      var a, b := Text.StripMeans(text);
      SnapshotTags(Text.Strip(text));
      var body :| Text.Strip(text) == "<team-event kind=\"task-board\"" + (body + "</team-event>");
      assert IsSnapshot(text, a, body, b);
    }
    if a, body, b :| IsSnapshot(text, a, body, b) {
      SnapshotFound(text, a, "<team-event kind=\"task-board\"", body, "</team-event>", b);
    }
  }

  lemma SnapshotFound(text: string, a: string, open: string, body: string, close: string, b: string)
    requires text == a + ((open + (body + close)) + b) && Text.Blank(a) && Text.Blank(b)
    requires open == "<team-event kind=\"task-board\"" && close == "</team-event>"
    ensures SnapshotKindOf(text).Some?
  {
    var m := open + (body + close);
    TaggedIsSnapshot(open, body, close, m);
    OpenTagText();
    Text.StripUnique(a, m, b);
  }

  // ---------------------------------------------------------------- the compactor, for any kinds

  /** A later entry of the same snapshot kind makes this one stale. */
  ghost predicate Superseded(kindOf: string -> Option<string>, part: string, later: seq<string>)
  {
    kindOf(part).Some? && exists q :: q in later && kindOf(q) == kindOf(part)
  }

  ghost function Compact(kindOf: string -> Option<string>, parts: seq<string>): seq<string>
  {
    if parts == [] then []
    else if Superseded(kindOf, parts[0], parts[1..]) then Compact(kindOf, parts[1..])
    else [parts[0]] + Compact(kindOf, parts[1..])
  }

  /** `newest` maps each kind among the first `n` entries to its last position. */
  ghost predicate Newest(kindOf: string -> Option<string>, parts: seq<string>, n: nat, newest: map<string, nat>)
    requires n <= |parts|
  {
    && (forall k :: k in newest ==> newest[k] < n && kindOf(parts[newest[k]]) == Some(k))
    && (forall j :: 0 <= j < n && kindOf(parts[j]).Some? ==>
         kindOf(parts[j]).value in newest && j <= newest[kindOf(parts[j]).value])
  }

  method FindNewest(kindOf: string -> Option<string>, parts: seq<string>) returns (newest: map<string, nat>)
    ensures Newest(kindOf, parts, |parts|, newest)
  {
    newest := map[];
    for index := 0 to |parts|
      invariant Newest(kindOf, parts, index, newest)
    {
      var kind := kindOf(parts[index]);
      if kind.Some? {
        newest := newest[kind.value := index];
      }
    }
  }

  method DropSuperseded(kindOf: string -> Option<string>, parts: seq<string>) returns (kept: seq<string>)
    ensures kept == Compact(kindOf, parts)
  {
    var newest := FindNewest(kindOf, parts);
    kept := [];
    for index := 0 to |parts|
      invariant kept + Compact(kindOf, parts[index..]) == Compact(kindOf, parts)
    {
      var kind := kindOf(parts[index]);
      assert parts[index..][1..] == parts[index + 1..];
      SupersededByIndex(kindOf, parts, index, newest);
      if kind.None? || newest[kind.value] == index {
        kept := kept + [parts[index]];
      }
    }
  }

  lemma SupersededByIndex(kindOf: string -> Option<string>, parts: seq<string>, index: nat, newest: map<string, nat>)
    requires index < |parts| && Newest(kindOf, parts, |parts|, newest)
    ensures Superseded(kindOf, parts[index], parts[index + 1..]) <==>
              kindOf(parts[index]).Some? && newest[kindOf(parts[index]).value] != index
  {
    var kind := kindOf(parts[index]);
    if kind.Some? {
      var last := newest[kind.value];
      if last != index {
        assert parts[index + 1..][last - index - 1] == parts[last];
      }
      if q :| q in parts[index + 1..] && kindOf(q) == kind {
        var j :| 0 <= j < |parts| - index - 1 && parts[index + 1..][j] == q;
        assert parts[index + 1 + j] == q;
      }
    }
  }

  // ---------------------------------------------------------------- what it keeps

  /** The entries that are no snapshot. */
  function Others(kindOf: string -> Option<string>, parts: seq<string>): seq<string>
  {
    if parts == [] then []
    else if kindOf(parts[0]).None? then [parts[0]] + Others(kindOf, parts[1..])
    else Others(kindOf, parts[1..])
  }

  /** The snapshots of one kind, oldest first. */
  function OfKind(kindOf: string -> Option<string>, k: string, parts: seq<string>): seq<string>
  {
    if parts == [] then []
    else if kindOf(parts[0]) == Some(k) then [parts[0]] + OfKind(kindOf, k, parts[1..])
    else OfKind(kindOf, k, parts[1..])
  }

  ghost predicate Subsequence(a: seq<string>, b: seq<string>)
  {
    a == [] || (b != [] && ((a[0] == b[0] && Subsequence(a[1..], b[1..])) || Subsequence(a, b[1..])))
  }

  lemma {:induction false} OfKindMembers(kindOf: string -> Option<string>, k: string, parts: seq<string>)
    ensures OfKind(kindOf, k, parts) != [] <==> exists q :: q in parts && kindOf(q) == Some(k)
  {
    if parts != [] {
      OfKindMembers(kindOf, k, parts[1..]);
      if kindOf(parts[0]) == Some(k) {
        assert parts[0] in parts;
      } else {
        assert forall q :: q in parts && q != parts[0] ==> q in parts[1..];
      }
    }
  }

  /** Taking one more entry in front, seen by each reader of the queue. */
  lemma Front(kindOf: string -> Option<string>, k: string, p: string, rest: seq<string>)
    ensures Others(kindOf, [p] + rest) == (if kindOf(p).None? then [p] else []) + Others(kindOf, rest)
    ensures OfKind(kindOf, k, [p] + rest) == (if kindOf(p) == Some(k) then [p] else []) + OfKind(kindOf, k, rest)
  {
    assert ([p] + rest)[1..] == rest;
  }

  /** What is kept is a subsequence: whole entries, in order. */
  lemma {:induction false} CompactIsSubsequence(kindOf: string -> Option<string>, parts: seq<string>)
    ensures Subsequence(Compact(kindOf, parts), parts)
  {
    if parts != [] {
      CompactIsSubsequence(kindOf, parts[1..]);
      assert ([parts[0]] + Compact(kindOf, parts[1..]))[1..] == Compact(kindOf, parts[1..]);
    }
  }

  /** Nothing that is not a snapshot is dropped or reordered. */
  lemma {:induction false} CompactKeepsOthers(kindOf: string -> Option<string>, parts: seq<string>)
    ensures Others(kindOf, Compact(kindOf, parts)) == Others(kindOf, parts)
  {
    if parts != [] {
      CompactKeepsOthers(kindOf, parts[1..]);
      Front(kindOf, "", parts[0], Compact(kindOf, parts[1..]));
    }
  }

  /** Of each kind exactly the newest snapshot is kept. */
  lemma {:induction false} CompactKeepsNewest(kindOf: string -> Option<string>, k: string, parts: seq<string>)
    ensures OfKind(kindOf, k, Compact(kindOf, parts)) == Last(OfKind(kindOf, k, parts))
  {
    if parts != [] {
      CompactKeepsNewest(kindOf, k, parts[1..]);
      OfKindMembers(kindOf, k, parts[1..]);
      Front(kindOf, k, parts[0], Compact(kindOf, parts[1..]));
      LastOfCons(parts[0], OfKind(kindOf, k, parts[1..]));
    }
  }

  /** The last entry of a queue, as a queue. */
  function Last(s: seq<string>): seq<string>
  {
    if s == [] then [] else [s[|s| - 1]]
  }

  lemma LastOfCons(p: string, s: seq<string>)
    ensures Last([p] + s) == if s == [] then [p] else Last(s)
  {
  }

  /** Position `i` is kept: its entry is no snapshot, or no later one is a snapshot of its kind. */
  ghost predicate Stays(kindOf: string -> Option<string>, parts: seq<string>, i: nat)
  {
    i < |parts| && (kindOf(parts[i]) == None || forall j :: i < j < |parts| ==> kindOf(parts[j]) != kindOf(parts[i]))
  }

  /** The entries from position `i` on that stay, in order. */
  ghost function KeptFrom(kindOf: string -> Option<string>, parts: seq<string>, i: nat): seq<string>
    requires i <= |parts|
    decreases |parts| - i
  {
    if i == |parts| then []
    else (if Stays(kindOf, parts, i) then [parts[i]] else []) + KeptFrom(kindOf, parts, i + 1)
  }

  lemma StaysMeans(kindOf: string -> Option<string>, parts: seq<string>, i: nat)
    requires i < |parts|
    ensures Stays(kindOf, parts, i) <==> !Superseded(kindOf, parts[i], parts[i + 1..])
  {
    if Superseded(kindOf, parts[i], parts[i + 1..]) {
      var q :| q in parts[i + 1..] && kindOf(q) == kindOf(parts[i]);
      var j :| 0 <= j < |parts[i + 1..]| && parts[i + 1..][j] == q;
      assert parts[i + 1 + j] == q;
    } else {
      forall j | i < j < |parts| && kindOf(parts[i]).Some? ensures kindOf(parts[j]) != kindOf(parts[i]) {
        assert parts[i + 1..][j - i - 1] == parts[j];
      }
    }
  }

  /** What is kept, position by position: whatever is no snapshot, and the last one of each kind. */
  lemma {:induction false} CompactMeans(kindOf: string -> Option<string>, parts: seq<string>, i: nat)
    requires i <= |parts|
    ensures Compact(kindOf, parts[i..]) == KeptFrom(kindOf, parts, i)
    decreases |parts| - i
  {
    if i < |parts| {
      CompactMeans(kindOf, parts, i + 1);
      StaysMeans(kindOf, parts, i);
      assert parts[i..][1..] == parts[i + 1..];
    }
  }

  // ---------------------------------------------------------------- algebra

  ghost predicate HasKind(kindOf: string -> Option<string>, parts: seq<string>, k: Option<string>)
  {
    exists q :: q in parts && kindOf(q) == k
  }

  lemma KindsKept(kindOf: string -> Option<string>, parts: seq<string>, k: string)
    ensures HasKind(kindOf, Compact(kindOf, parts), Some(k)) <==> HasKind(kindOf, parts, Some(k))
  {
    CompactKeepsNewest(kindOf, k, parts);
    OfKindMembers(kindOf, k, parts);
    OfKindMembers(kindOf, k, Compact(kindOf, parts));
  }

  lemma HasKindConcat(kindOf: string -> Option<string>, a: seq<string>, b: seq<string>, k: Option<string>)
    ensures HasKind(kindOf, a + b, k) <==> HasKind(kindOf, a, k) || HasKind(kindOf, b, k)
  {
    assert forall q :: q in a + b <==> q in a || q in b;
  }

  /** Compacting what has queued up so far and continuing loses nothing against compacting once at
      the end. */
  lemma {:induction false} CompactIncremental(kindOf: string -> Option<string>, a: seq<string>, b: seq<string>)
    ensures Compact(kindOf, a + b) == Compact(kindOf, Compact(kindOf, a) + b)
  {
    if a == [] {
      assert a + b == b && Compact(kindOf, a) + b == b;
    } else {
      var p, rest, r := a[0], a[1..], Compact(kindOf, a[1..]);
      CompactIncremental(kindOf, rest, b);
      assert (a + b)[1..] == rest + b && (a + b)[0] == p;
      if kindOf(p).Some? {
        var k := kindOf(p).value;
        KindsKept(kindOf, rest, k);
        HasKindConcat(kindOf, rest, b, Some(k));
        HasKindConcat(kindOf, r, b, Some(k));
        assert Superseded(kindOf, p, rest) <==> HasKind(kindOf, rest, Some(k));
        assert Superseded(kindOf, p, rest + b) <==> HasKind(kindOf, rest + b, Some(k));
        assert Superseded(kindOf, p, r + b) <==> HasKind(kindOf, r + b, Some(k));
      }
      if !Superseded(kindOf, p, rest) {
        assert Compact(kindOf, a) + b == [p] + (r + b);
        assert ([p] + (r + b))[1..] == r + b;
      }
    }
  }

  lemma CompactIdempotent(kindOf: string -> Option<string>, parts: seq<string>)
    ensures Compact(kindOf, Compact(kindOf, parts)) == Compact(kindOf, parts)
  {
    CompactIncremental(kindOf, parts, []);
    assert parts + [] == parts && Compact(kindOf, parts) + [] == Compact(kindOf, parts);
  }

  // ---------------------------------------------------------------- on rendered inputs

  lemma PrefixUntilQuote(a: string, b: string, r: string)
    requires (forall i :: 0 <= i < |a| ==> a[i] != '"') && (forall i :: 0 <= i < |b| ==> b[i] != '"')
    requires a + "\"" <= b + ("\"" + r)
    ensures a == b
  {
    var s := b + ("\"" + r);
    UntilStop(b, "\"", "\"" + r);
    UntilStop(a, "\"", s[|a|..]);
    assert s == a + s[|a|..];
  }

  lemma StripNoop(s: string)
    requires s != "" && !Text.IsSpace(s[0]) && !Text.IsSpace(s[|s| - 1])
    ensures Text.Strip(s) == s
  {
  }

  lemma PrintEnds(e: Element)
    ensures Print(e) != "" && Print(e)[0] == '<' && Print(e)[|Print(e)| - 1] == '>'
    ensures Text.EndsWith(Print(e), "</" + (e.tag + ">"))
  {
    var front := "<" + (e.tag + (PrintAttrs(e.attrs) + (">" + (Escape(e.head, false) + PrintChildren(e.children)))));
    var end := "</" + (e.tag + ">");
    assert Print(e) == front + end;
    assert end[|end| - 1] == '>';
  }

  /** Escaping is injective, so only a kind itself can spell it. */
  lemma KindSpelled(kind: string, x: string, rest: string)
    requires EscAttr(x) == x
    ensures Text.StartsWith(EscAttr(kind) + ("\"" + rest), x + "\"") <==> kind == x
  {
    EscapeSafe(kind, true);
    EscapeSafe(x, true);
    if Text.StartsWith(EscAttr(kind) + ("\"" + rest), x + "\"") {
      PrefixUntilQuote(x, EscAttr(kind), rest);
      UnescapeEscape(kind, true);
      UnescapeEscape(x, true);
    }
  }

  lemma StartsAfterFront(front: string, s: string, p: string)
    ensures Text.StartsWith(front + s, front + p) <==> Text.StartsWith(s, p)
  {
    if Text.StartsWith(front + s, front + p) {
      assert forall i :: 0 <= i < |p| ==> p[i] == (front + p)[|front| + i] && s[i] == (front + s)[|front| + i];
    }
  }

  lemma EventShape(kind: string, rest: string)
    ensures "<" + ("team-event" + (" " + ("kind" + ("=\"" + (kind + ("\"" + rest))))))
        == "<team-event kind=\"" + (kind + ("\"" + rest))
  {
    assert "<" + ("team-event" + (" " + ("kind" + "=\""))) == "<team-event kind=\"";
  }

  lemma EventFront(e: Element) returns (rest: string)
    requires e.tag == "team-event" && e.attrs != [] && e.attrs[0].name == "kind"
    ensures Print(e) == "<team-event kind=\"" + (EscAttr(e.attrs[0].value) + ("\"" + rest))
  {
    var tail := ">" + (Escape(e.head, false) + (PrintChildren(e.children) + ("</" + (e.tag + ">"))));
    rest := PrintAttrs(e.attrs[1..]) + tail;
    AttrsShape(e.attrs, tail);
    EventShape(EscAttr(e.attrs[0].value), rest);
  }

  lemma BoardTag()
    ensures EscAttr(TASK_BOARD) == TASK_BOARD
    ensures OpenTag(TASK_BOARD) == "<team-event kind=\"" + (TASK_BOARD + "\"")
  {
    BoardPlain();
    EscapePlain(TASK_BOARD, true);
    Regroup("<team-event kind=\"", TASK_BOARD, "\"");
  }

  lemma BoardPlain()
    ensures Plain(TASK_BOARD)
  {
  }

  lemma EventStarts(e: Element)
    requires e.tag == "team-event" && e.attrs != [] && e.attrs[0].name == "kind"
    ensures Text.StartsWith(Print(e), OpenTag(TASK_BOARD)) <==> e.attrs[0].value == TASK_BOARD
  {
    var rest := EventFront(e);
    var kind := e.attrs[0].value;
    BoardTag();
    KindSpelled(kind, TASK_BOARD, rest);
    StartsAfterFront("<team-event kind=\"", EscAttr(kind) + ("\"" + rest), TASK_BOARD + "\"");
  }

  lemma EventEnds(e: Element)
    requires e.tag == "team-event"
    ensures Text.Strip(Print(e)) == Print(e) && Text.EndsWith(Print(e), "</team-event>")
  {
    PrintEnds(e);
    StripNoop(Print(e));
    EventEndTag();
  }

  lemma EventEndTag()
    ensures "</" + ("team-event" + ">") == "</team-event>"
  {
  }

  lemma EventElementKind(e: Element)
    requires e.tag == "team-event" && e.attrs != [] && e.attrs[0].name == "kind"
    ensures SnapshotKindOf(Print(e)) == if e.attrs[0].value == TASK_BOARD then Some(TASK_BOARD) else None
  {
    EventEnds(e);
    EventStarts(e);
  }

  lemma OtherElementKind(e: Element)
    requires |e.tag| > 5 && e.tag[5] != 'e'
    ensures SnapshotKindOf(Print(e)).None?
  {
    PrintEnds(e);
    StripNoop(Print(e));
    assert Print(e)[6] == e.tag[5];
    assert OpenTag(TASK_BOARD)[6] == 'e';
  }

  /** Among rendered inputs the snapshots are exactly the task-board events, whatever anyone wrote
      into a message. */
  lemma SnapshotKindOfRendered(b: Block)
    ensures SnapshotKindOf(Render(b)) == if b.Event? && b.kind == TASK_BOARD then Some(TASK_BOARD) else None
  {
    RenderPrints(b);
    ElementTag(b);
    if b.Event? {
      EventElementKind(ElementOf(b));
    } else {
      OtherElementKind(ElementOf(b));
    }
  }

  function Select(keep: Block -> bool, blocks: seq<Block>): seq<Block>
  {
    if blocks == [] then []
    else if keep(blocks[0]) then [blocks[0]] + Select(keep, blocks[1..])
    else Select(keep, blocks[1..])
  }

  lemma {:induction false} OthersOfMap(kindOf: string -> Option<string>, f: Block -> string, keep: Block -> bool,
                                       blocks: seq<Block>)
    requires forall b :: keep(b) <==> kindOf(f(b)).None?
    ensures Others(kindOf, Map(f, blocks)) == Map(f, Select(keep, blocks))
  {
    if blocks == [] {
      assert Map(f, blocks) == [];
    } else {
      OthersOfMap(kindOf, f, keep, blocks[1..]);
      MapCons(f, blocks[0], blocks[1..]);
      MapCons(f, blocks[0], Select(keep, blocks[1..]));
      Front(kindOf, "", f(blocks[0]), Map(f, blocks[1..]));
      assert blocks == [blocks[0]] + blocks[1..];
    }
  }

  predicate NotBoard(b: Block)
  {
    !(b.Event? && b.kind == TASK_BOARD)
  }

  /** Coalescing a queue of rendered inputs keeps every member message, controller instruction and
      other event, in order, whatever their texts. */
  lemma QueueKeepsMessages(blocks: seq<Block>)
    ensures Others(SnapshotKindOf, Compact(SnapshotKindOf, Map(Render, blocks)))
        == Map(Render, Select(NotBoard, blocks))
  {
    CompactKeepsOthers(SnapshotKindOf, Map(Render, blocks));
    forall b ensures NotBoard(b) <==> SnapshotKindOf(Render(b)).None? {
      SnapshotKindOfRendered(b);
    }
    OthersOfMap(SnapshotKindOf, Render, NotBoard, blocks);
  }
}
