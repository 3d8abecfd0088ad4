/** Forking an agent's conversation at a checkpoint (openjiuwen/agent_teams/fork.py): where may it be
    cut without leaving a tool call unanswered or a tool result without its call? */
module Fork {
  import opened Wrappers

  /** A message, reduced to its role and the tool calls it makes or answers. */
  datatype Message =
    | System(content: string)
    | User(content: string)
    | Assistant(content: string, toolCalls: seq<string>)
    | Tool(content: string, callId: string)

  type Conversation = seq<Message>

  // ---------------------------------------------------------------- well-formed conversations

  /** How many tool results a conversation starts with. */
  function LeadingTools(ms: Conversation): (n: nat)
    ensures n <= |ms|
    ensures forall i :: 0 <= i < n ==> ms[i].Tool?
    ensures n < |ms| ==> !ms[n].Tool?
  {
    if ms == [] || !ms[0].Tool? then 0 else 1 + LeadingTools(ms[1..])
  }

  /** The calls answered by the block of tool results that starts at position `i`. */
  function Answered(ms: Conversation, i: nat): (ids: seq<string>)
    requires i <= |ms|
    ensures forall k :: 0 <= k < |ids| ==> i + k < |ms| && ms[i + k].Tool? && ids[k] == ms[i + k].callId
  {
    seq(LeadingTools(ms[i..]), k requires 0 <= k < LeadingTools(ms[i..]) => ms[i..][k].callId)
  }

  /** A stripped conversation a provider accepts: every message that calls tools is followed at once
      by one result for each of its calls, and there are no other results. */
  ghost predicate WellFormed(ms: Conversation)
    decreases |ms|
  {
    if ms == [] then true
    else match ms[0]
      case System(_) => false
      case User(_) => WellFormed(ms[1..])
      case Tool(_, _) => false
      case Assistant(_, calls) =>
        var n := LeadingTools(ms[1..]);
        multiset(Answered(ms, 1)) == multiset(calls) && WellFormed(ms[1..][n..])
  }

  /** The same, message by message: message `i` calls tools that the results right after it do not
      answer one to one. */
  ghost predicate Dangling(ms: Conversation, i: nat)
    requires i < |ms|
  {
    ms[i].Assistant? &&
    multiset(Answered(ms, i + 1)) != multiset(ms[i].toolCalls)
  }

  /** Message `i` is a tool result whose block does not start right after an assistant. */
  ghost predicate Orphan(ms: Conversation, i: nat)
    requires i < |ms|
  {
    ms[i].Tool? && (i == 0 || (!ms[i - 1].Tool? && !ms[i - 1].Assistant?))
  }

  ghost predicate Fine(ms: Conversation, i: nat)
    requires i < |ms|
  {
    !ms[i].System? && !Dangling(ms, i) && !Orphan(ms, i)
  }

  ghost predicate NothingWrong(ms: Conversation)
  {
    forall i :: 0 <= i < |ms| ==> Fine(ms, i)
  }

  /** Whether a message is fine depends on what follows it and, for a result, on what precedes it. */
  lemma SuffixFine(ms: Conversation, k: nat, i: nat)
    requires k + i < |ms| && (i > 0 || !ms[k].Tool?)
    ensures Fine(ms[k..], i) <==> Fine(ms, k + i)
  {
    assert ms[k..][i] == ms[k + i];
    assert ms[k..][i + 1..] == ms[k + i + 1..];
    assert Answered(ms[k..], i + 1) == Answered(ms, k + i + 1);
    assert i > 0 ==> ms[k..][i - 1] == ms[k + i - 1];
  }

  /** The length of the block a well-formed conversation starts with, after its first message. */
  function BlockLength(ms: Conversation): (n: nat)
    requires ms != []
    ensures 1 + n <= |ms|
    ensures forall i :: 1 <= i < 1 + n ==> ms[i].Tool?
    ensures ms[0].Assistant? && 1 + n < |ms| ==> !ms[1 + n].Tool?
  {
    if ms[0].Assistant? then
      var n := LeadingTools(ms[1..]);
      assert forall i :: 1 <= i < 1 + n ==> ms[i] == ms[1..][i - 1];
      assert 1 + n < |ms| ==> ms[1 + n] == ms[1..][n];
      n
    else 0
  }

  lemma BlockFine(ms: Conversation, i: nat)
    requires ms != [] && 1 <= i < 1 + BlockLength(ms)
    ensures Fine(ms, i)
  {
    assert i > 1 ==> ms[i - 1].Tool?;
  }

  /** Behind the first block, which ends at position `k`, a message is as fine as it is in the whole
      conversation. */
  lemma RestFine(ms: Conversation, k: nat, i: nat)
    requires 0 < k && k + i < |ms| && !ms[0].Tool? && if ms[0].Assistant? then !ms[k].Tool? else k == 1
    ensures Fine(ms[k..], i) <==> Fine(ms, k + i)
  {
    if i == 0 && ms[k].Tool? {
      OrphanNotFine(ms, k);
      OrphanNotFine(ms[k..], 0);
    } else {
      SuffixFine(ms, k, i);
    }
  }

  lemma OrphanNotFine(ms: Conversation, i: nat)
    requires i < |ms| && Orphan(ms, i)
    ensures !Fine(ms, i)
  {
  }

  lemma RestDecides(ms: Conversation, n: nat)
    requires ms != [] && Fine(ms, 0) && n == BlockLength(ms)
    ensures NothingWrong(ms) <==> NothingWrong(ms[1 + n..])
  {
    var rest := ms[1 + n..];
    forall i | 0 <= i < |rest| ensures Fine(rest, i) <==> Fine(ms, 1 + n + i) {
      RestFine(ms, 1 + n, i);
    }
    if NothingWrong(rest) {
      forall i | 0 <= i < |ms| ensures Fine(ms, i) {
        if 1 <= i < 1 + n {
          BlockFine(ms, i);
        } else if i > n {
          assert Fine(rest, i - n - 1);
        }
      }
    }
    if NothingWrong(ms) {
      forall i | 0 <= i < |rest| ensures Fine(rest, i) {
        assert Fine(ms, 1 + n + i);
      }
    }
  }

  /** The inductive definition says exactly that no message dangles and none is orphaned. */
  lemma {:induction false} WellFormedMeansNothingWrong(ms: Conversation)
    ensures WellFormed(ms) <==> NothingWrong(ms)
    decreases |ms|
  {
    if ms != [] {
      var n := BlockLength(ms);
      WellFormedMeansNothingWrong(ms[1 + n..]);
      assert ms[0 + 1..] == ms[1..] && ms[1..][n..] == ms[1 + n..];
      if Fine(ms, 0) {
        RestDecides(ms, n);
      } else {
        assert !NothingWrong(ms);
      }
    }
  }

  // ---------------------------------------------------------------- ForkContext.from_agent

  function StripSystem(ms: Conversation): Conversation
  {
    if ms == [] then []
    else if ms[0].System? then StripSystem(ms[1..])
    else [ms[0]] + StripSystem(ms[1..])
  }

  datatype Keep = Before | After

  /** The window kept of a stripped conversation. An index outside it keeps everything. */
  function Window(ms: Conversation, checkpoint: Option<int>, keep: Keep): Conversation
  {
    if checkpoint.None? || !(0 <= checkpoint.value < |ms|) then ms
    else
      var c := checkpoint.value;
      if keep == After then AfterWindow(ms, c) else BeforeWindow(ms, c)
  }

  /** The end of the run of tool results at position `c`. */
  function BlockEnd(ms: Conversation, c: nat): (e: nat)
    requires c <= |ms|
    ensures c <= e <= |ms| && e == c + LeadingTools(ms[c..])
    ensures forall i :: c <= i < e ==> ms[i].Tool?
    ensures e < |ms| ==> !ms[e].Tool?
    decreases |ms| - c
  {
    if c < |ms| && ms[c].Tool? then
      assert ms[c..][1..] == ms[c + 1..];
      BlockEnd(ms, c + 1)
    else c
  }

  function AfterWindow(ms: Conversation, c: nat): Conversation
    requires c <= |ms|
  {
    ms[BlockEnd(ms, c)..]
  }

  function BeforeWindow(ms: Conversation, c: nat): Conversation
    requires c < |ms|
  {
    if c > 0 && ms[c - 1].Assistant? && ms[c - 1].toolCalls != [] && ms[c].Tool? then ms[..BlockEnd(ms, c)]
    else ms[..c]
  }

  method TrimLeadingOrphans(ms: Conversation) returns (r: Conversation)
    ensures r == ms[LeadingTools(ms)..]
  {
    var start := 0;
    while start < |ms| && ms[start].Tool?
      invariant 0 <= start <= |ms|
      invariant LeadingTools(ms) == start + LeadingTools(ms[start..])
    {
      assert ms[start..][1..] == ms[start + 1..];
      start := start + 1;
    }
    return ms[start..];
  }

  lemma BlockEndStep(ms: Conversation, i: nat)
    requires i < |ms| && ms[i].Tool?
    ensures BlockEnd(ms, i) == BlockEnd(ms, i + 1) && ms[..i] + [ms[i]] == ms[..i + 1]
  {
  }

  /** The loop that carries the closing results across the boundary. */
  method CarryResults(ms: Conversation, c: nat) returns (truncated: Conversation)
    requires c < |ms|
    ensures truncated == ms[..BlockEnd(ms, c)]
  {
    truncated := ms[..c];
    var i := c;
    while i < |ms| && ms[i].Tool?
      invariant c <= i <= |ms|
      invariant truncated == ms[..i]
      invariant BlockEnd(ms, c) == BlockEnd(ms, i)
    {
      BlockEndStep(ms, i);
      truncated := truncated + [ms[i]];
      i := i + 1;
    }
  }

  lemma TailOfTail(ms: Conversation, c: nat, n: nat)
    requires c + n <= |ms|
    ensures ms[c..][n..] == ms[c + n..]
  {
  }

  /** Position `e` is the first from `c` on that holds no tool result. */
  ghost predicate EndsResults(ms: Conversation, c: nat, e: nat)
  {
    c <= e <= |ms| && (forall i :: c <= i < e ==> ms[i].Tool?) && (e < |ms| ==> !ms[e].Tool?)
  }

  /** What is inherited: everything when the checkpoint is absent or out of range; otherwise the messages
      behind the results at the checkpoint, or those before it together with the results that answer a call
      made right before it. */
  ghost predicate Inherits(ms: Conversation, checkpoint: Option<int>, keep: Keep, r: Conversation)
  {
    if checkpoint.None? || checkpoint.value < 0 || checkpoint.value >= |ms| then r == ms
    else
      exists e: nat :: EndsResults(ms, checkpoint.value, e) &&
        if keep.After? then r == ms[e..]
        else if checkpoint.value > 0 && ms[checkpoint.value - 1].Assistant?
                && |ms[checkpoint.value - 1].toolCalls| > 0 then r == ms[..e]
        else r == ms[..checkpoint.value]
  }

  lemma WindowMeans(ms: Conversation, checkpoint: Option<int>, keep: Keep, r: Conversation)
    ensures r == Window(ms, checkpoint, keep) <==> Inherits(ms, checkpoint, keep, r)
  {
    if checkpoint.Some? && 0 <= checkpoint.value < |ms| {
      var c := checkpoint.value;
      var e := BlockEnd(ms, c);
      assert EndsResults(ms, c, e);
      forall f: nat | EndsResults(ms, c, f) ensures f == e {
      }
    }
  }

  method FromAgent(live: Conversation, checkpoint: Option<int>, keep: Keep) returns (r: Conversation)
    ensures r == Window(StripSystem(live), checkpoint, keep)
    ensures Inherits(StripSystem(live), checkpoint, keep, r)
  {
    WindowMeans(StripSystem(live), checkpoint, keep, Window(StripSystem(live), checkpoint, keep));
    var ms := StripSystem(live);
    if checkpoint.None? || !(0 <= checkpoint.value < |ms|) {
      return ms;
    }
    var c := checkpoint.value;
    if keep == After {
      r := KeepTail(ms, c);
    } else {
      r := KeepHead(ms, c);
    }
  }

  /** The branch that keeps the tail. */
  method KeepTail(ms: Conversation, c: nat) returns (r: Conversation)
    requires c < |ms|
    ensures r == AfterWindow(ms, c)
  {
    r := TrimLeadingOrphans(ms[c..]);
    TailOfTail(ms, c, LeadingTools(ms[c..]));
  }

  /** The branch that keeps the head. */
  method KeepHead(ms: Conversation, c: nat) returns (r: Conversation)
    requires c < |ms|
    ensures r == BeforeWindow(ms, c)
  {
    if c > 0 && ms[c - 1].Assistant? && ms[c - 1].toolCalls != [] && ms[c].Tool? {
      r := CarryResults(ms, c);
    } else {
      r := ms[..c];
    }
  }

  // ---------------------------------------------------------------- where a cut is safe

  /** The checkpoint falls between two results of one block. */
  predicate InsideBlock(ms: Conversation, c: nat)
  {
    0 < c < |ms| && ms[c - 1].Tool? && ms[c].Tool?
  }

  /** Stripping takes out the system messages and nothing else. */
  lemma {:induction false} StripIsExact(ms: Conversation, m: Message)
    ensures multiset(StripSystem(ms))[m] == if m.System? then 0 else multiset(ms)[m]
  {
    if ms != [] {
      StripIsExact(ms[1..], m);
      assert ms == [ms[0]] + ms[1..];
    }
  }

  lemma {:induction false} StripConcat(a: Conversation, b: Conversation)
    ensures StripSystem(a + b) == StripSystem(a) + StripSystem(b)
  {
    if a == [] {
      assert a + b == b;
    } else {
      StripConcat(a[1..], b);
      assert (a + b)[1..] == a[1..] + b && (a + b)[0] == a[0];
    }
  }

  /** ... and each message that stays keeps its place among the others. */
  lemma StripKeepsPlace(a: Conversation, m: Message, b: Conversation)
    ensures StripSystem(a + ([m] + b)) == StripSystem(a) + ((if m.System? then [] else [m]) + StripSystem(b))
  {
    StripConcat(a, [m] + b);
    StripConcat([m], b);
  }

  /** A well-formed conversation stays so after dropping any prefix up to a non-result. */
  lemma SuffixWellFormed(ms: Conversation, k: nat)
    requires WellFormed(ms) && k <= |ms| && (k < |ms| ==> !ms[k].Tool?)
    ensures WellFormed(ms[k..])
  {
    WellFormedMeansNothingWrong(ms);
    WellFormedMeansNothingWrong(ms[k..]);
    forall i | 0 <= i < |ms[k..]| ensures Fine(ms[k..], i) {
      SuffixFine(ms, k, i);
    }
  }

  /** ... and after dropping any suffix from a non-result on. */
  lemma PrefixWellFormed(ms: Conversation, k: nat)
    requires WellFormed(ms) && k <= |ms| && (k < |ms| ==> !ms[k].Tool?)
    ensures WellFormed(ms[..k])
  {
    WellFormedMeansNothingWrong(ms);
    WellFormedMeansNothingWrong(ms[..k]);
    forall i | 0 <= i < k ensures Fine(ms[..k], i) {
      PrefixFine(ms, k, i);
    }
  }

  lemma PrefixDangling(ms: Conversation, k: nat, i: nat)
    requires i < k <= |ms| && (k < |ms| ==> !ms[k].Tool?)
    ensures Dangling(ms[..k], i) <==> Dangling(ms, i)
  {
    AnsweredPrefix(ms, k, i + 1);
    var before := ms[..k];
    assert before[i] == ms[i] && Answered(before, i + 1) == Answered(ms, i + 1);
  }

  lemma AnsweredPrefix(ms: Conversation, k: nat, i: nat)
    requires i <= k <= |ms| && (k < |ms| ==> !ms[k].Tool?)
    ensures Answered(ms[..k], i) == Answered(ms, i)
  {
    assert i + LeadingTools(ms[i..]) == BlockEnd(ms, i) <= k;
    LeadingToolsPrefix(ms[i..], k - i);
    assert ms[..k][i..] == ms[i..][..k - i];
    SameAnswers(ms[..k], ms, i);
  }

  lemma SameAnswers(a: Conversation, b: Conversation, i: nat)
    requires i <= |a| && i <= |b| && LeadingTools(a[i..]) == LeadingTools(b[i..]) && a <= b
    ensures Answered(a, i) == Answered(b, i)
  {
  }

  lemma PrefixFine(ms: Conversation, k: nat, i: nat)
    requires i < k <= |ms| && (k < |ms| ==> !ms[k].Tool?)
    ensures Fine(ms[..k], i) <==> Fine(ms, i)
  {
    PrefixDangling(ms, k, i);
    assert ms[..k][i] == ms[i];
    assert i > 0 ==> ms[..k][i - 1] == ms[i - 1];
  }

  lemma {:induction false} LeadingToolsPrefix(ms: Conversation, k: nat)
    requires LeadingTools(ms) <= k <= |ms|
    ensures LeadingTools(ms[..k]) == LeadingTools(ms)
  {
    if LeadingTools(ms) > 0 {
      LeadingToolsPrefix(ms[1..], k - 1);
      assert ms[..k][1..] == ms[1..][..k - 1];
    }
  }

  /** In a well-formed conversation a result that starts a block follows a call. */
  lemma BlockStart(ms: Conversation, c: nat)
    requires WellFormed(ms) && c < |ms| && ms[c].Tool? && !InsideBlock(ms, c)
    ensures c > 0 && ms[c - 1].Assistant? && ms[c - 1].toolCalls != []
  {
    WellFormedMeansNothingWrong(ms);
    assert Fine(ms, c);
    assert Fine(ms, c - 1);
    assert |multiset(Answered(ms, c))| == LeadingTools(ms[c..]) > 0;
  }

  /** The after-window of any checkpoint has no orphan result and no dangling call. */
  lemma AfterWindowSafe(ms: Conversation, c: nat)
    requires WellFormed(ms) && c < |ms|
    ensures WellFormed(AfterWindow(ms, c))
  {
    SuffixWellFormed(ms, BlockEnd(ms, c));
  }

  lemma SplitBlockDangles(ms: Conversation, c: nat)
    requires WellFormed(ms) && InsideBlock(ms, c)
    ensures BeforeWindow(ms, c) == ms[..c] && !WellFormed(ms[..c])
  {
    var a := BlockOwner(ms, c);
    WellFormedMeansNothingWrong(ms);
    WellFormedMeansNothingWrong(ms[..c]);
    assert Fine(ms, a);
    assert ms[a + 1..][c - a - 1] == ms[c];
    AllTools(ms[a + 1..], c - a);
    assert |multiset(Answered(ms, a + 1))| >= c - a;
    assert |multiset(Answered(ms[..c], a + 1))| <= c - a - 1;
    assert !Fine(ms[..c], a);
  }

  /** The assistant whose results surround position `c`. */
  lemma {:induction false} BlockOwner(ms: Conversation, c: nat) returns (a: nat)
    requires WellFormed(ms) && c < |ms| && ms[c].Tool?
    ensures a < c && ms[a].Assistant? && forall i :: a < i <= c ==> ms[i].Tool?
  {
    WellFormedMeansNothingWrong(ms);
    assert Fine(ms, c);
    if ms[c - 1].Assistant? {
      a := c - 1;
    } else {
      a := BlockOwner(ms, c - 1);
    }
  }

  lemma {:induction false} AllTools(ms: Conversation, k: nat)
    requires k <= |ms| && forall i :: 0 <= i < k ==> ms[i].Tool?
    ensures LeadingTools(ms) >= k
  {
    if k > 0 {
      AllTools(ms[1..], k - 1);
    }
  }

  /** The before-window is a well-formed conversation exactly when the checkpoint does not split a
      result block. */
  lemma BeforeWindowSafe(ms: Conversation, c: nat)
    requires WellFormed(ms) && c < |ms|
    ensures WellFormed(BeforeWindow(ms, c)) <==> !InsideBlock(ms, c)
  {
    if InsideBlock(ms, c) {
      SplitBlockDangles(ms, c);
    } else if ms[c].Tool? {
      BlockStart(ms, c);
      PrefixWellFormed(ms, BlockEnd(ms, c));
    } else {
      PrefixWellFormed(ms, c);
    }
  }

  /** The two windows of a checkpoint are complementary exactly when it does not split a block, in a
      conversation that is complete or has a call open at `n`. */
  lemma WindowsPartition(ms: Conversation, n: nat, c: nat)
    requires OpenAt(ms, n) && c < |ms|
    ensures BeforeWindow(ms, c) + AfterWindow(ms, c) == ms <==> !InsideBlock(ms, c)
  {
    Rejoin(ms, c, BlockEnd(ms, c));
    Rejoin(ms, BlockEnd(ms, c), BlockEnd(ms, c));
    if ms[c].Tool? && !InsideBlock(ms, c) {
      OpenBlockStart(ms, n, c);
    }
  }

  lemma Rejoin(ms: Conversation, i: nat, j: nat)
    requires i <= j <= |ms|
    ensures ms[..i] + ms[j..] == ms <==> i == j
  {
    assert |ms[..i] + ms[j..]| == |ms| - (j - i);
  }

  // ---------------------------------------------------------------- forking live conversations

  /** A conversation up to position `n` well-formed, and from there on, if it goes on, a message whose
      tool calls have not all been answered yet, with the results it has so far: what an agent holds
      while it runs a tool, such as the one that forks it. */
  ghost predicate OpenAt(ms: Conversation, n: nat)
  {
    && n <= |ms| && WellFormed(ms[..n])
    && (n < |ms| ==> Unanswered(ms, n) && forall i :: n < i < |ms| ==> ms[i].Tool?)
  }

  /** Some, but not all, of the calls of message `i` have their results. */
  ghost predicate Unanswered(ms: Conversation, i: nat)
    requires i < |ms|
  {
    ms[i].Assistant? && multiset(Answered(ms, i + 1)) < multiset(ms[i].toolCalls)
  }

  lemma FewerAnswers(ms: Conversation, i: nat)
    requires i < |ms| && Unanswered(ms, i)
    ensures Dangling(ms, i) && LeadingTools(ms[i + 1..]) < |ms[i].toolCalls|
  {
    var some, all := multiset(Answered(ms, i + 1)), multiset(ms[i].toolCalls);
    assert all == some + (all - some);
    assert |all| == |some| + |all - some|;
    assert all - some != multiset{};
  }

  lemma OpenNotWellFormed(ms: Conversation, n: nat)
    requires OpenAt(ms, n) && n < |ms|
    ensures !WellFormed(ms)
  {
    WellFormedMeansNothingWrong(ms);
    FewerAnswers(ms, n);
    assert !Fine(ms, n);
  }

  /** A result that starts a block follows a call, a block of an open call included. */
  lemma OpenBlockStart(ms: Conversation, n: nat, c: nat)
    requires OpenAt(ms, n) && c < |ms| && ms[c].Tool? && !InsideBlock(ms, c)
    ensures c > 0 && ms[c - 1].Assistant? && ms[c - 1].toolCalls != []
  {
    if c < n {
      assert ms[..n][c] == ms[c] && (c > 0 ==> ms[..n][c - 1] == ms[c - 1]);
      BlockStart(ms[..n], c);
    } else {
      FewerAnswers(ms, n);
    }
  }

  lemma BlockEndPrefix(ms: Conversation, n: nat, c: nat)
    requires c < n <= |ms| && (n < |ms| ==> !ms[n].Tool?)
    ensures BlockEnd(ms[..n], c) == BlockEnd(ms, c) <= n
    decreases n - c
  {
    if c + 1 < n && ms[c].Tool? {
      BlockEndPrefix(ms, n, c + 1);
    }
  }

  /** A window in front of position `n` does not depend on what follows `n`. */
  lemma HeadWindow(ms: Conversation, n: nat, c: nat)
    requires c < n <= |ms| && (n < |ms| ==> !ms[n].Tool?)
    ensures BeforeWindow(ms[..n], c) == BeforeWindow(ms, c) && InsideBlock(ms[..n], c) == InsideBlock(ms, c)
  {
    var head := ms[..n];
    BlockEndPrefix(ms, n, c);
    assert head[c] == ms[c] && (c > 0 ==> head[c - 1] == ms[c - 1]);
    assert head[..c] == ms[..c] && head[..BlockEnd(head, c)] == ms[..BlockEnd(ms, c)];
  }

  /** The head of an open conversation, at a checkpoint before its open end, is that of the closed part. */
  lemma OpenHead(ms: Conversation, n: nat, c: nat)
    requires OpenAt(ms, n) && c < |ms| && c <= n
    ensures WellFormed(BeforeWindow(ms, c)) <==> !InsideBlock(ms, c)
  {
    if c == n {
      assert BeforeWindow(ms, c) == ms[..n];
    } else {
      HeadWindow(ms, n, c);
      BeforeWindowSafe(ms[..n], c);
    }
  }

  /** At a checkpoint behind the open message the head still has its unanswered call. */
  lemma OpenCall(ms: Conversation, n: nat, c: nat)
    requires OpenAt(ms, n) && n < c < |ms|
    ensures !WellFormed(BeforeWindow(ms, c))
  {
    var head := BeforeWindow(ms, c);
    FewerAnswers(ms, n);
    OpenAnswers(ms, n, c);
    assert head == ms[..c] || head == ms;
    WellFormedMeansNothingWrong(head);
    assert !Fine(head, n);
  }

  lemma OpenAnswers(ms: Conversation, n: nat, c: nat)
    requires OpenAt(ms, n) && n < c < |ms|
    ensures BlockEnd(ms, c) == |ms| && ms[..|ms|] == ms
    ensures c == n + 1 ==> BeforeWindow(ms, c) == ms
    ensures c > n + 1 ==> BeforeWindow(ms, c) == ms[..c] && Dangling(ms[..c], n)
  {
    FewerAnswers(ms, n);
    AllTools(ms[n + 1..], |ms| - n - 1);
    if c > n + 1 {
      TooFewAnswers(ms[..c], n);
    }
  }

  lemma TooFewAnswers(head: Conversation, n: nat)
    requires n < |head| && head[n].Assistant? && |head| - n - 1 < |head[n].toolCalls|
    ensures Dangling(head, n)
  {
    assert |Answered(head, n + 1)| < |head[n].toolCalls|;
    assert |multiset(Answered(head, n + 1))| < |multiset(head[n].toolCalls)|;
  }

  /** The tail of an open conversation is well-formed only when it starts behind the open message: then
      nothing is left of it. */
  lemma OpenTail(ms: Conversation, n: nat, c: nat)
    requires OpenAt(ms, n) && n < |ms| && c < |ms|
    ensures WellFormed(AfterWindow(ms, c)) <==> c > n
  {
    if c > n {
      assert ms[BlockEnd(ms, c)..] == [];
    } else {
      OpenStays(ms, n, BlockEnd(ms, c));
    }
  }

  /** A suffix that still has the open message has its unanswered call. */
  lemma OpenStays(ms: Conversation, n: nat, e: nat)
    requires OpenAt(ms, n) && e <= n < |ms|
    ensures !WellFormed(ms[e..])
  {
    SuffixFine(ms, e, n - e);
    FewerAnswers(ms, n);
    WellFormedMeansNothingWrong(ms[e..]);
    assert !Fine(ms, n);
  }

  /** Forking at any checkpoint, in range or not, keeping either side, a conversation that is complete
      (`n` is its length) or has a call open at `n`: exactly when the new member inherits a well-formed
      conversation. Of an open one, the head up to the call does, unless the checkpoint splits a result
      block, and the empty tail behind it. */
  lemma ForkSafe(live: Conversation, n: nat, checkpoint: Option<int>, keep: Keep)
    requires OpenAt(StripSystem(live), n)
    ensures WellFormed(Window(StripSystem(live), checkpoint, keep))
        <==> InheritsWell(StripSystem(live), n, checkpoint, keep)
  {
    var ms := StripSystem(live);
    if checkpoint.None? || !(0 <= checkpoint.value < |ms|) {
      WholeSafe(ms, n);
    } else if keep == After {
      AfterSafe(ms, n, checkpoint.value);
    } else {
      BeforeSafe(ms, n, checkpoint.value);
    }
  }

  predicate InheritsWell(ms: Conversation, n: nat, checkpoint: Option<int>, keep: Keep)
  {
    if checkpoint.None? || !(0 <= checkpoint.value < |ms|) then n == |ms|
    else if keep == After then n == |ms| || checkpoint.value > n
    else checkpoint.value <= n && !InsideBlock(ms, checkpoint.value)
  }

  lemma WholeSafe(ms: Conversation, n: nat)
    requires OpenAt(ms, n)
    ensures WellFormed(ms) <==> n == |ms|
  {
    if n < |ms| {
      OpenNotWellFormed(ms, n);
    } else {
      assert ms[..n] == ms;
    }
  }

  lemma AfterSafe(ms: Conversation, n: nat, c: nat)
    requires OpenAt(ms, n) && c < |ms|
    ensures WellFormed(AfterWindow(ms, c)) <==> n == |ms| || c > n
  {
    if n < |ms| {
      OpenTail(ms, n, c);
    } else {
      assert ms[..n] == ms;
      AfterWindowSafe(ms, c);
    }
  }

  lemma BeforeSafe(ms: Conversation, n: nat, c: nat)
    requires OpenAt(ms, n) && c < |ms|
    ensures WellFormed(BeforeWindow(ms, c)) <==> c <= n && !InsideBlock(ms, c)
  {
    if c <= n {
      OpenHead(ms, n, c);
    } else {
      OpenCall(ms, n, c);
    }
  }
}
