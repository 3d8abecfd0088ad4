/** Compacting one side of a forked conversation into a summary
    (openjiuwen/agent_teams/fork_compact.py). The summary text is the model's and stays opaque. */
module ForkCompact {
  import opened Fork

  datatype Direction = CompressHead | CompressTail

  /** The two sides of a compaction at `split`: what is kept verbatim and what is compressed. */
  function Kept(ms: Conversation, split: nat, direction: Direction): Conversation
    requires split < |ms|
  {
    if direction == CompressTail then ms[..BlockEnd(ms, split)] else ms[split..]
  }

  function Compressed(ms: Conversation, split: nat, direction: Direction): Conversation
    requires split < |ms|
  {
    if direction == CompressTail then ms[BlockEnd(ms, split)..] else ms[..split]
  }

  function SummaryMessage(summary: string): Message
  {
    User("[Compacted context \U{2014} earlier conversation summarised]\n\n" + summary)
  }

  /** The conversation after compaction. */
  function Compacted(ms: Conversation, split: nat, direction: Direction, summary: string): Conversation
    requires split < |ms|
  {
    if direction == CompressTail then Kept(ms, split, direction) + [SummaryMessage(summary)]
    else [SummaryMessage(summary)] + Kept(ms, split, direction)
  }

  /** The conversation in front of `e` or from `c` on, with a message in place of the rest that says what
      was summarised; `e` is where the results at `c` end. */
  ghost predicate Shortens(ms: Conversation, c: nat, direction: Direction, summarise: Conversation -> string,
                           r: Conversation)
    requires c < |ms|
  {
    var heading := "[Compacted context \U{2014} earlier conversation summarised]\n\n";
    exists e: nat :: EndsResults(ms, c, e) &&
      if direction.CompressTail? then r == ms[..e] + [User(heading + summarise(ms[e..]))]
      else r == [User(heading + summarise(ms[..c]))] + ms[c..]
  }

  lemma CompactedShortens(ms: Conversation, c: nat, direction: Direction, summarise: Conversation -> string)
    requires c < |ms|
    ensures Shortens(ms, c, direction, summarise,
                     Compacted(ms, c, direction, summarise(Compressed(ms, c, direction))))
  {
    assert EndsResults(ms, c, BlockEnd(ms, c));
  }

  /** The agent whose context engine holds the forked messages; the engine may be out of reach. */
  class Agent {
    var messages: Conversation
    const engineReachable: bool

    constructor (messages: Conversation, engineReachable: bool)
      ensures this.messages == messages && this.engineReachable == engineReachable
    {
      this.messages := messages;
      this.engineReachable := engineReachable;
    }

    /** `compact_context`; `summarise` stands for the model call. */
    method Compact(splitAt: int, direction: Direction, summarise: Conversation -> string)
      modifies this
      ensures var ms := StripSystem(old(messages));
              messages == if splitAt <= 0 || splitAt >= |ms| || !engineReachable then old(messages)
                          else Compacted(ms, splitAt, direction, summarise(Compressed(ms, splitAt, direction)))
      ensures var ms := StripSystem(old(messages));
              if 0 < splitAt < |ms| && engineReachable then Shortens(ms, splitAt, direction, summarise, messages)
              else messages == old(messages)
    {
      var ms := StripSystem(messages);
      if splitAt <= 0 || splitAt >= |ms| {
        return;
      }
      CompactedShortens(ms, splitAt, direction, summarise);
      var kept, toCompress;
      if direction == CompressTail {
        var headEnd := splitAt;
        while headEnd < |ms| && ms[headEnd].Tool?
          invariant splitAt <= headEnd <= |ms|
          invariant BlockEnd(ms, splitAt) == BlockEnd(ms, headEnd)
        {
          headEnd := headEnd + 1;
        }
        kept, toCompress := ms[..headEnd], ms[headEnd..];
      } else {
        kept, toCompress := ms[splitAt..], ms[..splitAt];
      }
      var summaryMessage := SummaryMessage(summarise(toCompress));
      var compacted := if direction == CompressTail then kept + [summaryMessage] else [summaryMessage] + kept;
      if engineReachable {
        messages := compacted;
      }
    }
  }

  /** The kept and the compressed side are contiguous and together the whole conversation. */
  lemma SidesPartition(ms: Conversation, split: nat, direction: Direction)
    requires split < |ms|
    ensures if direction == CompressTail then Kept(ms, split, direction) + Compressed(ms, split, direction) == ms
            else Compressed(ms, split, direction) + Kept(ms, split, direction) == ms
  {
    Rejoin(ms, split, split);
    Rejoin(ms, BlockEnd(ms, split), BlockEnd(ms, split));
  }

  /** Compressing the tail keeps the head a fork before the same index would inherit, exactly when
      the index does not split a result block; a call that is still open changes nothing in this. */
  lemma TailKeepsForkWindow(ms: Conversation, n: nat, split: nat)
    requires OpenAt(ms, n) && split < |ms|
    ensures Kept(ms, split, CompressTail) == BeforeWindow(ms, split) <==> !InsideBlock(ms, split)
  {
    if ms[split].Tool? && !InsideBlock(ms, split) {
      OpenBlockStart(ms, n, split);
    }
    if InsideBlock(ms, split) {
      assert BlockEnd(ms, split) > split;
    }
  }

  /** Compressing the head drops what a fork after the same index would not inherit, and keeps more
      exactly when the index is at a result. */
  lemma HeadKeepsForkWindow(ms: Conversation, split: nat)
    requires split < |ms|
    ensures Kept(ms, split, CompressHead) == AfterWindow(ms, split) <==> !ms[split].Tool?
  {
    assert ms[split].Tool? ==> |AfterWindow(ms, split)| < |Kept(ms, split, CompressHead)|;
  }

  lemma AppendUser(ms: Conversation, content: string)
    ensures WellFormed(ms + [User(content)]) <==> WellFormed(ms)
  {
    var r := ms + [User(content)];
    WellFormedMeansNothingWrong(ms);
    WellFormedMeansNothingWrong(r);
    assert r[..|ms|] == ms;
    forall i | 0 <= i < |ms| ensures Fine(r, i) <==> Fine(ms, i) {
      PrefixFine(r, |ms|, i);
    }
    assert Fine(r, |ms|);
    if WellFormed(r) {
      forall i | 0 <= i < |ms| ensures Fine(ms, i) {
        assert Fine(r, i);
      }
    }
  }

  /** Compressing the tail leaves a well-formed conversation exactly when the split index is not behind a
      call that is still open; inside a result block it is as safe as anywhere. A complete conversation,
      whose `n` is its length, has no such index. */
  lemma TailCompactionSafe(ms: Conversation, n: nat, split: nat, summary: string)
    requires OpenAt(ms, n) && split < |ms|
    ensures WellFormed(Compacted(ms, split, CompressTail, summary)) <==> n == |ms| || split <= n
  {
    AppendUser(ms[..BlockEnd(ms, split)], SummaryMessage(summary).content);
    KeptHeadSafe(ms, n, split);
  }

  lemma KeptHeadSafe(ms: Conversation, n: nat, split: nat)
    requires OpenAt(ms, n) && split < |ms|
    ensures WellFormed(ms[..BlockEnd(ms, split)]) <==> n == |ms| || split <= n
  {
    var e := BlockEnd(ms, split);
    if n == |ms| {
      assert ms[..n] == ms;
      PrefixWellFormed(ms, e);
    } else if split < n {
      KeptInFront(ms, n, split);
    } else if split > n {
      assert ms[..e] == ms;
      OpenNotWellFormed(ms, n);
    }
  }

  lemma KeptInFront(ms: Conversation, n: nat, split: nat)
    requires OpenAt(ms, n) && split < n < |ms|
    ensures WellFormed(ms[..BlockEnd(ms, split)])
  {
    var e, head := BlockEnd(ms, split), ms[..n];
    BlockEndPrefix(ms, n, split);
    assert e < n ==> head[e] == ms[e];
    PrefixWellFormed(head, e);
    assert head[..e] == ms[..e];
  }

  /** Compressing the head leaves one exactly when no call is open and the split index is not at a tool
      result. */
  lemma HeadCompactionSafe(ms: Conversation, n: nat, split: nat, summary: string)
    requires OpenAt(ms, n) && split < |ms|
    ensures WellFormed(Compacted(ms, split, CompressHead, summary)) <==> n == |ms| && !ms[split].Tool?
  {
    var r := Compacted(ms, split, CompressHead, summary);
    assert r[1..] == ms[split..];
    KeptTailSafe(ms, n, split);
  }

  lemma KeptTailSafe(ms: Conversation, n: nat, split: nat)
    requires OpenAt(ms, n) && split < |ms|
    ensures WellFormed(ms[split..]) <==> n == |ms| && !ms[split].Tool?
  {
    assert ms[split..][0] == ms[split];
    if ms[split].Tool? {
      assert !WellFormed(ms[split..]);
    } else if n == |ms| {
      assert ms[..n] == ms;
      SuffixWellFormed(ms, split);
    } else {
      OpenStays(ms, n, split);
    }
  }
}
