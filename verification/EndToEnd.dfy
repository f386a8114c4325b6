/** Tracker, node and consumer together: what the database holds after a successful query. */
module EndToEnd {
  import opened Types
  import opened Database
  import opened Replay
  import opened NodeAnswers
  import NodeHistory
  import Tracker

  // ----- consuming an epoch ----------------------------------------------------------------

  /** Every message is handled, and every block with the events it has itself. */
  ghost predicate Honest(entries: seq<Entry>, id: NetworkId, content: Content, sent: seq<Msg>) {
    && |entries| == |sent|
    && forall i :: 0 <= i < |sent| ==>
         && entries[i].id == id && entries[i].msg == sent[i] && !entries[i].reply.Disconnected?
         && (sent[i].Block? ==>
               entries[i].reply == Served(content(sent[i].header.hash).0, content(sent[i].header.hash).1))
  }

  lemma {:induction false} ConsumingIsReplaying(t: Tables, id: NetworkId, content: Content,
                                                entries: seq<Entry>, sent: seq<Msg>)
    requires Honest(entries, id, content, sent) && Tracker.Reset !in sent
    ensures ProcessedAll(t, entries) == ReplayBlocks(t, id, content, Tracker.Hashes(sent))
  {
    if sent != [] {
      var fewer, last := sent[..|sent| - 1], sent[|sent| - 1];
      ConsumingIsReplaying(t, id, content, entries[..|fewer|], fewer);
      assert sent == fewer + [last] && last != Tracker.Reset;
      Tracker.HashesOfSnoc(fewer, last);
      var entry := entries[|fewer|];
      var before := ReplayBlocks(t, id, content, Tracker.Hashes(fewer));
      assert ProcessedAll(t, entries) == Processed(before, id, last, entry.reply);
      if last.Block? {
        var hash := last.header.hash;
        ReplayBlocksSnoc(t, id, content, Tracker.Hashes(fewer), hash);
        assert entry.reply == Served(content(hash).0, content(hash).1);
      } else {
        assert Tracker.Hashes(sent) == Tracker.Hashes(fewer);
      }
    }
  }

  lemma {:induction false} HashesSkipReset(sent: seq<Msg>)
    requires sent != [] && sent[0] == Tracker.Reset
    ensures Tracker.Hashes(sent) == Tracker.Hashes(sent[1..])
  {
    if |sent| > 1 {
      assert sent[..|sent| - 1][1..] == sent[1..][..|sent| - 2];
      HashesSkipReset(sent[..|sent| - 1]);
    } else {
      assert sent[..0] == [];
    }
  }

  lemma {:induction false} OwnStartsWithFirst(entries: seq<Entry>, id: NetworkId)
    requires entries != [] && entries[0].id == id
    ensures Own(entries, id) != [] && Own(entries, id)[0] == entries[0]
    ensures Own(entries, id)[1..] == Own(entries[1..], id)
  {
    if |entries| > 1 {
      var fewer := entries[..|entries| - 1];
      assert fewer[1..] == entries[1..][..|entries| - 2];
      OwnStartsWithFirst(fewer, id);
    } else {
      assert entries[..0] == [];
    }
  }

  /** The whole of an epoch's messages, consumed from any database content. */
  lemma ConsumedEpochIsReplay(t: Tables, id: NetworkId, content: Content, entries: seq<Entry>, sent: seq<Msg>)
    requires OneDevnetPerChain(entries, id) && entries != [] && entries[0].id == id
    requires sent != [] && sent[0] == Tracker.Reset && Tracker.Reset !in sent[1..]
    requires Honest(Own(entries, id), id, content, sent)
    ensures Slice(ProcessedAll(t, entries), id) == ReplayBlocks(EMPTY, id, content, Tracker.Hashes(sent))
  {
    var own := Own(entries, id);
    OwnStartsWithFirst(entries, id);
    assert entries == [Entry(id, Tracker.Reset, entries[0].reply)] + entries[1..];
    ReplayConverges(t, id, entries[0].reply, entries[1..]);
    assert Honest(own[1..], id, content, sent[1..]);
    ConsumingIsReplaying(EMPTY, id, content, own[1..], sent[1..]);
    HashesSkipReset(sent);
  }

  /** Every epoch sends one reset, first. */
  lemma SentStartsWithReset(history: seq<NodeHistory.Chain>, turns: seq<Tracker.Turn>)
    requires Tracker.Timely(history, turns)
    ensures var sent := Tracker.After(history, turns).sent;
            sent != [] && sent[0] == Tracker.Reset && Tracker.Reset !in sent[1..]
  {
    hide Tracker.After, Tracker.Items;
    Tracker.SentIsPrefixOfStream(history, turns);
    Tracker.SentIsNotEmpty(history, turns);
    var sent, all := Tracker.After(history, turns).sent, [Tracker.Reset] + Tracker.ToMsgs(Tracker.Items(turns));
    forall i | 0 < i < |sent|
      ensures sent[i] != Tracker.Reset
    {
      assert sent[i] == all[i];
    }
  }

  // ----- the node's real answers -----------------------------------------------------------

  /** Every message is handled, each block with what the node answers at the moments it is asked. */
  ghost predicate AnsweredBy(history: seq<Chain>, moments: seq<Moments>, entries: seq<Entry>, id: NetworkId,
                             content: Content, memory: Memory, sent: seq<Msg>)
  {
    && |entries| == |sent| == |moments|
    && forall k :: 0 <= k < |sent| ==>
         && entries[k].id == id && entries[k].msg == sent[k] && !entries[k].reply.Disconnected?
         && (sent[k].Block? ==>
               && Ordered(history, moments[k])
               && entries[k].reply == ReplyAt(history, sent[k].header, moments[k], content, memory))
  }

  /** Messages are handled after they were sent and up to moment `now`. */
  ghost predicate HandledBy(at: seq<nat>, moments: seq<Moments>, now: nat) {
    && |moments| == |at|
    && forall k :: 0 <= k < |at| ==> at[k] <= moments[k].traced <= moments[k].logged <= now
  }

  /** Blocks found on the chain after they were handled were on it while they were handled. */
  lemma HandledBlocksAreTheirOwn(history: seq<Chain>, sent: seq<Msg>, at: seq<nat>, last: nat, now: nat,
                                 moments: seq<Moments>, entries: seq<Entry>, id: NetworkId,
                                 content: Content, memory: Memory)
    requires NodeHistory.Possible(history) && now < |history|
    requires Tracker.SentInOrder(history, sent, at, last) && HandledBy(at, moments, now)
    requires forall h :: Tracker.Emitted(sent, h) ==> NodeHistory.OnChain(history[now], h)
    requires AnsweredBy(history, moments, entries, id, content, memory, sent)
    ensures Honest(entries, id, content, sent)
  {
    forall k | 0 <= k < |sent| && sent[k].Block?
      ensures entries[k].reply == Served(content(sent[k].header.hash).0, content(sent[k].header.hash).1)
    {
      var h, m := sent[k].header, moments[k];
      assert Tracker.Emitted(sent, h);
      var fetched: nat :| fetched <= at[k] && NodeHistory.OnChain(history[fetched], h);
      NodeHistory.BlockPersists(history, fetched, now, h);
      assert NodeHistory.OnChain(history[m.traced], h) && NodeHistory.OnChain(history[m.logged], h);
    }
  }

  /** What the tracker promises end to end, for any previous database content, any activity on other
      chains and any node: once a checkpoint query succeeds after the messages sent so far were
      handled, the network's stored data is the replay from empty of the emitted blocks, all of them
      on the node's chain, if heights did not decrease; and the emitted blocks are a stretch of that
      chain from the first requested block if and only if the stream had no gap. */
  lemma StoredDataMirrorsChainIffGapless(
      history: seq<Chain>, turns: seq<Tracker.Turn>, i: nat, first: nat,
      t: Tables, id: NetworkId, content: Content, memory: Memory, entries: seq<Entry>, moments: seq<Moments>)
    requires Tracker.Faithful(history, turns) && i < |turns|
    requires Tracker.After(history, turns[..i]).status.Running?
    requires turns[i].Tick? && turns[i].reachable && Tracker.After(history, turns[..i + 1]).status.Running?
    requires OneDevnetPerChain(entries, id) && entries != [] && entries[0].id == id
    requires HandledBy(Tracker.SentAt(history, turns[..i]), moments, turns[i].now)
    requires AnsweredBy(history, moments, Own(entries, id), id, content, memory,
                        Tracker.After(history, turns[..i]).sent)
    ensures var sent := Tracker.After(history, turns[..i]).sent;
            && (Tracker.Ascending(Tracker.Heights(turns[..i])) ==>
                  && (forall h :: Tracker.Emitted(sent, h) ==> NodeHistory.OnChain(history[turns[i].now], h))
                  && Slice(ProcessedAll(t, entries), id) == ReplayBlocks(EMPTY, id, content, Tracker.Hashes(sent)))
            && (Tracker.IsSegment(Tracker.Hashes(sent), history[turns[i].now], first)
                <==> Tracker.Consecutive(Tracker.Heights(turns[..i]), first))
  {
    hide Tracker.After, Tracker.Heights, Tracker.Ascending, Tracker.SentAt, Tracker.SentInOrder, NodeHistory.Possible;
    hide Slice, ProcessedAll, ReplayBlocks, Honest, AnsweredBy, HandledBy;
    Tracker.EpochMirrorsChainIffGapless(history, turns, i, first);
    if Tracker.Ascending(Tracker.Heights(turns[..i])) {
      var sent, at := Tracker.After(history, turns[..i]).sent, Tracker.SentAt(history, turns[..i]);
      Tracker.QueriedEpochIsOnChain(history, turns, i);
      Tracker.BlocksAreSentInOrder(history, turns[..i]);
      HandledBlocksAreTheirOwn(history, sent, at, Tracker.LastMoment(turns[..i]), turns[i].now, moments,
                               Own(entries, id), id, content, memory);
      SentStartsWithReset(history, turns[..i]);
      ConsumedEpochIsReplay(t, id, content, entries, sent);
    }
  }
}
