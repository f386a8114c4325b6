/** When stored data converges to a replay of the network's own messages, and when it does not: the
    work of other consumers that comes after a reset. */
module Convergence {
  import opened Types
  import opened Database
  import opened Replay
  import opened NodeAnswers
  import NodeHistory
  import Ledger
  import Tracker

  /** A message on its way to the tables, and the network whose consumer handles it. */
  datatype Emission = Emission(id: NetworkId, msg: Msg)

  // ----- a second devnet on the same chain id ----------------------------------------------

  predicate IsSibling(a: NetworkId, id: NetworkId) {
    a.chain == id.chain && a != id
  }

  function WithReplies(work: seq<Emission>, replies: seq<Reply>): (entries: seq<Entry>)
    requires |replies| == |work|
    ensures |entries| == |work|
  {
    seq(|work|, i requires 0 <= i < |work| => Entry(work[i].id, work[i].msg, replies[i]))
  }

  ghost predicate Converges(t: Tables, id: NetworkId, reply: Reply, entries: seq<Entry>) {
    Slice(ProcessedAll(t, [Entry(id, Tracker.Reset, reply)] + entries), id) == ProcessedAll(EMPTY, Own(entries, id))
  }

  /** No sibling handles a block, and none a reset once the network itself handled a block. */
  ghost predicate Undisturbed(work: seq<Emission>, id: NetworkId) {
    && (forall i :: 0 <= i < |work| && IsSibling(work[i].id, id) ==> !work[i].msg.Block?)
    && (forall i, k :: 0 <= i < k < |work| && work[i].id == id && work[i].msg.Block? && IsSibling(work[k].id, id) ==>
          !work[k].msg.Reset?)
  }

  lemma AfterReset(t: Tables, id: NetworkId, reply: Reply, entries: seq<Entry>)
    requires !reply.Disconnected?
    ensures Slice(Truncated(t, id), id) == EMPTY
    ensures ProcessedAll(t, [Entry(id, Tracker.Reset, reply)] + entries) == ProcessedAll(Truncated(t, id), entries)
  {
    var reset := [Entry(id, Tracker.Reset, reply)];
    assert reset[..0] == [];
    assert ProcessedAll(t, reset) == Truncated(t, id);
    ProcessedAllSplits(t, reset, entries);
  }

  lemma EntriesOfSnoc(t: Tables, id: NetworkId, fewer: seq<Entry>, e: Entry)
    ensures ProcessedAll(t, fewer + [e]) == Processed(ProcessedAll(t, fewer), e.id, e.msg, e.reply)
    ensures ProcessedAll(t, Own(fewer + [e], id))
            == if e.id == id then Processed(ProcessedAll(t, Own(fewer, id)), id, e.msg, e.reply)
               else ProcessedAll(t, Own(fewer, id))
  {
    hide Processed;
    assert (fewer + [e])[..|fewer|] == fewer;
    if e.id == id {
      assert (Own(fewer, id) + [e])[..|Own(fewer, id)|] == Own(fewer, id);
    } else {
      assert Own(fewer, id) + [] == Own(fewer, id);
    }
  }

  /** What one message does to the network's part of the tables. */
  lemma UndisturbedStep(t: Tables, id: NetworkId, own: Tables, e: Entry)
    requires Slice(t, id) == own
    requires IsSibling(e.id, id) ==> !e.msg.Block? && (e.msg.Reset? ==> own == EMPTY)
    ensures Slice(Processed(t, e.id, e.msg, e.reply), id)
            == if e.id == id then Processed(own, id, e.msg, e.reply) else own
  {
    if e.id == id {
      SliceOfProcessed(t, id, e.msg, e.reply);
    } else if !IsSibling(e.id, id) {
      OtherSliceOfProcessed(t, e.id, id, e.msg, e.reply);
    } else if e.msg.Reset? {
      SiblingResetErases(t, id, e.id);
    }
  }

  ghost predicate NoOwnBlock(work: seq<Emission>, id: NetworkId) {
    forall i :: 0 <= i < |work| && work[i].id == id ==> !work[i].msg.Block?
  }

  lemma RepliesOfSnoc(work: seq<Emission>, replies: seq<Reply>)
    requires |replies| == |work| && work != []
    ensures var n := |work| - 1;
            WithReplies(work, replies)
            == WithReplies(work[..n], replies[..n]) + [Entry(work[n].id, work[n].msg, replies[n])]
  {
  }

  lemma NothingFromNothing(id: NetworkId, msg: Msg, reply: Reply)
    requires !msg.Block?
    ensures Processed(EMPTY, id, msg, reply) == EMPTY
  {
  }

  lemma {:induction false} NoOwnBlockNothingStored(id: NetworkId, work: seq<Emission>, replies: seq<Reply>)
    requires |replies| == |work| && NoOwnBlock(work, id)
    ensures ProcessedAll(EMPTY, Own(WithReplies(work, replies), id)) == EMPTY
  {
    if work == [] {
      assert Own(WithReplies(work, replies), id) == [];
    } else {
      hide Processed, ProcessedAll, Own, WithReplies;
      var n := |work| - 1;
      var fewer, e := WithReplies(work[..n], replies[..n]), Entry(work[n].id, work[n].msg, replies[n]);
      NoOwnBlockNothingStored(id, work[..n], replies[..n]);
      RepliesOfSnoc(work, replies);
      EntriesOfSnoc(EMPTY, id, fewer, e);
      if e.id == id {
        NothingFromNothing(id, e.msg, e.reply);
      }
    }
  }

  lemma {:induction false} UndisturbedWorkConverges(t: Tables, id: NetworkId, work: seq<Emission>, replies: seq<Reply>)
    requires |replies| == |work| && Slice(t, id) == EMPTY && Undisturbed(work, id)
    ensures Slice(ProcessedAll(t, WithReplies(work, replies)), id)
            == ProcessedAll(EMPTY, Own(WithReplies(work, replies), id))
  {
    if work == [] {
      assert Own(WithReplies(work, replies), id) == [];
    } else {
      hide Processed, ProcessedAll, Own, WithReplies, Slice;
      var n := |work| - 1;
      var fewer, e := WithReplies(work[..n], replies[..n]), Entry(work[n].id, work[n].msg, replies[n]);
      UndisturbedWorkConverges(t, id, work[..n], replies[..n]);
      RepliesOfSnoc(work, replies);
      EntriesOfSnoc(t, id, fewer, e);
      EntriesOfSnoc(EMPTY, id, fewer, e);
      if IsSibling(e.id, id) && e.msg.Reset? {
        NoOwnBlockNothingStored(id, work[..n], replies[..n]);
      }
      UndisturbedStep(ProcessedAll(t, fewer), id, ProcessedAll(EMPTY, Own(fewer, id)), e);
    }
  }

  /** Only entry `active` reaches the tables. */
  lemma {:induction false} OneActive(t: Tables, entries: seq<Entry>, active: nat)
    requires forall i :: 0 <= i < |entries| && i != active ==> entries[i].reply.Disconnected?
    ensures ProcessedAll(t, entries)
            == if active < |entries|
               then Processed(t, entries[active].id, entries[active].msg, entries[active].reply) else t
  {
    if entries != [] {
      OneActive(t, entries[..|entries| - 1], active);
    }
  }

  lemma {:induction false} OneOwnActive(t: Tables, id: NetworkId, entries: seq<Entry>, active: nat)
    requires forall i :: 0 <= i < |entries| && i != active && entries[i].id == id ==> entries[i].reply.Disconnected?
    ensures ProcessedAll(t, Own(entries, id))
            == if active < |entries| && entries[active].id == id
               then Processed(t, id, entries[active].msg, entries[active].reply) else t
  {
    if entries == [] {
      assert Own(entries, id) == [];
    } else {
      hide ProcessedAll, Own;
      var fewer, last := entries[..|entries| - 1], entries[|entries| - 1];
      OneOwnActive(t, id, fewer, active);
      assert entries == fewer + [last];
      EntriesOfSnoc(t, id, fewer, last);
    }
  }

  const ONE_TX: Reply := Served([Tx(0, "", 0)], [])

  lemma OneTxIsStored(t: Tables, id: NetworkId, msg: Msg)
    requires msg.Block?
    ensures TxKey(0, id.chain, "") in Processed(t, id, msg, ONE_TX).transactions
  {
    var event := Tx(0, "", 0);
    assert [event][..0] == [] && SavedAll(t, id, []) == Saved(t, true);
    assert SavedAll(t, id, [event]).ok;
    assert SavedAll(SavedAll(t, id, [event]).tables, id, []) == Saved(SavedAll(t, id, [event]).tables, true);
  }

  function Replies(n: nat, a: nat, forA: Reply, b: nat, forB: Reply): (replies: seq<Reply>)
    ensures |replies| == n
    ensures forall i :: 0 <= i < n ==>
              replies[i] == if i == a then forA else if i == b then forB else Disconnected
  {
    seq(n, i => if i == a then forA else if i == b then forB else Disconnected)
  }

  /** A block of a sibling leaves a transaction that no replay of the network's own messages has. */
  lemma SiblingBlockDisturbs(t: Tables, id: NetworkId, reply: Reply, work: seq<Emission>, j: nat)
    requires !reply.Disconnected? && j < |work| && IsSibling(work[j].id, id) && work[j].msg.Block?
    ensures !Converges(t, id, reply, WithReplies(work, Replies(|work|, j, ONE_TX, j, ONE_TX)))
  {
    var entries := WithReplies(work, Replies(|work|, j, ONE_TX, j, ONE_TX));
    AfterReset(t, id, reply, entries);
    OneActive(Truncated(t, id), entries, j);
    OneTxIsStored(Truncated(t, id), work[j].id, work[j].msg);
    OneOwnActive(EMPTY, id, entries, j);
    assert TxKey(0, id.chain, "") in Slice(ProcessedAll(Truncated(t, id), entries), id).transactions;
  }

  /** A sibling's reset erases a transaction that a replay of the network's own messages has. */
  lemma SiblingResetDisturbs(t: Tables, id: NetworkId, reply: Reply, work: seq<Emission>, i: nat, k: nat)
    requires !reply.Disconnected? && i < k < |work|
    requires work[i].id == id && work[i].msg.Block? && IsSibling(work[k].id, id) && work[k].msg.Reset?
    ensures !Converges(t, id, reply, WithReplies(work, Replies(|work|, i, ONE_TX, k, Unavailable)))
  {
    var entries := WithReplies(work, Replies(|work|, i, ONE_TX, k, Unavailable));
    var start := Truncated(t, id);
    AfterReset(t, id, reply, entries);
    OneActive(start, entries[..k], i);
    var middle := ProcessedAll(start, entries[..k]);
    OneActive(middle, entries[k..], 0);
    assert entries == entries[..k] + entries[k..];
    ProcessedAllSplits(start, entries[..k], entries[k..]);
    assert ProcessedAll(start, entries) == Truncated(middle, work[k].id);
    SiblingResetErases(middle, id, work[k].id);
    OneOwnActive(EMPTY, id, entries, i);
    OneTxIsStored(EMPTY, id, work[i].msg);
  }

  /** Whatever the database held, the work that follows a reset leaves the replay of the network's
      own messages for all answers of the nodes, if and only if no sibling on the same chain id
      handles a block in it, nor a reset after a block of the network itself. */
  lemma ConvergesIffUndisturbed(t: Tables, id: NetworkId, reply: Reply, work: seq<Emission>)
    requires !reply.Disconnected?
    ensures (forall replies :: |replies| == |work| ==> Converges(t, id, reply, WithReplies(work, replies)))
            <==> Undisturbed(work, id)
  {
    if Undisturbed(work, id) {
      forall replies | |replies| == |work|
        ensures Converges(t, id, reply, WithReplies(work, replies))
      {
        AfterReset(t, id, reply, WithReplies(work, replies));
        UndisturbedWorkConverges(Truncated(t, id), id, work, replies);
      }
    } else if j :| 0 <= j < |work| && IsSibling(work[j].id, id) && work[j].msg.Block? {
      SiblingBlockDisturbs(t, id, reply, work, j);
    } else {
      var i, k :| 0 <= i < k < |work| && work[i].id == id && work[i].msg.Block? && IsSibling(work[k].id, id)
                  && work[k].msg.Reset?;
      SiblingResetDisturbs(t, id, reply, work, i, k);
    }
  }

  // ----- a consumer of an earlier epoch, and blocks replaced before they are handled ----------

  /** A message on the tables: one of the network's own, emitted by an epoch and answered by its node
      at some moments, or an entry of another network. */
  datatype Work = Mine(epoch: nat, msg: Msg, moments: Moments) | Foreign(entry: Entry)

  predicate IsBlock(w: Work) {
    w.Mine? && w.msg.Block?
  }

  function Answer(history: seq<Chain>, id: NetworkId, content: Content, memory: Memory, w: Work): Entry
    requires IsBlock(w) ==> Ordered(history, w.moments)
  {
    match w
    case Foreign(entry) => entry
    case Mine(_, msg, moments) =>
      Entry(id, msg, if msg.Block? then ReplyAt(history, msg.header, moments, content, memory) else Served([], []))
  }

  ghost predicate AllOrdered(history: seq<Chain>, work: seq<Work>) {
    forall i :: 0 <= i < |work| && IsBlock(work[i]) ==> Ordered(history, work[i].moments)
  }

  ghost function Answers(history: seq<Chain>, id: NetworkId, content: Content, memory: Memory, work: seq<Work>)
    : seq<Entry>
    requires AllOrdered(history, work)
  {
    if work == [] then []
    else
      Answers(history, id, content, memory, work[..|work| - 1])
      + [Answer(history, id, content, memory, work[|work| - 1])]
  }

  /** The hashes of the blocks that an epoch emitted. */
  function EpochHashes(work: seq<Work>, epoch: nat): (hashes: seq<Hash>)
    ensures |hashes| <= |work|
  {
    if work == [] then []
    else
      var last := work[|work| - 1];
      EpochHashes(work[..|work| - 1], epoch)
      + if IsBlock(last) && last.epoch == epoch then [last.msg.header.hash] else []
  }

  /** A block of the newest epoch is still on the chain when its logs are asked for; the node has no
      block at all for one of an earlier epoch. */
  ghost predicate Harmless(history: seq<Chain>, w: Work, epoch: nat)
    requires IsBlock(w) ==> Ordered(history, w.moments)
  {
    IsBlock(w) ==>
      if w.epoch == epoch then NodeHistory.OnChain(history[w.moments.logged], w.msg.header)
      else |history[w.moments.traced]| <= w.msg.header.number
  }

  ghost predicate AllHarmless(history: seq<Chain>, work: seq<Work>, epoch: nat)
    requires AllOrdered(history, work)
  {
    forall i :: 0 <= i < |work| ==> Harmless(history, work[i], epoch)
  }

  /** After the reset: no other devnet on the chain id, no further reset of this one, and blocks
      asked for after the node had them. */
  ghost predicate FollowsReset(history: seq<Chain>, work: seq<Work>, id: NetworkId) {
    && NodeHistory.Possible(history)
    && forall i :: 0 <= i < |work| ==>
         match work[i]
         case Foreign(entry) => entry.id.chain != id.chain
         case Mine(_, msg, moments) => !msg.Reset? && (msg.Block? ==> AskedAfter(history, msg.header, moments))
  }

  lemma PrefixFollowsReset(history: seq<Chain>, work: seq<Work>, id: NetworkId, n: nat)
    requires FollowsReset(history, work, id) && n <= |work|
    ensures AllOrdered(history, work) && AllOrdered(history, work[..n]) && FollowsReset(history, work[..n], id)
  {
  }

  lemma {:induction false} AnswersAreOneDevnet(history: seq<Chain>, id: NetworkId, content: Content,
                                               memory: Memory, work: seq<Work>)
    requires FollowsReset(history, work, id)
    ensures AllOrdered(history, work) && OneDevnetPerChain(Answers(history, id, content, memory, work), id)
  {
    if work != [] {
      PrefixFollowsReset(history, work, id, |work| - 1);
      AnswersAreOneDevnet(history, id, content, memory, work[..|work| - 1]);
    }
  }

  /** What one more message adds to the network's own replay. */
  lemma OwnAnswersOfSnoc(history: seq<Chain>, id: NetworkId, content: Content, memory: Memory, work: seq<Work>)
    requires work != [] && FollowsReset(history, work, id)
    ensures AllOrdered(history, work) && AllOrdered(history, work[..|work| - 1])
    ensures var before := ProcessedAll(EMPTY, Own(Answers(history, id, content, memory, work[..|work| - 1]), id));
            var last := work[|work| - 1];
            ProcessedAll(EMPTY, Own(Answers(history, id, content, memory, work), id))
            == if IsBlock(last)
               then Processed(before, id, last.msg, ReplyAt(history, last.msg.header, last.moments, content, memory))
               else before
  {
    PrefixFollowsReset(history, work, id, |work| - 1);
    var last := work[|work| - 1];
    EntriesOfSnoc(EMPTY, id, Answers(history, id, content, memory, work[..|work| - 1]),
                  Answer(history, id, content, memory, last));
    hide ProcessedAll, Own, ReplyAt, BlockSaved;
  }

  lemma {:induction false} HarmlessAnswersReplay(history: seq<Chain>, id: NetworkId, epoch: nat, content: Content,
                                                 memory: Memory, work: seq<Work>)
    requires FollowsReset(history, work, id) && AllOrdered(history, work) && AllHarmless(history, work, epoch)
    ensures ProcessedAll(EMPTY, Own(Answers(history, id, content, memory, work), id))
            == ReplayBlocks(EMPTY, id, content, EpochHashes(work, epoch))
  {
    if work == [] {
      assert Own(Answers(history, id, content, memory, work), id) == [];
    } else {
      var fewer, last := work[..|work| - 1], work[|work| - 1];
      PrefixFollowsReset(history, work, id, |work| - 1);
      HarmlessAnswersReplay(history, id, epoch, content, memory, fewer);
      OwnAnswersOfSnoc(history, id, content, memory, work);
      assert Harmless(history, last, epoch);
      hide ProcessedAll, Own, ReplayBlocks, BlockSaved, Answers, FollowsReset;
      if IsBlock(last) && last.epoch == epoch {
        ReplyIsEmittedIffStillThere(history, last.msg.header, last.moments);
        ReplayBlocksSnoc(EMPTY, id, content, EpochHashes(fewer, epoch), last.msg.header.hash);
      } else {
        assert EpochHashes(work, epoch) == EpochHashes(fewer, epoch);
      }
    }
  }

  // ----- telling the difference ------------------------------------------------------------

  /** Every block's logs mint one unit of one token to one owner. */
  function Minting(): Content {
    (h: Hash) => ([], [ERC20Transfer(0, Ledger.Transfer(Ledger.ZERO_ADDRESS, 1, 1))])
  }

  /** What the node may remember of a block that is not on its chain: nothing, or all its logs. */
  function Remembering(all: bool): Memory {
    (h: Hash) => if all then Some(Minting()(h).1) else None
  }

  predicate IsAnswered(history: seq<Chain>, all: bool, w: Work)
    requires IsBlock(w) ==> Ordered(history, w.moments)
  {
    IsBlock(w) && ReplyAt(history, w.msg.header, w.moments, Minting(), Remembering(all)).Served?
  }

  lemma MintSaved(t: Tables, id: NetworkId, h: Hash)
    ensures BlockSaved(t, id, Minting()(h).0, Minting()(h).1).tables
            == t.(balances := Credited(t.balances, id.chain, 0, Ledger.Transfer(Ledger.ZERO_ADDRESS, 1, 1)))
  {
    var mint := ERC20Transfer(0, Ledger.Transfer(Ledger.ZERO_ADDRESS, 1, 1));
    assert [mint][..0] == [];
    assert SavedAll(t, id, []) == Saved(t, true);
    assert SavedAll(t, id, [mint]).ok;
  }

  function Minted(t: Tables, id: NetworkId): nat {
    var row := Read(t.balances, id.chain, 0, 1);
    if row.Some? then row.value else 0
  }

  lemma MintAddsOne(t: Tables, id: NetworkId, h: Hash)
    requires Minted(t, id) + 1 < Ledger.U256_RANGE
    ensures Minted(BlockSaved(t, id, Minting()(h).0, Minting()(h).1).tables, id) == Minted(t, id) + 1
  {
    MintSaved(t, id, h);
  }

  lemma {:induction false} MintsAreCounted(id: NetworkId, hashes: seq<Hash>)
    requires |hashes| < Ledger.U256_RANGE
    ensures Minted(ReplayBlocks(EMPTY, id, Minting(), hashes), id) == |hashes|
  {
    if hashes != [] {
      var fewer := hashes[..|hashes| - 1];
      MintsAreCounted(id, fewer);
      MintAddsOne(ReplayBlocks(EMPTY, id, Minting(), fewer), id, hashes[|fewer|]);
    }
  }

  /** How many of the network's blocks such a node answers for. */
  ghost function AnsweredCount(history: seq<Chain>, all: bool, work: seq<Work>): (n: nat)
    requires AllOrdered(history, work)
    ensures n <= |work|
  {
    if work == [] then 0
    else
      AnsweredCount(history, all, work[..|work| - 1]) + if IsAnswered(history, all, work[|work| - 1]) then 1 else 0
  }

  lemma AnswerMints(history: seq<Chain>, id: NetworkId, all: bool, before: Tables, w: Work)
    requires IsBlock(w) && Ordered(history, w.moments) && Minted(before, id) + 1 < Ledger.U256_RANGE
    ensures Minted(Processed(before, id, w.msg,
                             ReplyAt(history, w.msg.header, w.moments, Minting(), Remembering(all))), id)
            == Minted(before, id) + if IsAnswered(history, all, w) then 1 else 0
  {
    hide Minted, BlockSaved;
    MintAddsOne(before, id, w.msg.header.hash);
    if IsAnswered(history, all, w) {
      var hash := w.msg.header.hash;
      assert ReplyAt(history, w.msg.header, w.moments, Minting(), Remembering(all))
             == Served(Minting()(hash).0, Minting()(hash).1);
    }
  }

  lemma {:induction false} AnswersAreCounted(history: seq<Chain>, id: NetworkId, all: bool, work: seq<Work>)
    requires FollowsReset(history, work, id) && AllOrdered(history, work) && |work| < Ledger.U256_RANGE
    ensures Minted(ProcessedAll(EMPTY, Own(Answers(history, id, Minting(), Remembering(all), work), id)), id)
            == AnsweredCount(history, all, work)
  {
    if work == [] {
      assert Own(Answers(history, id, Minting(), Remembering(all), work), id) == [];
    } else {
      hide ProcessedAll, Processed, Own, Answers, FollowsReset, Minted, ReplyAt, Minting, Remembering, IsAnswered;
      var fewer, last := work[..|work| - 1], work[|work| - 1];
      PrefixFollowsReset(history, work, id, |work| - 1);
      AnswersAreCounted(history, id, all, fewer);
      OwnAnswersOfSnoc(history, id, Minting(), Remembering(all), work);
      if IsBlock(last) {
        AnswerMints(history, id, all,
                    ProcessedAll(EMPTY, Own(Answers(history, id, Minting(), Remembering(all), fewer), id)), last);
      } else {
        OnlyBlocksAreAnswered(history, all, last);
      }
    }
  }

  lemma OnlyBlocksAreAnswered(history: seq<Chain>, all: bool, w: Work)
    requires !IsBlock(w)
    ensures !IsAnswered(history, all, w)
  {
  }

  // ----- exactly when the work converges ---------------------------------------------------

  /** The stored data is the replay of the newest epoch's blocks, whatever blocks contain and
      whatever the node remembers. */
  ghost predicate Mirrors(history: seq<Chain>, t: Tables, id: NetworkId, epoch: nat, reply: Reply, work: seq<Work>)
    requires AllOrdered(history, work)
  {
    forall content: Content, memory: Memory ::
      Slice(ProcessedAll(t, [Entry(id, Tracker.Reset, reply)] + Answers(history, id, content, memory, work)), id)
      == ReplayBlocks(EMPTY, id, content, EpochHashes(work, epoch))
  }

  /** It is so after every message of the work. */
  ghost predicate AlwaysMirrors(history: seq<Chain>, t: Tables, id: NetworkId, epoch: nat, reply: Reply,
                                work: seq<Work>)
    requires AllOrdered(history, work)
  {
    forall n :: 0 <= n <= |work| ==> AllOrdered(history, work[..n]) && Mirrors(history, t, id, epoch, reply, work[..n])
  }

  lemma StoredIsOwnAnswers(history: seq<Chain>, t: Tables, id: NetworkId, reply: Reply, work: seq<Work>,
                           content: Content, memory: Memory)
    requires !reply.Disconnected? && FollowsReset(history, work, id)
    ensures AllOrdered(history, work)
    ensures Slice(ProcessedAll(t, [Entry(id, Tracker.Reset, reply)] + Answers(history, id, content, memory, work)), id)
            == ProcessedAll(EMPTY, Own(Answers(history, id, content, memory, work), id))
  {
    AnswersAreOneDevnet(history, id, content, memory, work);
    ReplayConverges(t, id, reply, Answers(history, id, content, memory, work));
  }

  lemma HarmlessWorkMirrors(history: seq<Chain>, t: Tables, id: NetworkId, epoch: nat, reply: Reply, work: seq<Work>)
    requires !reply.Disconnected? && FollowsReset(history, work, id)
    requires AllOrdered(history, work) && AllHarmless(history, work, epoch)
    ensures Mirrors(history, t, id, epoch, reply, work)
  {
    forall content: Content, memory: Memory
      ensures Slice(ProcessedAll(t, [Entry(id, Tracker.Reset, reply)]
                                    + Answers(history, id, content, memory, work)), id)
              == ReplayBlocks(EMPTY, id, content, EpochHashes(work, epoch))
    {
      StoredIsOwnAnswers(history, t, id, reply, work, content, memory);
      HarmlessAnswersReplay(history, id, epoch, content, memory, work);
    }
  }

  lemma MirroringCounts(history: seq<Chain>, t: Tables, id: NetworkId, epoch: nat, reply: Reply, work: seq<Work>,
                        all: bool)
    requires !reply.Disconnected? && FollowsReset(history, work, id) && |work| < Ledger.U256_RANGE
    requires AllOrdered(history, work) && Mirrors(history, t, id, epoch, reply, work)
    ensures AnsweredCount(history, all, work) == |EpochHashes(work, epoch)|
  {
    StoredIsOwnAnswers(history, t, id, reply, work, Minting(), Remembering(all));
    AnswersAreCounted(history, id, all, work);
    MintsAreCounted(id, EpochHashes(work, epoch));
  }

  lemma CountsOfSnoc(history: seq<Chain>, all: bool, epoch: nat, work: seq<Work>, n: nat)
    requires AllOrdered(history, work) && n < |work|
    ensures AllOrdered(history, work[..n]) && AllOrdered(history, work[..n + 1])
    ensures AnsweredCount(history, all, work[..n + 1])
            == AnsweredCount(history, all, work[..n]) + if IsAnswered(history, all, work[n]) then 1 else 0
    ensures |EpochHashes(work[..n + 1], epoch)|
            == |EpochHashes(work[..n], epoch)| + if IsBlock(work[n]) && work[n].epoch == epoch then 1 else 0
  {
    hide IsAnswered;
    assert work[..n + 1][..n] == work[..n];
  }

  lemma AnsweredIffStillThere(history: seq<Chain>, w: Work)
    requires IsBlock(w) && NodeHistory.Possible(history) && AskedAfter(history, w.msg.header, w.moments)
    ensures IsAnswered(history, false, w) <==> NodeHistory.OnChain(history[w.moments.logged], w.msg.header)
    ensures IsAnswered(history, true, w) <==> w.msg.header.number < |history[w.moments.traced]|
  {
    if w.msg.header.hash in history[w.moments.logged] {
      StillThereWhenAsked(history, w.msg.header, w.moments);
    }
  }

  lemma AlwaysMirroringIsHarmless(history: seq<Chain>, t: Tables, id: NetworkId, epoch: nat, reply: Reply,
                                  work: seq<Work>, n: nat)
    requires !reply.Disconnected? && FollowsReset(history, work, id) && |work| < Ledger.U256_RANGE
    requires AllOrdered(history, work) && AlwaysMirrors(history, t, id, epoch, reply, work) && n < |work|
    ensures Harmless(history, work[n], epoch)
  {
    if IsBlock(work[n]) {
      AnsweredIffStillThere(history, work[n]);
      hide Mirrors, IsAnswered, AnsweredCount, EpochHashes, NodeHistory.Possible, NodeHistory.OnChain;
      PrefixFollowsReset(history, work, id, n);
      PrefixFollowsReset(history, work, id, n + 1);
      forall all: bool
        ensures IsAnswered(history, all, work[n]) <==> work[n].epoch == epoch
      {
        MirroringCounts(history, t, id, epoch, reply, work[..n], all);
        MirroringCounts(history, t, id, epoch, reply, work[..n + 1], all);
        CountsOfSnoc(history, all, epoch, work, n);
      }
      assert IsAnswered(history, false, work[n]) <==> work[n].epoch == epoch;
      assert IsAnswered(history, true, work[n]) <==> work[n].epoch == epoch;
    }
  }

  /** With one devnet per chain id, the stored data is at every moment after a network's newest reset
      exactly the replay of the blocks its newest epoch emitted so far, whatever blocks contain and
      whatever the node remembers, if and only if every block of that epoch is still on the chain when
      its logs are asked for, and the node has nothing to answer for any block of an earlier epoch. */
  lemma MirrorsIffHarmless(history: seq<Chain>, t: Tables, id: NetworkId, epoch: nat, reply: Reply, work: seq<Work>)
    requires !reply.Disconnected? && FollowsReset(history, work, id) && |work| < Ledger.U256_RANGE
    ensures AllOrdered(history, work)
    ensures AlwaysMirrors(history, t, id, epoch, reply, work) <==> AllHarmless(history, work, epoch)
  {
    PrefixFollowsReset(history, work, id, |work|);
    hide Mirrors, Harmless, FollowsReset;
    if AllHarmless(history, work, epoch) {
      forall n | 0 <= n <= |work|
        ensures AllOrdered(history, work[..n]) && Mirrors(history, t, id, epoch, reply, work[..n])
      {
        PrefixFollowsReset(history, work, id, n);
        assert AllHarmless(history, work[..n], epoch);
        HarmlessWorkMirrors(history, t, id, epoch, reply, work[..n]);
      }
    } else if AlwaysMirrors(history, t, id, epoch, reply, work) {
      var n :| 0 <= n < |work| && !Harmless(history, work[n], epoch);
      AlwaysMirroringIsHarmless(history, t, id, epoch, reply, work, n);
    }
  }

  // ----- why at every moment ---------------------------------------------------------------

  /** A chain that loses its block 1. */
  function Shrinking(): (history: seq<Chain>)
    ensures |history| == 2
  {
    [[0, 1], [0]]
  }

  /** An earlier epoch's consumer handles block 1 in time, the newest epoch's one too late. */
  function LateAndStale(): (work: seq<Work>)
    ensures |work| == 2
  {
    [Mine(0, Tracker.Block(NodeHistory.Header(1, 1)), Moments(0, 0)),
     Mine(1, Tracker.Block(NodeHistory.Header(1, 1)), Moments(1, 1))]
  }

  lemma LateAndStaleFollowsReset(id: NetworkId)
    ensures FollowsReset(Shrinking(), LateAndStale(), id)
  {
    var history := Shrinking();
    assert history[1] <= history[0];
    assert NodeHistory.OnChain(history[0], NodeHistory.Header(1, 1));
  }

  /** In the end, a block of an earlier epoch and a late one of the newest can make up for each
      other. */
  lemma TwoWrongsCancel(t: Tables, id: NetworkId, reply: Reply)
    requires !reply.Disconnected?
    ensures FollowsReset(Shrinking(), LateAndStale(), id) && AllOrdered(Shrinking(), LateAndStale())
    ensures !Harmless(Shrinking(), LateAndStale()[0], 1) && !Harmless(Shrinking(), LateAndStale()[1], 1)
    ensures Mirrors(Shrinking(), t, id, 1, reply, LateAndStale())
  {
    var history, work := Shrinking(), LateAndStale();
    LateAndStaleFollowsReset(id);
    PrefixFollowsReset(history, work, id, 2);
    PrefixFollowsReset(history, work, id, 1);
    assert IsBlock(work[0]) && work[0].epoch == 0 && IsBlock(work[1]);
    assert history[1] == [0];
    assert work[..1][..0] == [];
    assert EpochHashes(work[..1], 1) == EpochHashes([], 1) + [] == [];
    assert EpochHashes(work, 1) == EpochHashes(work[..1], 1) + [1];
    assert [] + [1] == [1];
    forall content: Content, memory: Memory
      ensures Slice(ProcessedAll(t, [Entry(id, Tracker.Reset, reply)]
                                    + Answers(history, id, content, memory, work)), id)
              == ReplayBlocks(EMPTY, id, content, [1])
    {
      StoredIsOwnAnswers(history, t, id, reply, work, content, memory);
      OwnAnswersOfSnoc(history, id, content, memory, work);
      OwnAnswersOfSnoc(history, id, content, memory, work[..1]);
      assert Own(Answers(history, id, content, memory, []), id) == [];
      assert history[0][1] == 1;
      assert ReplyAt(history, NodeHistory.Header(1, 1), Moments(0, 0), content, memory)
             == Served(content(1).0, content(1).1);
      ReplayBlocksSnoc(EMPTY, id, content, [], 1);
    }
  }
}
