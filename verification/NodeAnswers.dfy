/** What the node answers when a consumer asks for the events of an emitted block: traces by number,
    logs by hash, each at its own moment of the node's history. */
module NodeAnswers {
  import opened Types
  import opened Database
  import opened Replay
  import NodeHistory
  import Tracker

  type Chain = NodeHistory.Chain
  type Header = NodeHistory.Header

  /** The logs the node still gives for a hash that is not on its chain; `None` is an error. */
  type Memory = Hash -> Option<seq<Event>>

  /** When the traces and when the logs of a block were asked for. */
  datatype Moments = Moments(traced: nat, logged: nat)

  predicate Ordered(history: seq<Chain>, m: Moments) {
    m.traced <= m.logged < |history|
  }

  function ReplyAt(history: seq<Chain>, h: Header, m: Moments, content: Content, memory: Memory): Reply
    requires Ordered(history, m)
  {
    if |history[m.traced]| <= h.number then Unavailable
    else
      var traces := content(history[m.traced][h.number]).0;
      if h.hash in history[m.logged] then Served(traces, content(h.hash).1)
      else
        match memory(h.hash)
        case None => Unavailable
        case Some(logs) => Served(traces, logs)
  }

  function Emitted(content: Content, h: Header): Reply {
    Served(content(h.hash).0, content(h.hash).1)
  }

  /** The block was on the node's chain at some moment before it was asked for. */
  ghost predicate AskedAfter(history: seq<Chain>, h: Header, m: Moments) {
    Ordered(history, m) && Tracker.WasThere(history, h, m.traced)
  }

  lemma StillThereWhenAsked(history: seq<Chain>, h: Header, m: Moments)
    requires NodeHistory.Possible(history) && AskedAfter(history, h, m) && h.hash in history[m.logged]
    ensures NodeHistory.OnChain(history[m.traced], h) && NodeHistory.OnChain(history[m.logged], h)
  {
    var fetched: nat :| fetched <= m.traced && NodeHistory.OnChain(history[fetched], h);
    NodeHistory.BlockPersists(history, fetched, m.logged, h);
  }

  lemma OtherBlockIsAnswered(history: seq<Chain>, h: Header, m: Moments)
    requires Ordered(history, m) && h.hash !in history[m.logged]
    ensures exists content: Content, memory: Memory :: ReplyAt(history, h, m, content, memory) != Emitted(content, h)
  {
    var content: Content := (k: Hash) => ([], [Tx(k, "", 0)]);
    var memory: Memory := (k: Hash) => None;
    assert ReplyAt(history, h, m, content, memory) == Unavailable;
  }

  /** The node's answers are the emitted block's, whatever blocks contain and whatever the node
      remembers, if and only if the block is still on the chain when its logs are asked for. */
  lemma ReplyIsEmittedIffStillThere(history: seq<Chain>, h: Header, m: Moments)
    requires NodeHistory.Possible(history) && AskedAfter(history, h, m)
    ensures (forall content: Content, memory: Memory ::
               ReplyAt(history, h, m, content, memory) == Emitted(content, h))
            <==> NodeHistory.OnChain(history[m.logged], h)
  {
    if h.hash in history[m.logged] {
      StillThereWhenAsked(history, h, m);
    } else {
      OtherBlockIsAnswered(history, h, m);
    }
  }

  // ----- a block replaced before it is handled ---------------------------------------------

  /** Block 1 has hash 1; it is reverted, and a block with hash 2 is mined in its place. */
  function RevertedHistory(): (history: seq<Chain>)
    ensures |history| == 3
  {
    [[0, 1], [0], [0, 2]]
  }

  lemma RevertedHistoryIsPossible()
    ensures NodeHistory.Possible(RevertedHistory())
  {
    var history := RevertedHistory();
    assert history[1] <= history[0] && NodeHistory.Mines(history, 2);
  }

  /** Emitted before the revert and handled after it, the first block is stored with the
      transaction of the second. */
  lemma RevertBeforeHandlingStoresOther(id: NetworkId, memory: Memory)
    requires memory(1) == Some([])
    ensures var content := (k: Hash) => ([Tx(k, "", 0)], []);
            var h, m := NodeHistory.Header(1, 1), Moments(2, 2);
            && NodeHistory.Possible(RevertedHistory()) && AskedAfter(RevertedHistory(), h, m)
            && Processed(EMPTY, id, Tracker.Block(h), ReplyAt(RevertedHistory(), h, m, content, memory))
               == EMPTY.(transactions := map[TxKey(2, id.chain, "") := 0])
  {
    RevertedHistoryIsPossible();
    var history, h := RevertedHistory(), NodeHistory.Header(1, 1);
    assert NodeHistory.OnChain(history[0], h);
    var event := Tx(2, "", 0);
    assert [event][..0] == [] && SavedAll(EMPTY, id, []) == Saved(EMPTY, true);
    var saved := SavedAll(EMPTY, id, [event]);
    assert saved == Saved(EMPTY.(transactions := map[TxKey(2, id.chain, "") := 0]), true);
    assert SavedAll(saved.tables, id, []) == saved;
    assert history[2][1] == 2 && 1 !in history[2];
  }
}
