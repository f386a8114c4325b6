/** One epoch of the devnet tracker: reset, backfill, caught-up notice, live blocks.

    The node answers the queries of an epoch out of a history of its chain; the scheduler decides
    which branch of the select loop runs next.  Both are inputs. */
module Tracker {
  import opened NodeHistory
  import opened Types

  datatype SyncInfo = SyncInfo(number: nat, forkBlockNumber: Option<nat>)

  datatype Msg = Reset | CaughtUp | Block(header: Header)

  /** What the merged stream yields.  `fetched` is the moment the node served the header. */
  datatype StreamItem = BlockHeader(header: Header, fetched: nat) | Notice

  /** One turn of the select loop, at moment `now` of the node's history.  `reachable` says
      whether the node answers a checkpoint query in this turn; `Ended` is the stream's end. */
  datatype Turn =
    | Quit
    | Tick(now: nat, reachable: bool)
    | Next(now: nat, reachable: bool, item: StreamItem)
    | Ended
    | TimedOut

  datatype Failure = NotReady | Unreachable | RevertDetected | StreamEnded

  datatype Status = Running | Stopped | Failed(why: Failure)

  datatype Epoch = Epoch(checkpoint: Option<Hash>, sent: seq<Msg>, status: Status)

  // ----- the block range -------------------------------------------------------------------

  function Range(first: int, last: int): (r: seq<nat>)
    requires 0 <= first
    ensures |r| == if first <= last then last - first + 1 else 0
    ensures forall i :: 0 <= i < |r| ==> r[i] == first + i
  {
    if first <= last then seq(last - first + 1, (i: nat) => first + i) else []
  }

  function FirstBlock(info: SyncInfo): nat {
    match info.forkBlockNumber
    case Some(fork) => fork + 1
    case None => 1
  }

  function HttpBackfill(info: SyncInfo): seq<nat> {
    if info.number < FirstBlock(info) then [] else Range(FirstBlock(info), info.number)
  }

  function WsBackfill(info: SyncInfo): seq<nat> {
    Range(FirstBlock(info), info.number)
  }

  /** Both providers ask the node for exactly the blocks after the fork point, in order. */
  lemma ProvidersAgreeOnRange(info: SyncInfo, n: nat)
    ensures HttpBackfill(info) == WsBackfill(info)
    ensures n in WsBackfill(info) <==>
            n <= info.number && (info.forkBlockNumber.Some? ==> info.forkBlockNumber.value < n) && 0 < n
    ensures forall i, j :: 0 <= i < j < |WsBackfill(info)| ==> WsBackfill(info)[i] < WsBackfill(info)[j]
  {
    var r := WsBackfill(info);
    if FirstBlock(info) <= n <= info.number {
      assert r[n - FirstBlock(info)] == n;
    }
  }

  // ----- the select loop -------------------------------------------------------------------

  /** `validate_checkpoint`: does the node still know the last emitted block? */
  function Validate(history: seq<Chain>, checkpoint: Option<Hash>, now: nat, reachable: bool): Status
    requires now < |history|
  {
    if checkpoint.None? then Running
    else if !reachable then Failed(Unreachable)
    else if checkpoint.value in history[now] then Running
    else Failed(RevertDetected)
  }

  predicate InTime(history: seq<Chain>, turn: Turn) {
    turn.Tick? || turn.Next? ==> turn.now < |history|
  }

  predicate Timely(history: seq<Chain>, turns: seq<Turn>) {
    forall i :: 0 <= i < |turns| ==> InTime(history, turns[i])
  }

  function Advance(history: seq<Chain>, e: Epoch, turn: Turn): Epoch
    requires InTime(history, turn)
  {
    if !e.status.Running? then e else
    match turn
    case Quit => e.(status := Stopped)
    case Ended => e.(status := Failed(StreamEnded))
    case TimedOut => e
    case Tick(now, reachable) => e.(status := Validate(history, e.checkpoint, now, reachable))
    case Next(now, reachable, Notice) => e.(sent := e.sent + [CaughtUp])
    case Next(now, reachable, BlockHeader(header, _)) =>
      var status := Validate(history, e.checkpoint, now, reachable);
      if status.Running? then Epoch(Some(header.hash), e.sent + [Block(header)], Running)
      else e.(status := status)
  }

  const FRESH := Epoch(None, [Reset], Running)

  function After(history: seq<Chain>, turns: seq<Turn>): Epoch
    requires Timely(history, turns)
  {
    if turns == [] then FRESH
    else Advance(history, After(history, turns[..|turns| - 1]), turns[|turns| - 1])
  }

  /** A whole epoch.  `ready` says whether the node became available before a quit and every stream
      could be opened. */
  function Ran(history: seq<Chain>, ready: bool, turns: seq<Turn>): Epoch
    requires Timely(history, turns)
  {
    if ready then After(history, turns) else FRESH.(status := Failed(NotReady))
  }

  /** `run_once`: the loop of the source, with its local checkpoint and its message channel. */
  method RunOnce(history: seq<Chain>, ready: bool, turns: seq<Turn>) returns (sent: seq<Msg>, status: Status)
    requires Timely(history, turns)
    ensures sent == Ran(history, ready, turns).sent && status == Ran(history, ready, turns).status
    ensures !ready ==> sent == [Reset] && status == Failed(NotReady)
  {
    sent, status := [Reset], Running;
    if !ready {
      return sent, Failed(NotReady);
    }
    var checkpoint: Option<Hash> := None;
    for i := 0 to |turns|
      invariant After(history, turns[..i]) == Epoch(checkpoint, sent, status)
      invariant status.Running?
    {
      var turn := turns[i];
      assert turns[..i + 1][..i] == turns[..i];
      match turn {
        case Quit =>
          status := Stopped;
        case Ended =>
          status := Failed(StreamEnded);
        case TimedOut =>
        case Tick(now, reachable) =>
          status := Validate(history, checkpoint, now, reachable);
        case Next(now, reachable, item) =>
          match item {
            case Notice =>
              sent := sent + [CaughtUp];
            case BlockHeader(header, _) =>
              status := Validate(history, checkpoint, now, reachable);
              if status.Running? {
                checkpoint := Some(header.hash);
                sent := sent + [Block(header)];
              }
          }
      }
      if !status.Running? {
        SettledStays(history, turns, i + 1);
        return;
      }
    }
    assert turns[..|turns|] == turns;
  }

  /** A finished epoch sends nothing more. */
  lemma {:induction false} SettledStays(history: seq<Chain>, turns: seq<Turn>, i: nat)
    requires Timely(history, turns)
    requires i <= |turns| && !After(history, turns[..i]).status.Running?
    ensures After(history, turns) == After(history, turns[..i])
    decreases |turns|
  {
    if i == |turns| {
      assert turns[..i] == turns;
    } else {
      var shorter := turns[..|turns| - 1];
      assert shorter[..i] == turns[..i];
      SettledStays(history, shorter, i);
    }
  }

  // ----- the order of messages -------------------------------------------------------------

  function Items(turns: seq<Turn>): seq<StreamItem> {
    if turns == [] then []
    else
      var last := turns[|turns| - 1];
      Items(turns[..|turns| - 1]) + if last.Next? then [last.item] else []
  }

  function ToMsg(item: StreamItem): Msg {
    if item.Notice? then CaughtUp else Block(item.header)
  }

  function ToMsgs(items: seq<StreamItem>): (r: seq<Msg>)
    ensures |r| == |items|
    ensures forall i :: 0 <= i < |items| ==> r[i] == ToMsg(items[i])
  {
    seq(|items|, i requires 0 <= i < |items| => ToMsg(items[i]))
  }

  /** Every epoch sends `Reset` and then the stream's items in order, up to some point.  While it
      is running nothing the stream has yielded is missing. */
  lemma {:induction false} SentIsPrefixOfStream(history: seq<Chain>, turns: seq<Turn>)
    requires Timely(history, turns)
    ensures After(history, turns).sent <= [Reset] + ToMsgs(Items(turns))
    ensures After(history, turns).status.Running? ==>
              After(history, turns).sent == [Reset] + ToMsgs(Items(turns))
  {
    if turns != [] {
      SentIsPrefixOfStream(history, turns[..|turns| - 1]);
    }
  }

  lemma {:induction false} SentIsNotEmpty(history: seq<Chain>, turns: seq<Turn>)
    requires Timely(history, turns)
    ensures After(history, turns).sent != [] && After(history, turns).sent[0] == Reset
  {
    if turns != [] {
      SentIsNotEmpty(history, turns[..|turns| - 1]);
    }
  }

  // ----- what ends an epoch ----------------------------------------------------------------

  /** The hash of the last block among the turns. */
  function LastHash(turns: seq<Turn>): Option<Hash> {
    if turns == [] then None
    else
      var last := turns[|turns| - 1];
      if last.Next? && last.item.BlockHeader? then Some(last.item.header.hash)
      else LastHash(turns[..|turns| - 1])
  }

  /** A tick or a block makes the loop query the node, once a block was emitted. */
  predicate Queries(turns: seq<Turn>, i: nat)
    requires i < |turns|
  {
    && (turns[i].Tick? || (turns[i].Next? && turns[i].item.BlockHeader?))
    && LastHash(turns[..i]).Some?
  }

  /** Read off the turns alone: turn `i` is of a kind that ends an epoch. */
  predicate Ends(history: seq<Chain>, turns: seq<Turn>, i: nat)
    requires Timely(history, turns) && i < |turns|
  {
    || turns[i].Quit?
    || turns[i].Ended?
    || (Queries(turns, i)
        && (!turns[i].reachable || LastHash(turns[..i]).value !in history[turns[i].now]))
  }

  /** Turn `i` is the first that ends the epoch. */
  ghost predicate EndsFirst(history: seq<Chain>, turns: seq<Turn>, i: nat)
    requires Timely(history, turns)
  {
    i < |turns| && Ends(history, turns, i) && forall j :: 0 <= j < i ==> !Ends(history, turns, j)
  }

  lemma EndsOfPrefix(history: seq<Chain>, turns: seq<Turn>, n: nat, i: nat)
    requires Timely(history, turns) && i < n <= |turns|
    ensures Ends(history, turns[..n], i) == Ends(history, turns, i)
  {
    assert turns[..n][..i] == turns[..i];
  }

  /** An epoch runs on exactly as long as no turn ends it, and its checkpoint is then the last
      block of the turns. */
  lemma {:induction false} RunsOnIffNothingEnds(history: seq<Chain>, turns: seq<Turn>)
    requires Timely(history, turns)
    ensures After(history, turns).status.Running? <==>
            forall i :: 0 <= i < |turns| ==> !Ends(history, turns, i)
    ensures After(history, turns).status.Running? ==> After(history, turns).checkpoint == LastHash(turns)
  {
    if turns != [] {
      var n := |turns| - 1;
      RunsOnIffNothingEnds(history, turns[..n]);
      forall i | 0 <= i < n
        ensures Ends(history, turns[..n], i) == Ends(history, turns, i)
      {
        EndsOfPrefix(history, turns, n, i);
      }
      hide After, LastHash;
      EndsOrGoesOn(history, turns);
    }
  }

  lemma EndsOrGoesOn(history: seq<Chain>, turns: seq<Turn>)
    requires Timely(history, turns) && turns != []
    ensures var n := |turns| - 1;
            var e, t := After(history, turns[..n]), After(history, turns);
            && (!e.status.Running? ==> t == e)
            && (e.status.Running? && e.checkpoint == LastHash(turns[..n]) ==>
                  && (t.status.Running? <==> !Ends(history, turns, n))
                  && (t.status.Running? ==> t.checkpoint == LastHash(turns)))
  {
  }

  /** The turn that ends an epoch decides how: a quit stops it, the stream's end fails it, an
      unanswered query fails it, and so does an answered one that no longer finds the last block.
      What was sent are the items before that turn. */
  lemma EpochEndsAsItsTurnSays(history: seq<Chain>, turns: seq<Turn>, i: nat)
    requires Timely(history, turns) && EndsFirst(history, turns, i)
    ensures After(history, turns).status.Stopped? <==> turns[i].Quit?
    ensures After(history, turns).status == Failed(StreamEnded) <==> turns[i].Ended?
    ensures After(history, turns).status == Failed(Unreachable) <==> Queries(turns, i) && !turns[i].reachable
    ensures After(history, turns).status == Failed(RevertDetected) <==>
            && Queries(turns, i) && turns[i].reachable
            && LastHash(turns[..i]).value !in history[turns[i].now]
    ensures After(history, turns).sent == [Reset] + ToMsgs(Items(turns[..i]))
  {
    forall j | 0 <= j < i
      ensures !Ends(history, turns[..i], j)
    {
      EndsOfPrefix(history, turns, i, j);
    }
    RunsOnIffNothingEnds(history, turns[..i]);
    SentIsPrefixOfStream(history, turns[..i]);
    assert turns[..i + 1][..i] == turns[..i];
    hide LastHash, Items;
    SettledStays(history, turns, i + 1);
  }

  // ----- restarting ------------------------------------------------------------------------

  /** One call of `run_once`: what the node, the scheduler and the start-up were like. */
  datatype Attempt = Attempt(history: seq<Chain>, ready: bool, turns: seq<Turn>)

  ghost predicate Restarts(a: Attempt)
    requires Timely(a.history, a.turns)
  {
    !a.ready || exists i: nat :: EndsFirst(a.history, a.turns, i) && !a.turns[i].Quit?
  }

  ghost predicate Quits(a: Attempt)
    requires Timely(a.history, a.turns)
  {
    a.ready && exists i: nat :: EndsFirst(a.history, a.turns, i) && a.turns[i].Quit?
  }

  lemma {:induction false} SomeTurnEndsFirst(history: seq<Chain>, turns: seq<Turn>, i: nat)
    returns (first: nat)
    requires Timely(history, turns) && i < |turns| && Ends(history, turns, i)
    ensures EndsFirst(history, turns, first)
  {
    if j: nat :| j < i && Ends(history, turns, j) {
      first := SomeTurnEndsFirst(history, turns, j);
    } else {
      first := i;
    }
  }

  lemma AttemptEnds(a: Attempt)
    requires Timely(a.history, a.turns)
    ensures Ran(a.history, a.ready, a.turns).status.Failed? <==> Restarts(a)
    ensures Ran(a.history, a.ready, a.turns).status.Stopped? <==> Quits(a)
  {
    hide After, LastHash, Items, Ends;
    RunsOnIffNothingEnds(a.history, a.turns);
    if i: nat :| i < |a.turns| && Ends(a.history, a.turns, i) {
      var first := SomeTurnEndsFirst(a.history, a.turns, i);
      EpochEndsAsItsTurnSays(a.history, a.turns, first);
      forall k: nat | EndsFirst(a.history, a.turns, k)
        ensures k == first
      {
        assert !(k < first) && !(first < k);
      }
    }
  }

  /** `run`: a new epoch begins exactly when each one before it was not ready or ended by anything
      but a quit. */
  method Run(attempts: seq<Attempt>) returns (epochs: seq<seq<Msg>>, last: Status)
    requires forall k :: 0 <= k < |attempts| ==> Timely(attempts[k].history, attempts[k].turns)
    ensures |epochs| <= |attempts|
    ensures forall k :: 0 <= k < |epochs| - 1 ==> Restarts(attempts[k])
    ensures |epochs| < |attempts| ==> epochs != [] && !Restarts(attempts[|epochs| - 1])
    ensures forall k :: 0 <= k < |epochs| ==>
              epochs[k] == Ran(attempts[k].history, attempts[k].ready, attempts[k].turns).sent
    ensures last.Stopped? <==> epochs != [] && Quits(attempts[|epochs| - 1])
  {
    hide Ran, Restarts, Quits, After;
    epochs, last := [], Running;
    for n := 0 to |attempts|
      invariant |epochs| == n
      invariant forall j :: 0 <= j < n ==> Restarts(attempts[j])
      invariant forall k :: 0 <= k < n ==>
                  epochs[k] == Ran(attempts[k].history, attempts[k].ready, attempts[k].turns).sent
      invariant !last.Stopped? && (n > 0 ==> !Quits(attempts[n - 1]))
    {
      var a := attempts[n];
      var sent;
      sent, last := RunOnce(a.history, a.ready, a.turns);
      epochs := epochs + [sent];
      AttemptEnds(a);
      if !last.Failed? {
        return;
      }
    }
  }

  // ----- checking the last block protects the epoch ----------------------------------------

  ghost predicate Emitted(sent: seq<Msg>, h: Header) {
    Block(h) in sent
  }

  /** Turns happen in the order of the node's history, and every header was served by the node
      before it is handled. */
  ghost predicate Faithful(history: seq<Chain>, turns: seq<Turn>) {
    && Possible(history)
    && Timely(history, turns)
    && (forall i, j :: 0 <= i <= j < |turns| && HasTime(turns[i]) && HasTime(turns[j]) ==>
          turns[i].now <= turns[j].now)
    && (forall i :: 0 <= i < |turns| && turns[i].Next? && turns[i].item.BlockHeader? ==>
          && turns[i].item.fetched <= turns[i].now
          && OnChain(history[turns[i].item.fetched], turns[i].item.header))
  }

  predicate HasTime(turn: Turn) {
    turn.Tick? || turn.Next?
  }

  /** The height a turn adds to the stream's. */
  function HeightsOf(turn: Turn): seq<nat> {
    if turn.Next? && turn.item.BlockHeader? then [turn.item.header.number] else []
  }

  function Heights(turns: seq<Turn>): seq<nat> {
    if turns == [] then []
    else
      Heights(turns[..|turns| - 1]) + HeightsOf(turns[|turns| - 1])
  }

  ghost predicate Ascending(heights: seq<nat>) {
    forall i, j :: 0 <= i < j < |heights| ==> heights[i] <= heights[j]
  }

  /** From moment `now` on, whenever the last emitted block is on the chain, all of them are. */
  ghost predicate Protected(history: seq<Chain>, e: Epoch, now: nat) {
    && (e.checkpoint.None? ==> forall h :: !Emitted(e.sent, h))
    && (e.checkpoint.Some? ==>
          forall k, h :: now <= k < |history| && e.checkpoint.value in history[k] && Emitted(e.sent, h) ==>
            OnChain(history[k], h))
  }

  ghost predicate AllBelow(sent: seq<Msg>, heights: seq<nat>) {
    forall h :: Emitted(sent, h) ==> h.number in heights
  }

  lemma ProtectedExtends(history: seq<Chain>, e: Epoch, since: nat, now: nat, h: Header, fetched: nat)
    requires Possible(history) && fetched <= now < |history| && since <= now
    requires Protected(history, e, since)
    requires e.checkpoint.Some? ==> e.checkpoint.value in history[now]
    requires OnChain(history[fetched], h)
    requires forall a :: Emitted(e.sent, a) ==> a.number <= h.number
    ensures Protected(history, Epoch(Some(h.hash), e.sent + [Block(h)], Running), now)
  {
    forall k, a | now <= k < |history| && h.hash in history[k] && Emitted(e.sent + [Block(h)], a)
      ensures OnChain(history[k], a)
    {
      BlockPersists(history, fetched, k, h);
      if a != h {
        assert Emitted(e.sent, a) && OnChain(history[now], a);
        BlockPersists(history, fetched, now, h);
        assert history[now][..h.number + 1] == history[k][..h.number + 1];
        assert history[now][..h.number + 1][a.number] == history[k][..h.number + 1][a.number];
      }
    }
  }

  /** The moment of the last timed turn. */
  function LastMoment(turns: seq<Turn>): nat {
    if turns == [] then 0
    else if HasTime(turns[|turns| - 1]) then turns[|turns| - 1].now
    else LastMoment(turns[..|turns| - 1])
  }

  lemma {:induction false} LastMomentIsLate(turns: seq<Turn>, later: nat)
    requires forall i :: 0 <= i < |turns| && HasTime(turns[i]) ==> turns[i].now <= later
    ensures LastMoment(turns) <= later
  {
    if turns != [] && !HasTime(turns[|turns| - 1]) {
      LastMomentIsLate(turns[..|turns| - 1], later);
    }
  }

  lemma LaterIsProtected(history: seq<Chain>, e: Epoch, t: Epoch, since: nat, now: nat)
    requires Protected(history, e, since) && since <= now && t.checkpoint == e.checkpoint
    requires forall h :: Emitted(t.sent, h) ==> Emitted(e.sent, h)
    ensures Protected(history, t, now)
  {
  }

  lemma AdvanceKeepsProtected(history: seq<Chain>, e: Epoch, turn: Turn, since: nat, heights: seq<nat>)
    requires Possible(history) && InTime(history, turn)
    requires Protected(history, e, since) && AllBelow(e.sent, heights)
    requires HasTime(turn) ==> since <= turn.now
    requires turn.Next? && turn.item.BlockHeader? ==>
               && turn.item.fetched <= turn.now && OnChain(history[turn.item.fetched], turn.item.header)
               && forall i :: 0 <= i < |heights| ==> heights[i] <= turn.item.header.number
    ensures Protected(history, Advance(history, e, turn), if HasTime(turn) then turn.now else since)
    ensures AllBelow(Advance(history, e, turn).sent, heights + HeightsOf(turn))
  {
    hide Protected, OnChain, Possible;
    var t, now := Advance(history, e, turn), if HasTime(turn) then turn.now else since;
    if t.sent != e.sent && turn.item.BlockHeader? {
      ProtectedExtends(history, e, since, now, turn.item.header, turn.item.fetched);
    } else {
      assert forall h :: Emitted(t.sent, h) ==> Emitted(e.sent, h);
      LaterIsProtected(history, e, t, since, now);
    }
  }

  lemma AscendingToLast(heights: seq<nat>, last: seq<nat>)
    requires Ascending(heights + last)
    ensures Ascending(heights)
    ensures last != [] ==> forall i :: 0 <= i < |heights| ==> heights[i] <= last[0]
  {
    var all := heights + last;
    assert forall i :: 0 <= i < |heights| ==> all[i] == heights[i];
    assert last != [] ==> all[|heights|] == last[0];
  }

  lemma {:induction false} EpochIsProtected(history: seq<Chain>, turns: seq<Turn>)
    requires Faithful(history, turns) && Ascending(Heights(turns))
    ensures Protected(history, After(history, turns), LastMoment(turns))
    ensures AllBelow(After(history, turns).sent, Heights(turns))
  {
    if turns != [] {
      hide Protected, OnChain, AllBelow, Advance, Possible;
      var shorter, last := turns[..|turns| - 1], turns[|turns| - 1];
      assert Heights(turns) == Heights(shorter) + HeightsOf(last);
      AscendingToLast(Heights(shorter), HeightsOf(last));
      EpochIsProtected(history, shorter);
      if HasTime(last) {
        LastMomentIsLate(shorter, last.now);
      }
      AdvanceKeepsProtected(history, After(history, shorter), last, LastMoment(shorter), Heights(shorter));
    }
  }

  /** The blocks already emitted when turn `i` passes its checkpoint query are all on the chain. */
  ghost predicate GuardHolds(history: seq<Chain>, turns: seq<Turn>, i: nat)
    requires Timely(history, turns)
    requires i < |turns|
  {
    var e := After(history, turns[..i]);
    var t := turns[i];
    e.status.Running? && (t.Tick? || (t.Next? && t.item.BlockHeader?)) && t.reachable
    && Validate(history, e.checkpoint, t.now, t.reachable).Running? ==>
      forall h :: Emitted(e.sent, h) ==> OnChain(history[t.now], h)
  }

  /** Querying only the last emitted hash vouches for the whole epoch: when the query succeeds,
      every block emitted since the reset is on the node's chain. */
  lemma LastCheckGuardsEpoch(history: seq<Chain>, turns: seq<Turn>, i: nat)
    requires Faithful(history, turns) && i < |turns| && Ascending(Heights(turns[..i]))
    ensures GuardHolds(history, turns, i)
  {
    hide Possible, Heights, After, OnChain;
    var before := turns[..i];
    EpochIsProtected(history, before);
    if HasTime(turns[i]) {
      LastMomentIsLate(before, turns[i].now);
    }
  }

  lemma {:induction false} HeightsOfPrefix(turns: seq<Turn>, i: nat)
    requires i <= |turns|
    ensures Heights(turns[..i]) <= Heights(turns)
    decreases |turns|
  {
    if i == |turns| {
      assert turns[..i] == turns;
    } else {
      assert turns[..|turns| - 1][..i] == turns[..i];
      HeightsOfPrefix(turns[..|turns| - 1], i);
    }
  }

  // ----- ... exactly when headers come in ascending order ----------------------------------

  ghost predicate AlwaysGuarded(heights: seq<nat>) {
    forall history, turns, i: nat :: Faithful(history, turns) && Heights(turns) == heights && i < |turns| ==>
      GuardHolds(history, turns, i)
  }

  /** The node never moves: block `n` has hash `n`. */
  function Ladder(length: nat): (c: Chain)
    ensures |c| == length && forall i :: 0 <= i < length ==> c[i] == i
  {
    seq(length, (i: nat) => i)
  }

  function Delivery(heights: seq<nat>, now: nat): (turns: seq<Turn>)
    ensures |turns| == |heights|
    ensures forall i :: 0 <= i < |heights| ==>
              turns[i] == Next(now, true, BlockHeader(Header(heights[i], heights[i]), 0))
  {
    seq(|heights|, i requires 0 <= i < |heights| =>
      Next(now, true, BlockHeader(Header(heights[i], heights[i]), 0)))
  }

  function Delivered(height: nat, now: nat): Turn {
    Next(now, true, BlockHeader(Header(height, height), 0))
  }

  lemma DeliveryOfSnoc(heights: seq<nat>, last: nat, now: nat)
    ensures Delivery(heights + [last], now) == Delivery(heights, now) + [Delivered(last, now)]
  {
  }

  lemma HeightsOfSnoc(turns: seq<Turn>, height: nat, now: nat)
    ensures Heights(turns + [Delivered(height, now)]) == Heights(turns) + [height]
  {
    assert (turns + [Delivered(height, now)])[..|turns|] == turns;
  }

  lemma {:induction false} HeightsOfDelivery(before: seq<Turn>, heights: seq<nat>, now: nat)
    ensures Heights(before + Delivery(heights, now)) == Heights(before) + heights
  {
    hide Heights, Delivered;
    if heights == [] {
      assert before + Delivery(heights, now) == before;
    } else {
      var fewer, last := heights[..|heights| - 1], heights[|heights| - 1];
      assert heights == fewer + [last];
      HeightsOfDelivery(before, fewer, now);
      DeliveryOfSnoc(fewer, last, now);
      HeightsOfSnoc(before + Delivery(fewer, now), last, now);
      assert before + Delivery(heights, now) == (before + Delivery(fewer, now)) + [Delivered(last, now)];
    }
  }

  lemma {:induction false} DeliveryIsSent(history: seq<Chain>, length: nat, heights: seq<nat>)
    requires history != [] && history[0] == Ladder(length)
    requires forall i :: 0 <= i < |heights| ==> heights[i] < length
    ensures var e := After(history, Delivery(heights, 0));
            && e.status.Running?
            && e.checkpoint == (if heights == [] then None else Some(heights[|heights| - 1]))
            && forall i :: 0 <= i < |heights| ==> Emitted(e.sent, Header(heights[i], heights[i]))
  {
    if heights != [] {
      var fewer := heights[..|heights| - 1];
      var turns := Delivery(heights, 0);
      assert turns[..|turns| - 1] == Delivery(fewer, 0);
      DeliveryIsSent(history, length, fewer);
      var before, e := After(history, Delivery(fewer, 0)), After(history, turns);
      if fewer != [] {
        assert history[0][before.checkpoint.value] == before.checkpoint.value;
      }
      assert e.sent == before.sent + [Block(Header(heights[|fewer|], heights[|fewer|]))];
      assert forall h :: Emitted(before.sent, h) ==> Emitted(e.sent, h);
      assert forall i :: 0 <= i < |fewer| ==> fewer[i] == heights[i];
      assert Emitted(e.sent, Header(heights[|fewer|], heights[|fewer|]));
    }
  }

  function Longest(heights: seq<nat>): (n: nat)
    ensures forall i :: 0 <= i < |heights| ==> heights[i] < n
  {
    if heights == [] then 0
    else
      var n := Longest(heights[..|heights| - 1]);
      if heights[|heights| - 1] < n then n else heights[|heights| - 1] + 1
  }

  /** Everything up to header `b` is delivered while the full ladder stands; then the node reverts
      to just that block. */
  function Reverting(heights: seq<nat>, b: nat): (history: seq<Chain>)
    requires b < |heights|
    ensures |history| == 2
  {
    [Ladder(Longest(heights)), Ladder(heights[b] + 1)]
  }

  function Escape(heights: seq<nat>, b: nat): (turns: seq<Turn>)
    requires b < |heights|
    ensures |turns| == |heights| + 1
    ensures turns[..b + 1] == Delivery(heights[..b + 1], 0)
    ensures turns[b + 1] == Tick(1, true)
    ensures forall i :: 0 <= i <= b ==> turns[i] == Next(0, true, BlockHeader(Header(heights[i], heights[i]), 0))
    ensures forall i :: b + 1 < i < |turns| ==>
              turns[i] == Next(1, true, BlockHeader(Header(heights[i - 1], heights[i - 1]), 0))
  {
    Delivery(heights[..b + 1], 0) + [Tick(1, true)] + Delivery(heights[b + 1..], 1)
  }

  lemma EscapeIsFaithful(heights: seq<nat>, b: nat)
    requires b < |heights|
    ensures Faithful(Reverting(heights, b), Escape(heights, b))
  {
    var history, turns := Reverting(heights, b), Escape(heights, b);
    assert Possible(history) by {
      assert history[1] <= history[0];
    }
    forall i | 0 <= i < |turns| && turns[i].Next?
      ensures OnChain(history[0], turns[i].item.header)
    {
    }
  }

  lemma EscapeHasHeights(heights: seq<nat>, b: nat)
    requires b < |heights|
    ensures Heights(Escape(heights, b)) == heights
  {
    var upTo, rest := heights[..b + 1], heights[b + 1..];
    var delivered := Delivery(upTo, 0);
    var early := delivered + [Tick(1, true)];
    assert Heights(delivered) == upTo by {
      HeightsOfDelivery([], upTo, 0);
      assert [] + delivered == delivered;
    }
    assert Heights(early) == upTo by {
      assert early[..|early| - 1] == delivered;
    }
    HeightsOfDelivery(early, rest, 1);
    assert Escape(heights, b) == early + Delivery(rest, 1);
    assert upTo + rest == heights;
  }

  /** A header below an earlier one lets a revert between the two heights go unnoticed. */
  lemma DescentEscapesTheCheck(heights: seq<nat>, a: nat, b: nat)
    requires a < b < |heights| && heights[b] < heights[a]
    ensures !AlwaysGuarded(heights)
  {
    var history, turns := Reverting(heights, b), Escape(heights, b);
    EscapeIsFaithful(heights, b);
    EscapeHasHeights(heights, b);
    assert !GuardHolds(history, turns, b + 1) by {
      RevertGoesUnnoticed(heights, a, b);
    }
  }

  lemma RevertGoesUnnoticed(heights: seq<nat>, a: nat, b: nat)
    requires a < b < |heights| && heights[b] < heights[a]
    requires Timely(Reverting(heights, b), Escape(heights, b))
    ensures !GuardHolds(Reverting(heights, b), Escape(heights, b), b + 1)
  {
    var history, turns := Reverting(heights, b), Escape(heights, b);
    var upTo := heights[..b + 1];
    DeliveryIsSent(history, Longest(heights), upTo);
    var e := After(history, turns[..b + 1]);
    assert e.checkpoint == Some(heights[b]);
    assert history[1][heights[b]] == heights[b];
    var stale := Header(upTo[a], upTo[a]);
    assert Emitted(e.sent, stale) && !OnChain(history[1], stale);
  }

  /** The shortcut of checking one hash is sound for a stream of block heights, whatever the node
      does, if and only if the heights never decrease. */
  lemma LastCheckGuardsIffAscending(heights: seq<nat>)
    ensures AlwaysGuarded(heights) <==> Ascending(heights)
  {
    if Ascending(heights) {
      forall history, turns, i: nat | Faithful(history, turns) && Heights(turns) == heights && i < |turns|
        ensures GuardHolds(history, turns, i)
      {
        HeightsOfPrefix(turns, i);
        LastCheckGuardsEpoch(history, turns, i);
      }
    } else {
      var a, b :| 0 <= a < b < |heights| && heights[b] < heights[a];
      DescentEscapesTheCheck(heights, a, b);
    }
  }

  // ----- what an unbroken stream has sent --------------------------------------------------

  /** The hashes of the emitted blocks, in order. */
  function Hashes(sent: seq<Msg>): seq<Hash> {
    if sent == [] then []
    else
      var last := sent[|sent| - 1];
      Hashes(sent[..|sent| - 1]) + if last.Block? then [last.header.hash] else []
  }

  function Numbers(sent: seq<Msg>): seq<nat> {
    if sent == [] then []
    else
      var last := sent[|sent| - 1];
      Numbers(sent[..|sent| - 1]) + if last.Block? then [last.header.number] else []
  }

  /** `hashes` is the stretch of the chain that starts at block `first`. */
  predicate IsSegment(hashes: seq<Hash>, chain: Chain, first: nat) {
    forall i :: 0 <= i < |hashes| ==> OnChain(chain, Header(hashes[i], first + i))
  }

  lemma HashesOfSnoc(sent: seq<Msg>, m: Msg)
    ensures Hashes(sent + [m]) == Hashes(sent) + if m.Block? then [m.header.hash] else []
    ensures Numbers(sent + [m]) == Numbers(sent) + if m.Block? then [m.header.number] else []
  {
    assert (sent + [m])[..|sent|] == sent;
  }

  ghost predicate Consecutive(numbers: seq<nat>, first: nat) {
    forall j :: 0 <= j < |numbers| ==> numbers[j] == first + j
  }

  lemma {:induction false} HashesMatchNumbers(chain: Chain, sent: seq<Msg>)
    requires forall h :: Emitted(sent, h) ==> OnChain(chain, h)
    ensures |Hashes(sent)| == |Numbers(sent)|
    ensures forall j :: 0 <= j < |Hashes(sent)| ==> OnChain(chain, Header(Hashes(sent)[j], Numbers(sent)[j]))
  {
    if sent != [] {
      var fewer, last := sent[..|sent| - 1], sent[|sent| - 1];
      assert sent == fewer + [last];
      assert forall h :: Emitted(fewer, h) ==> Emitted(sent, h);
      HashesMatchNumbers(chain, fewer);
      if last.Block? {
        assert Emitted(sent, last.header);
      }
    }
  }

  /** Hashes found on the chain are a stretch of it exactly if their heights have no gap. */
  lemma SegmentIffConsecutive(chain: Chain, hashes: seq<Hash>, numbers: seq<nat>, first: nat)
    requires Distinct(chain) && |hashes| == |numbers|
    requires forall j :: 0 <= j < |hashes| ==> OnChain(chain, Header(hashes[j], numbers[j]))
    ensures IsSegment(hashes, chain, first) <==> Consecutive(numbers, first)
  {
    if IsSegment(hashes, chain, first) {
      forall j | 0 <= j < |numbers|
        ensures numbers[j] == first + j
      {
        assert OnChain(chain, Header(hashes[j], first + j));
        assert OnChain(chain, Header(hashes[j], numbers[j]));
      }
    }
  }

  lemma AdvanceAddsHeight(history: seq<Chain>, e: Epoch, turn: Turn)
    requires InTime(history, turn) && Advance(history, e, turn).status.Running?
    ensures e.status.Running?
    ensures Numbers(Advance(history, e, turn).sent) == Numbers(e.sent) + HeightsOf(turn)
  {
    hide Numbers, Validate;
    if turn.Next? {
      HashesOfSnoc(e.sent, ToMsg(turn.item));
    }
    assert Numbers(e.sent) + [] == Numbers(e.sent);
  }

  lemma {:induction false} NumbersAreHeights(history: seq<Chain>, turns: seq<Turn>)
    requires Timely(history, turns)
    ensures After(history, turns).status.Running? ==> Numbers(After(history, turns).sent) == Heights(turns)
  {
    if turns == [] {
      assert [Reset][..0] == [];
    } else {
      var fewer, last := turns[..|turns| - 1], turns[|turns| - 1];
      NumbersAreHeights(history, fewer);
      if After(history, turns).status.Running? {
        AdvanceAddsHeight(history, After(history, fewer), last);
      }
    }
  }

  lemma QueriedEpochIsOnChain(history: seq<Chain>, turns: seq<Turn>, i: nat)
    requires Faithful(history, turns) && i < |turns| && Ascending(Heights(turns[..i]))
    requires After(history, turns[..i]).status.Running? && turns[i].Tick? && turns[i].reachable
    requires After(history, turns[..i + 1]).status.Running?
    ensures forall h :: Emitted(After(history, turns[..i]).sent, h) ==> OnChain(history[turns[i].now], h)
  {
    assert turns[..i + 1][..i] == turns[..i];
    LastCheckGuardsEpoch(history, turns, i);
  }

  /** The moment each message was sent at. */
  function SentAt(history: seq<Chain>, turns: seq<Turn>): seq<nat>
    requires Timely(history, turns)
  {
    if turns == [] then [0]
    else
      var fewer := turns[..|turns| - 1];
      SentAt(history, fewer)
      + if |After(history, turns).sent| > |After(history, fewer).sent| then [LastMoment(turns)] else []
  }

  /** The node had the block at some moment up to `until`. */
  ghost predicate WasThere(history: seq<Chain>, h: Header, until: nat) {
    exists fetched: nat :: fetched <= until < |history| && OnChain(history[fetched], h)
  }

  ghost predicate SentInOrder(history: seq<Chain>, sent: seq<Msg>, at: seq<nat>, last: nat) {
    && |at| == |sent|
    && forall k :: 0 <= k < |sent| ==> at[k] <= last && (sent[k].Block? ==> WasThere(history, sent[k].header, at[k]))
  }

  lemma AdvanceSendsInOrder(history: seq<Chain>, e: Epoch, turn: Turn, at: seq<nat>, last: nat)
    requires InTime(history, turn) && SentInOrder(history, e.sent, at, last)
    requires HasTime(turn) ==> last <= turn.now
    requires turn.Next? && turn.item.BlockHeader? ==>
               turn.item.fetched <= turn.now && OnChain(history[turn.item.fetched], turn.item.header)
    ensures var t, now := Advance(history, e, turn), if HasTime(turn) then turn.now else last;
            SentInOrder(history, t.sent, at + if |t.sent| > |e.sent| then [now] else [], now)
  {
    hide OnChain;
  }

  /** Every block is sent after the node had it, and sending follows the node's time. */
  lemma {:induction false} BlocksAreSentInOrder(history: seq<Chain>, turns: seq<Turn>)
    requires Faithful(history, turns)
    ensures SentInOrder(history, After(history, turns).sent, SentAt(history, turns), LastMoment(turns))
  {
    if turns != [] {
      hide SentInOrder, OnChain, Advance, Possible;
      var shorter, last := turns[..|turns| - 1], turns[|turns| - 1];
      BlocksAreSentInOrder(history, shorter);
      if HasTime(last) {
        LastMomentIsLate(shorter, last.now);
      }
      AdvanceSendsInOrder(history, After(history, shorter), last, SentAt(history, shorter), LastMoment(shorter));
    } else {
      assert SentInOrder(history, [Reset], [0], 0);
    }
  }

  lemma {:induction false} EmittedHashIsListed(sent: seq<Msg>, h: Header)
    requires Emitted(sent, h)
    ensures h.hash in Hashes(sent)
  {
    var fewer, last := sent[..|sent| - 1], sent[|sent| - 1];
    if last != Block(h) {
      assert Emitted(fewer, h) by {
        var i :| 0 <= i < |sent| && sent[i] == Block(h);
        assert fewer[i] == Block(h);
      }
      EmittedHashIsListed(fewer, h);
    }
  }

  /** Blocks the node once had, and whose hashes it has now, are on its chain where they were. */
  lemma ListedBlocksAreOnChain(history: seq<Chain>, sent: seq<Msg>, at: seq<nat>, last: nat, now: nat)
    requires Possible(history) && last <= now < |history| && SentInOrder(history, sent, at, last)
    requires forall j :: 0 <= j < |Hashes(sent)| ==> Hashes(sent)[j] in history[now]
    ensures forall h :: Emitted(sent, h) ==> OnChain(history[now], h)
  {
    forall h | Emitted(sent, h)
      ensures OnChain(history[now], h)
    {
      var k :| 0 <= k < |sent| && sent[k] == Block(h);
      var fetched: nat :| fetched <= at[k] < |history| && OnChain(history[fetched], h);
      EmittedHashIsListed(sent, h);
      BlockPersists(history, fetched, now, h);
    }
  }

  lemma ConsecutiveAscends(heights: seq<nat>, first: nat)
    requires Consecutive(heights, first)
    ensures Ascending(heights)
  {
  }

  /** After a successful query the emitted blocks are, in order, exactly a stretch of the node's
      chain starting at the first requested block, if and only if the stream had no gap. */
  lemma EpochMirrorsChainIffGapless(history: seq<Chain>, turns: seq<Turn>, i: nat, first: nat)
    requires Faithful(history, turns) && i < |turns|
    requires After(history, turns[..i]).status.Running? && turns[i].Tick? && turns[i].reachable
    requires After(history, turns[..i + 1]).status.Running?
    ensures IsSegment(Hashes(After(history, turns[..i]).sent), history[turns[i].now], first)
            <==> Consecutive(Heights(turns[..i]), first)
  {
    hide After, Heights, Ascending, Possible, SentInOrder, Advance, SentAt;
    var sent, chain := After(history, turns[..i]).sent, history[turns[i].now];
    NumbersAreHeights(history, turns[..i]);
    ChainsAreDistinct(history, turns[i].now);
    if Consecutive(Heights(turns[..i]), first) {
      ConsecutiveAscends(Heights(turns[..i]), first);
      QueriedEpochIsOnChain(history, turns, i);
    } else if IsSegment(Hashes(sent), chain, first) {
      BlocksAreSentInOrder(history, turns[..i]);
      LastMomentIsLate(turns[..i], turns[i].now);
      forall j | 0 <= j < |Hashes(sent)|
        ensures Hashes(sent)[j] in chain
      {
        assert OnChain(chain, Header(Hashes(sent)[j], first + j));
      }
      ListedBlocksAreOnChain(history, sent, SentAt(history, turns[..i]), LastMoment(turns[..i]), turns[i].now);
    }
    if forall h :: Emitted(sent, h) ==> OnChain(chain, h) {
      HashesMatchNumbers(chain, sent);
      SegmentIffConsecutive(chain, Hashes(sent), Numbers(sent), first);
    }
  }

  /** A block mined after the height was asked for and before live blocks are delivered is in
      neither part of the stream: here block 1 is backfilled, 2 and 3 are mined, and 3 comes live. */
  function SkippingHistory(): (history: seq<Chain>)
    ensures |history| == 3
  {
    [Ladder(2), Ladder(3), Ladder(4)]
  }

  function SkippingTurns(): (turns: seq<Turn>)
    ensures |turns| == 3
  {
    [Next(0, true, BlockHeader(Header(1, 1), 0)), Next(2, true, BlockHeader(Header(3, 3), 2)), Tick(2, true)]
  }

  lemma SkippingIsFaithful()
    ensures Faithful(SkippingHistory(), SkippingTurns())
  {
    var history := SkippingHistory();
    assert Mines(history, 1) && Mines(history, 2);
  }

  lemma SkippingEpoch()
    requires Timely(SkippingHistory(), SkippingTurns())
    ensures After(SkippingHistory(), SkippingTurns()[..2])
            == Epoch(Some(3), [Reset, Block(Header(1, 1)), Block(Header(3, 3))], Running)
    ensures After(SkippingHistory(), SkippingTurns()).status.Running?
  {
    var history, turns := SkippingHistory(), SkippingTurns();
    var one, two := turns[..1], turns[..2];
    assert history[2][1] == 1 && history[2][3] == 3;
    assert one[..0] == [] && After(history, one) == Advance(history, FRESH, turns[0]);
    assert After(history, one) == Epoch(Some(1), [Reset, Block(Header(1, 1))], Running);
    assert two[..1] == one && After(history, two) == Advance(history, After(history, one), turns[1]);
    assert turns[..2] == two && After(history, turns) == Advance(history, After(history, two), turns[2]);
  }

  lemma SkippingHeights()
    ensures Heights(SkippingTurns()[..2]) == [1, 3]
  {
    var two := SkippingTurns()[..2];
    var one := two[..1];
    assert one[..0] == [] && Heights(one) == Heights([]) + HeightsOf(one[0]);
    assert Heights(two) == Heights(one) + HeightsOf(two[1]);
  }

  /** Every query of that epoch succeeds, and what it sent is no stretch of the chain. */
  lemma SkippedBlockIsNeverSent(first: nat)
    ensures Faithful(SkippingHistory(), SkippingTurns())
    ensures After(SkippingHistory(), SkippingTurns()).status.Running?
    ensures !IsSegment(Hashes(After(SkippingHistory(), SkippingTurns()[..2]).sent), SkippingHistory()[2], first)
  {
    SkippingIsFaithful();
    SkippingEpoch();
    SkippingHeights();
    hide After, Faithful, Heights, IsSegment, OnChain, Possible;
    var history, turns := SkippingHistory(), SkippingTurns();
    assert turns[..3] == turns;
    EpochMirrorsChainIffGapless(history, turns, 2, first);
    assert Heights(turns[..2])[0] == 1 && Heights(turns[..2])[1] == 3;
  }

  // ----- what the caught-up notice promises ------------------------------------------------

  /** The node's answer when asked for a block by its number. */
  type Node = nat -> Option<Header>

  /** The backfill: blocks the node does not answer for are left out of the stream. */
  function Answered(range: seq<nat>, node: Node): seq<Header> {
    if range == [] then []
    else
      var last := node(range[|range| - 1]);
      Answered(range[..|range| - 1], node) + if last.Some? then [last.value] else []
  }

  ghost predicate AnswersByNumber(node: Node) {
    forall n :: node(n).Some? ==> node(n).value.number == n
  }

  ghost predicate Responsive(range: seq<nat>, node: Node) {
    forall i :: 0 <= i < |range| ==> node(range[i]).Some?
  }

  function Blocks(headers: seq<Header>): (r: seq<Msg>)
    ensures |r| == |headers|
    ensures forall i :: 0 <= i < |headers| ==> r[i] == Block(headers[i])
  {
    seq(|headers|, i requires 0 <= i < |headers| => Block(headers[i]))
  }

  /** The stream yields the backfill, then the notice, then live blocks. */
  ghost predicate StreamsFor(items: seq<StreamItem>, info: SyncInfo, node: Node, live: seq<Header>) {
    ToMsgs(items) <= Blocks(Answered(HttpBackfill(info), node)) + [CaughtUp] + Blocks(live)
  }

  function NumbersOf(headers: seq<Header>): (r: seq<nat>)
    ensures |r| == |headers|
    ensures forall i :: 0 <= i < |headers| ==> r[i] == headers[i].number
  {
    seq(|headers|, i requires 0 <= i < |headers| => headers[i].number)
  }

  lemma {:induction false} NumbersOfBlocks(headers: seq<Header>)
    ensures Numbers([Reset] + Blocks(headers)) == NumbersOf(headers)
  {
    if headers == [] {
      assert [Reset] + Blocks(headers) == [Reset] && [Reset][..0] == [];
    } else {
      var fewer, last := headers[..|headers| - 1], headers[|headers| - 1];
      NumbersOfBlocks(fewer);
      assert [Reset] + Blocks(headers) == ([Reset] + Blocks(fewer)) + [Block(last)];
      HashesOfSnoc([Reset] + Blocks(fewer), Block(last));
    }
  }

  lemma {:induction false} AnsweredAllIff(range: seq<nat>, node: Node)
    requires AnswersByNumber(node)
    ensures |Answered(range, node)| <= |range|
    ensures NumbersOf(Answered(range, node)) == range <==> Responsive(range, node)
  {
    if range != [] {
      var fewer, n := range[..|range| - 1], range[|range| - 1];
      AnsweredAllIff(fewer, node);
      assert Responsive(range, node) <==> Responsive(fewer, node) && node(n).Some? by {
        assert forall i :: 0 <= i < |fewer| ==> range[i] == fewer[i];
        assert range[|fewer|] == n;
      }
      assert range == fewer + [n];
      if node(n).Some? {
        assert NumbersOf(Answered(range, node)) == NumbersOf(Answered(fewer, node)) + [n];
      }
    }
  }

  /** Every epoch's messages are a prefix of the reset, the blocks the node answered for, the
      notice and live blocks.  What comes before a notice are exactly the blocks of the requested
      range, in order, if and only if the node answered for each of them. */
  lemma CaughtUpMeansBackfilledIff(history: seq<Chain>, turns: seq<Turn>, info: SyncInfo, node: Node,
                                   live: seq<Header>, k: nat)
    requires Timely(history, turns) && AnswersByNumber(node) && StreamsFor(Items(turns), info, node, live)
    ensures After(history, turns).sent
            <= [Reset] + Blocks(Answered(HttpBackfill(info), node)) + [CaughtUp] + Blocks(live)
    ensures k < |After(history, turns).sent| && After(history, turns).sent[k] == CaughtUp ==>
              (Numbers(After(history, turns).sent[..k]) == HttpBackfill(info)
               <==> Responsive(HttpBackfill(info), node))
  {
    hide After, Items, Numbers, Answered, Responsive;
    SentIsPrefixOfStream(history, turns);
    var sent, before := After(history, turns).sent, [Reset] + Blocks(Answered(HttpBackfill(info), node));
    assert before + [CaughtUp] + Blocks(live)
           == [Reset] + (Blocks(Answered(HttpBackfill(info), node)) + [CaughtUp] + Blocks(live));
    if k < |sent| && sent[k] == CaughtUp {
      assert sent[k] == (before + [CaughtUp] + Blocks(live))[k];
      assert k == |before| && sent[..k] == before;
      NumbersOfBlocks(Answered(HttpBackfill(info), node));
      AnsweredAllIff(HttpBackfill(info), node);
    }
  }
}
