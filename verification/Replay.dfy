/** The consumer end of the tracker: truncate on reset, then save block after block. */
module Replay {
  import opened Types
  import opened Database
  import NodeHistory
  import Tracker
  import Ledger

  type Msg = Tracker.Msg
  type Hash = NodeHistory.Hash

  /** What the node answers while one message is processed: nothing at all, a connection that
      cannot serve the block, or the block's trace and log events. */
  datatype Reply = Disconnected | Unavailable | Served(traces: seq<Event>, logs: seq<Event>)

  function BlockSaved(t: Tables, id: NetworkId, traces: seq<Event>, logs: seq<Event>): Saved {
    var first := SavedAll(t, id, traces);
    if first.ok then SavedAll(first.tables, id, logs) else first
  }

  /** A block is saved as the one list of its trace and log events. */
  lemma BlockIsOneList(t: Tables, id: NetworkId, traces: seq<Event>, logs: seq<Event>)
    ensures BlockSaved(t, id, traces, logs) == SavedAll(t, id, traces + logs)
  {
    SavedAllSplits(t, id, traces, logs);
  }

  /** So the transactions before the first trace event that fails are stored, whatever becomes of
      the logs, and no log is written unless every trace event was. */
  lemma TracesAreSavedFirst(t: Tables, id: NetworkId, traces: seq<Event>, logs: seq<Event>, i: nat)
    ensures i < |traces| && traces[i].Tx? && SavedAll(t, id, traces[..i]).ok ==>
              TxKey(traces[i].hash, id.chain, traces[i].trace)
              in BlockSaved(t, id, traces, logs).tables.transactions
    ensures Written(t, id, traces) <= Written(t, id, traces + logs)
    ensures Written(t, id, traces) == traces || Written(t, id, traces + logs) == Written(t, id, traces)
  {
    hide SavedAll, Written;
    BlockIsOneList(t, id, traces, logs);
    WrittenIsPrefix(t, id, traces);
    WrittenSplits(t, id, traces, logs);
    if i < |traces| && traces[i].Tx? && SavedAll(t, id, traces[..i]).ok {
      assert (traces + logs)[..i] == traces[..i];
      FirstTransactionStays(t, id, traces + logs, i);
    }
  }

  function Processed(t: Tables, id: NetworkId, msg: Msg, reply: Reply): Tables {
    if reply.Disconnected? then t
    else if msg.Reset? then Truncated(t, id)
    else if msg.Block? && reply.Served? then BlockSaved(t, id, reply.traces, reply.logs).tables
    else t
  }

  /** Does the message get past its own writes? */
  predicate Handled(t: Tables, id: NetworkId, msg: Msg, reply: Reply) {
    !reply.Disconnected? && (msg.Block? ==> reply.Served? && BlockSaved(t, id, reply.traces, reply.logs).ok)
  }

  /** The consumer of one epoch. */
  class EthuiConsumer {
    const id: NetworkId
    var caughtUp: bool

    constructor (id: NetworkId)
      ensures this.id == id && !caughtUp
    {
      this.id := id;
      caughtUp := false;
    }

    /** `process`.  `lookup` answers for tokens whose metadata is missing; `None` is a failure to
        ask for them.  Frontends hear about resets and about catching up, but about a block only
        when the backfill is over and every event of the block was saved. */
    method Process(db: Db, msg: Msg, reply: Reply, lookup: Option<Address -> nat>) returns (notify: bool)
      modifies this, db
      ensures db.Contents() == Processed(old(db.Contents()), id, msg, reply)
      ensures db.Contents() == if reply.Disconnected? || msg.CaughtUp? then old(db.Contents())
                               else if msg.Reset? then Truncated(old(db.Contents()), id)
                               else if reply.Unavailable? then old(db.Contents())
                               else SavedAll(old(db.Contents()), id, reply.traces + reply.logs).tables
      ensures caughtUp == (old(caughtUp) || (msg.CaughtUp? && !reply.Disconnected?))
      ensures var done := !reply.Disconnected? && (msg.Block? ==>
                            reply.Served? && SavedAll(old(db.Contents()), id, reply.traces + reply.logs).ok);
              && (done <==> Handled(old(db.Contents()), id, msg, reply))
              && (notify <==> done && lookup.Some? && (msg.Block? ==> old(caughtUp)))
              && (done && lookup.Some? ==> Missing(db.metadata, db.balances, id.chain) == {})
              && var kept := if msg.Reset? && done then OffChain(old(db.metadata), id.chain) else old(db.metadata);
                 db.metadata == if done && lookup.Some?
                                then Described(kept, Missing(kept, db.balances, id.chain), lookup.value) else kept
    {
      if reply.Served? {
        BlockIsOneList(db.Contents(), id, reply.traces, reply.logs);
      }
      notify := false;
      if reply.Disconnected? {
        return;
      }
      match msg {
        case Reset =>
          db.TruncateEvents(id);
          notify := true;
        case CaughtUp =>
          caughtUp := true;
          notify := true;
        case Block(_) =>
          if !reply.Served? {
            return;
          }
          var ok := db.SaveEvents(id, reply.traces);
          if !ok {
            return;
          }
          ok := db.SaveEvents(id, reply.logs);
          if !ok {
            return;
          }
          if caughtUp {
            notify := true;
          }
      }
      if lookup.None? {
        return false;
      }
      db.SaveMissingMetadata(id.chain, lookup.value);
    }
  }

  // ----- one network's part of the tables --------------------------------------------------

  function Slice(t: Tables, id: NetworkId): Tables {
    Tables(map k | k in t.transactions && k.chain == id.chain :: t.transactions[k],
           ContractSlice(t.contracts, id),
           BalanceSlice(t.balances, id.chain))
  }

  function BalanceSlice(balances: Balances, chain: nat): Balances {
    map k | k in balances && k.chain == chain :: balances[k]
  }

  lemma SliceOfTransferred(balances: Balances, chain: nat, contract: Address, t: Ledger.Transfer)
    ensures Transferred(balances, chain, contract, t).Some?
            <==> Transferred(BalanceSlice(balances, chain), chain, contract, t).Some?
    ensures Transferred(balances, chain, contract, t).Some? ==>
              BalanceSlice(Transferred(balances, chain, contract, t).value, chain)
              == Transferred(BalanceSlice(balances, chain), chain, contract, t).value
  {
  }

  function ContractSlice(contracts: Contracts, id: NetworkId): Contracts {
    map k | k in contracts && k.id == id :: contracts[k]
  }

  lemma SliceOfUpserted(contracts: Contracts, id: NetworkId, address: Address, code: Option<nat>,
                        proxyFor: Option<Address>)
    ensures ContractSlice(Upserted(contracts, id, address, code, None, None, proxyFor), id)
            == Upserted(ContractSlice(contracts, id), id, address, code, None, None, proxyFor)
  {
  }

  lemma SliceOfApplied(t: Tables, id: NetworkId, e: Event)
    ensures Applied(t, id, e).Some? <==> Applied(Slice(t, id), id, e).Some?
    ensures Applied(t, id, e).Some? ==>
              Slice(Applied(t, id, e).value, id) == Applied(Slice(t, id), id, e).value
  {
    match e
    case Tx(_, _, _) =>
    case ContractDeployed(address, code, proxyFor) =>
      SliceOfUpserted(t.contracts, id, address, code, proxyFor);
    case ERC20Transfer(contract, transfer) =>
      SliceOfTransferred(t.balances, id.chain, contract, transfer);
  }

  lemma {:induction false} SliceOfSaved(t: Tables, id: NetworkId, events: seq<Event>)
    ensures var whole, part := SavedAll(t, id, events), SavedAll(Slice(t, id), id, events);
            whole.ok == part.ok && Slice(whole.tables, id) == part.tables
  {
    if events != [] {
      var fewer := events[..|events| - 1];
      SliceOfSaved(t, id, fewer);
      SliceOfApplied(SavedAll(t, id, fewer).tables, id, events[|events| - 1]);
    }
  }

  lemma OtherSliceOfApplied(t: Tables, id: NetworkId, other: NetworkId, e: Event)
    requires other.chain != id.chain
    ensures Applied(t, id, e).Some? ==> Slice(Applied(t, id, e).value, other) == Slice(t, other)
  {
  }

  lemma {:induction false} OtherSliceOfSaved(t: Tables, id: NetworkId, other: NetworkId, events: seq<Event>)
    requires other.chain != id.chain
    ensures Slice(SavedAll(t, id, events).tables, other) == Slice(t, other)
  {
    if events != [] {
      var fewer := events[..|events| - 1];
      OtherSliceOfSaved(t, id, other, fewer);
      OtherSliceOfApplied(SavedAll(t, id, fewer).tables, id, other, events[|events| - 1]);
    }
  }

  lemma SliceOfProcessed(t: Tables, id: NetworkId, msg: Msg, reply: Reply)
    ensures Slice(Processed(t, id, msg, reply), id) == Processed(Slice(t, id), id, msg, reply)
  {
    if msg.Block? && reply.Served? {
      SliceOfSaved(t, id, reply.traces);
      SliceOfSaved(SavedAll(t, id, reply.traces).tables, id, reply.logs);
    }
  }

  lemma OtherSliceOfProcessed(t: Tables, id: NetworkId, other: NetworkId, msg: Msg, reply: Reply)
    requires other.chain != id.chain
    ensures Slice(Processed(t, id, msg, reply), other) == Slice(t, other)
  {
    if msg.Block? && reply.Served? {
      OtherSliceOfSaved(t, id, other, reply.traces);
      OtherSliceOfSaved(SavedAll(t, id, reply.traces).tables, id, other, reply.logs);
    }
  }

  // ----- convergence -----------------------------------------------------------------------

  /** A message handled by the consumer of network `id`. */
  datatype Entry = Entry(id: NetworkId, msg: Msg, reply: Reply)

  function ProcessedAll(t: Tables, entries: seq<Entry>): Tables {
    if entries == [] then t
    else
      var last := entries[|entries| - 1];
      Processed(ProcessedAll(t, entries[..|entries| - 1]), last.id, last.msg, last.reply)
  }

  function Own(entries: seq<Entry>, id: NetworkId): seq<Entry> {
    if entries == [] then []
    else
      var last := entries[|entries| - 1];
      Own(entries[..|entries| - 1], id) + if last.id == id then [last] else []
  }

  ghost predicate OneDevnetPerChain(entries: seq<Entry>, id: NetworkId) {
    forall i :: 0 <= i < |entries| ==> entries[i].id == id || entries[i].id.chain != id.chain
  }

  lemma {:induction false} NetworksDoNotInterfere(t: Tables, id: NetworkId, entries: seq<Entry>)
    requires OneDevnetPerChain(entries, id)
    ensures Slice(ProcessedAll(t, entries), id) == ProcessedAll(Slice(t, id), Own(entries, id))
  {
    if entries != [] {
      var fewer, last := entries[..|entries| - 1], entries[|entries| - 1];
      NetworksDoNotInterfere(t, id, fewer);
      if last.id == id {
        assert Own(entries, id)[..|Own(fewer, id)|] == Own(fewer, id);
        SliceOfProcessed(ProcessedAll(t, fewer), id, last.msg, last.reply);
      } else {
        assert Own(entries, id) == Own(fewer, id);
        OtherSliceOfProcessed(ProcessedAll(t, fewer), last.id, id, last.msg, last.reply);
      }
    }
  }

  lemma {:induction false} ProcessedAllSplits(t: Tables, first: seq<Entry>, rest: seq<Entry>)
    ensures ProcessedAll(t, first + rest) == ProcessedAll(ProcessedAll(t, first), rest)
  {
    if rest == [] {
      assert first + rest == first;
    } else {
      assert (first + rest)[..|first + rest| - 1] == first + rest[..|rest| - 1];
      ProcessedAllSplits(t, first, rest[..|rest| - 1]);
    }
  }

  /** After a reset that reached the consumer, a network's stored data is the replay of its own
      later messages from empty tables: whatever was stored before, and whatever consumers of
      other chains do in between. */
  lemma ReplayConverges(t: Tables, id: NetworkId, reply: Reply, entries: seq<Entry>)
    requires !reply.Disconnected? && OneDevnetPerChain(entries, id)
    ensures Slice(ProcessedAll(t, [Entry(id, Tracker.Reset, reply)] + entries), id)
            == ProcessedAll(EMPTY, Own(entries, id))
  {
    var reset := [Entry(id, Tracker.Reset, reply)];
    assert reset[..0] == [];
    assert ProcessedAll(t, reset) == Truncated(t, id);
    assert Slice(Truncated(t, id), id) == EMPTY;
    ProcessedAllSplits(t, reset, entries);
    NetworksDoNotInterfere(Truncated(t, id), id, entries);
  }

  /** Without that premise it fails for every database: a reset of a second devnet with the same
      chain id erases the first one's transactions and balances, and only its contracts stay. */
  lemma SiblingResetErases(t: Tables, id: NetworkId, sibling: NetworkId)
    requires sibling.chain == id.chain && sibling != id
    ensures Slice(Truncated(t, sibling), id) == Tables(map[], Slice(t, id).contracts, map[])
  {
    assert Slice(Truncated(t, sibling), id).contracts == Slice(t, id).contracts;
    assert Slice(Truncated(t, sibling), id).transactions == map[];
    assert Slice(Truncated(t, sibling), id).balances == map[];
  }

  /** Nor does it hold for a consumer of the previous epoch that is still at work: a block it saves
      after the reset stays, although the new epoch never emitted it. */
  lemma StaleBlockOutlivesReset(t: Tables, id: NetworkId, reply: Reply, header: NodeHistory.Header,
                                hash: nat, trace: string, row: nat)
    requires !reply.Disconnected?
    ensures var reset := Entry(id, Tracker.Reset, reply);
            var late := Entry(id, Tracker.Block(header), Served([Tx(hash, trace, row)], []));
            && Slice(ProcessedAll(t, [reset]), id) == EMPTY
            && Slice(ProcessedAll(t, [reset, late]), id).transactions == map[TxKey(hash, id.chain, trace) := row]
  {
    var reset := Entry(id, Tracker.Reset, reply);
    var event := Tx(hash, trace, row);
    var late := Entry(id, Tracker.Block(header), Served([event], []));
    var empty := Truncated(t, id);
    assert [reset, late][..1] == [reset] && [reset][..0] == [];
    assert ProcessedAll(t, [reset]) == empty;
    assert [event][..0] == [] && SavedAll(empty, id, []) == Saved(empty, true);
    assert SavedAll(empty, id, [event]).tables.transactions == empty.transactions[TxKey(hash, id.chain, trace) := row];
    assert ProcessedAll(t, [reset, late]) == SavedAll(empty, id, [event]).tables;
  }

  // ----- replaying blocks ------------------------------------------------------------------

  /** The trace and log events of each block. */
  type Content = Hash -> (seq<Event>, seq<Event>)

  /** Saving the blocks of a list of hashes one after the other. */
  function ReplayBlocks(t: Tables, id: NetworkId, content: Content, hashes: seq<Hash>): Tables {
    if hashes == [] then t
    else
      var (traces, logs) := content(hashes[|hashes| - 1]);
      BlockSaved(ReplayBlocks(t, id, content, hashes[..|hashes| - 1]), id, traces, logs).tables
  }

  lemma ReplayBlocksSnoc(t: Tables, id: NetworkId, content: Content, hashes: seq<Hash>, hash: Hash)
    ensures ReplayBlocks(t, id, content, hashes + [hash])
            == BlockSaved(ReplayBlocks(t, id, content, hashes), id, content(hash).0, content(hash).1).tables
  {
    assert (hashes + [hash])[..|hashes|] == hashes;
  }
}
