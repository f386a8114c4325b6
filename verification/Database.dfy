/** The tables the devnet consumer writes, and the operations that write them. */
module Database {
  import opened Types
  import Ledger

  datatype TxKey = TxKey(hash: nat, chain: nat, trace: string)
  datatype ContractKey = ContractKey(address: Address, id: NetworkId)
  datatype BalanceKey = BalanceKey(contract: Address, owner: Address, chain: nat)
  datatype TokenKey = TokenKey(contract: Address, chain: nat)

  /** What the source stores of a contract.  `code`, `abi` and `name` stand for opaque text. */
  datatype ContractRow = ContractRow(code: Option<nat>, abi: Option<nat>, name: Option<nat>,
                                     proxyFor: Option<Address>, proxiedBy: Option<Address>)

  type Transactions = map<TxKey, nat>
  type Contracts = map<ContractKey, ContractRow>
  type Balances = map<BalanceKey, nat>

  /** Names, symbols and decimals of tokens, as opaque values. */
  type Metadata = map<TokenKey, nat>

  datatype Tables = Tables(transactions: Transactions, contracts: Contracts, balances: Balances)

  const EMPTY := Tables(map[], map[], map[])

  datatype Event =
    | Tx(hash: nat, trace: string, row: nat)
    | ContractDeployed(address: Address, code: Option<nat>, proxyFor: Option<Address>)
    | ERC20Transfer(contract: Address, transfer: Ledger.Transfer)

  // ----- what each write does --------------------------------------------------------------

  /** `INSERT OR IGNORE`: the first row for a key stays. */
  function Inserted(txs: Transactions, key: TxKey, row: nat): Transactions {
    if key in txs then txs else txs[key := row]
  }

  /** `insert_contract_with_abi`: an upsert of the contract that never changes an existing row's
      links, then an upsert of the implementation that only sets its back link. */
  function Upserted(contracts: Contracts, id: NetworkId, address: Address, code: Option<nat>,
                    abi: Option<nat>, name: Option<nat>, proxyFor: Option<Address>): Contracts
  {
    var key := ContractKey(address, id);
    var row := if key in contracts
               then contracts[key].(code := code, abi := abi, name := name)
               else ContractRow(code, abi, name, proxyFor, None);
    var own := contracts[key := row];
    if proxyFor.None? then own
    else
      var implKey := ContractKey(proxyFor.value, id);
      own[implKey := if implKey in own then own[implKey].(proxiedBy := Some(address))
                     else ContractRow(None, None, None, None, Some(address))]
  }

  function Read(balances: Balances, chain: nat, contract: Address, owner: Address): Option<nat> {
    var key := BalanceKey(contract, owner, chain);
    if key in balances then Some(balances[key]) else None
  }

  function Debited(balances: Balances, chain: nat, contract: Address, t: Ledger.Transfer): Balances
    requires t.from != Ledger.ZERO_ADDRESS ==> Read(balances, chain, contract, t.from).Some?
  {
    if t.from == Ledger.ZERO_ADDRESS then balances
    else
      balances[BalanceKey(contract, t.from, chain) :=
                 Ledger.SaturatingSub(Read(balances, chain, contract, t.from).value, t.value)]
  }

  function Credited(balances: Balances, chain: nat, contract: Address, t: Ledger.Transfer): Balances {
    var row := Read(balances, chain, contract, t.to);
    if t.to == Ledger.ZERO_ADDRESS then balances
    else
      balances[BalanceKey(contract, t.to, chain) :=
                 ((if row.Some? then row.value else 0) + t.value) % Ledger.U256_RANGE]
  }

  /** `process_erc20_transfer` on the shared balances table. */
  function Transferred(balances: Balances, chain: nat, contract: Address, t: Ledger.Transfer): Option<Balances> {
    if t.from != Ledger.ZERO_ADDRESS && Read(balances, chain, contract, t.from).None? then None
    else Some(Credited(Debited(balances, chain, contract, t), chain, contract, t))
  }

  /** The rows of one token. */
  function Token(balances: Balances, chain: nat, contract: Address): Ledger.Holdings {
    map k | k in balances && k.chain == chain && k.contract == contract :: k.owner := balances[k]
  }

  lemma TokenAfterUpdate(balances: Balances, key: BalanceKey, balance: nat, chain: nat, contract: Address)
    ensures Token(balances[key := balance], chain, contract) ==
            if (key.chain, key.contract) == (chain, contract)
            then Token(balances, chain, contract)[key.owner := balance]
            else Token(balances, chain, contract)
  {
    var before, after := Token(balances, chain, contract), Token(balances[key := balance], chain, contract);
    forall o: Address
      ensures o in before <==> BalanceKey(contract, o, chain) in balances
      ensures o in after <==> BalanceKey(contract, o, chain) in balances[key := balance]
    {
    }
  }

  lemma ReadIsTokenRow(balances: Balances, chain: nat, contract: Address, owner: Address)
    ensures Read(balances, chain, contract, owner) ==
            if owner in Token(balances, chain, contract) then Some(Token(balances, chain, contract)[owner]) else None
  {
    assert owner in Token(balances, chain, contract) <==> BalanceKey(contract, owner, chain) in balances;
  }

  lemma DebitIsLocal(balances: Balances, chain: nat, contract: Address, t: Ledger.Transfer,
                     otherChain: nat, otherContract: Address)
    requires t.from != Ledger.ZERO_ADDRESS ==> t.from in Token(balances, chain, contract)
    ensures t.from != Ledger.ZERO_ADDRESS ==> Read(balances, chain, contract, t.from).Some?
    ensures Token(Debited(balances, chain, contract, t), otherChain, otherContract) ==
            if (otherChain, otherContract) == (chain, contract)
            then Ledger.Debit(Token(balances, chain, contract), t)
            else Token(balances, otherChain, otherContract)
  {
    if t.from != Ledger.ZERO_ADDRESS {
      ReadIsTokenRow(balances, chain, contract, t.from);
      var left := Ledger.SaturatingSub(Read(balances, chain, contract, t.from).value, t.value);
      TokenAfterUpdate(balances, BalanceKey(contract, t.from, chain), left, otherChain, otherContract);
    }
  }

  lemma CreditIsLocal(balances: Balances, chain: nat, contract: Address, t: Ledger.Transfer,
                      otherChain: nat, otherContract: Address)
    ensures Token(Credited(balances, chain, contract, t), otherChain, otherContract) ==
            if (otherChain, otherContract) == (chain, contract)
            then Ledger.Credit(Token(balances, chain, contract), t)
            else Token(balances, otherChain, otherContract)
  {
    if t.to != Ledger.ZERO_ADDRESS {
      ReadIsTokenRow(balances, chain, contract, t.to);
      var sum := (Ledger.BalanceOf(Token(balances, chain, contract), t.to) + t.value) % Ledger.U256_RANGE;
      TokenAfterUpdate(balances, BalanceKey(contract, t.to, chain), sum, otherChain, otherContract);
    }
  }

  /** On the table, a transfer is the ledger's transfer on the rows of its own token, and touches
      no other token. */
  lemma TransferIsLocal(balances: Balances, chain: nat, contract: Address, t: Ledger.Transfer,
                        otherChain: nat, otherContract: Address)
    ensures Transferred(balances, chain, contract, t).Some? <==>
            Ledger.Process(Token(balances, chain, contract), t).Some?
    ensures var after := Transferred(balances, chain, contract, t);
            after.Some? ==>
              Token(after.value, otherChain, otherContract) ==
              if (otherChain, otherContract) == (chain, contract)
              then Ledger.Process(Token(balances, chain, contract), t).value
              else Token(balances, otherChain, otherContract)
  {
    ReadIsTokenRow(balances, chain, contract, t.from);
    if Transferred(balances, chain, contract, t).Some? {
      DebitIsLocal(balances, chain, contract, t, chain, contract);
      DebitIsLocal(balances, chain, contract, t, otherChain, otherContract);
      CreditIsLocal(Debited(balances, chain, contract, t), chain, contract, t, otherChain, otherContract);
    }
  }

  /** One event of a block; `None` when the write fails. */
  function Applied(t: Tables, id: NetworkId, e: Event): Option<Tables> {
    match e
    case Tx(hash, trace, row) =>
      Some(t.(transactions := Inserted(t.transactions, TxKey(hash, id.chain, trace), row)))
    case ContractDeployed(address, code, proxyFor) =>
      Some(t.(contracts := Upserted(t.contracts, id, address, code, None, None, proxyFor)))
    case ERC20Transfer(contract, transfer) =>
      var balances := Transferred(t.balances, id.chain, contract, transfer);
      if balances.None? then None else Some(t.(balances := balances.value))
  }

  /** What is stored after a list of events: the first failing event ends the list. */
  datatype Saved = Saved(tables: Tables, ok: bool)

  function SavedAll(t: Tables, id: NetworkId, events: seq<Event>): Saved {
    if events == [] then Saved(t, true)
    else
      var before := SavedAll(t, id, events[..|events| - 1]);
      if !before.ok then before
      else
        var after := Applied(before.tables, id, events[|events| - 1]);
        if after.None? then Saved(before.tables, false) else Saved(after.value, true)
  }

  // ----- saved events and the ledger -------------------------------------------------------

  /** The events that were written: those before the first failing one. */
  function Written(t: Tables, id: NetworkId, events: seq<Event>): seq<Event> {
    if events == [] then []
    else
      var fewer, last := events[..|events| - 1], events[|events| - 1];
      var before := SavedAll(t, id, fewer);
      if before.ok && Applied(before.tables, id, last).Some? then Written(t, id, fewer) + [last]
      else Written(t, id, fewer)
  }

  /** The transfers of one token among some events. */
  function TransfersOf(events: seq<Event>, contract: Address): seq<Ledger.Transfer> {
    if events == [] then []
    else
      var last := events[|events| - 1];
      TransfersOf(events[..|events| - 1], contract)
      + if last.ERC20Transfer? && last.contract == contract then [last.transfer] else []
  }

  lemma TransfersOfSnoc(events: seq<Event>, e: Event, contract: Address)
    ensures TransfersOf(events + [e], contract)
            == if e.ERC20Transfer? && e.contract == contract then TransfersOf(events, contract) + [e.transfer]
               else TransfersOf(events, contract)
  {
    assert (events + [e])[..|events|] == events;
  }

  lemma AppliedToToken(t: Tables, id: NetworkId, e: Event, contract: Address)
    requires Applied(t, id, e).Some?
    ensures var before := Token(t.balances, id.chain, contract);
            var after := Token(Applied(t, id, e).value.balances, id.chain, contract);
            if e.ERC20Transfer? && e.contract == contract then Ledger.Process(before, e.transfer) == Some(after)
            else after == before
  {
    if e.ERC20Transfer? {
      TransferIsLocal(t.balances, id.chain, e.contract, e.transfer, id.chain, contract);
    }
  }

  /** Saving a block's events leaves, for every token, the ledger's replay of the token's transfers
      among the events written. */
  lemma {:induction false} SavedTokenIsReplayed(t: Tables, id: NetworkId, events: seq<Event>, contract: Address)
    ensures Ledger.Replay(Token(t.balances, id.chain, contract), TransfersOf(Written(t, id, events), contract))
            == Some(Token(SavedAll(t, id, events).tables.balances, id.chain, contract))
  {
    if events != [] {
      hide Token, Applied;
      var fewer, last := events[..|events| - 1], events[|events| - 1];
      SavedTokenIsReplayed(t, id, fewer, contract);
      var before := SavedAll(t, id, fewer);
      if before.ok && Applied(before.tables, id, last).Some? {
        AppliedToToken(before.tables, id, last, contract);
        WrittenOneMore(Token(t.balances, id.chain, contract), Written(t, id, fewer), last, contract);
      }
    }
  }

  lemma WrittenOneMore(h: Ledger.Holdings, written: seq<Event>, e: Event, contract: Address)
    requires Ledger.Replay(h, TransfersOf(written, contract)).Some?
    ensures Ledger.Replay(h, TransfersOf(written + [e], contract))
            == if e.ERC20Transfer? && e.contract == contract
               then Ledger.Process(Ledger.Replay(h, TransfersOf(written, contract)).value, e.transfer)
               else Ledger.Replay(h, TransfersOf(written, contract))
  {
    hide Ledger.Replay, Ledger.Process, TransfersOf;
    TransfersOfSnoc(written, e, contract);
    if e.ERC20Transfer? {
      Ledger.ReplayOfSnoc(h, TransfersOf(written, contract), e.transfer);
    }
  }

  /** So in the balances table, too, covered transfers conserve every owner's balance and the supply. */
  lemma SavedEventsConserve(t: Tables, id: NetworkId, events: seq<Event>, contract: Address, owner: Address)
    requires var transfers := TransfersOf(Written(t, id, events), contract);
             && Ledger.Bounded(Token(t.balances, id.chain, contract))
             && Ledger.AllCovered(Token(t.balances, id.chain, contract), transfers)
             && forall i :: 0 <= i < |transfers| ==> transfers[i].value < Ledger.U256_RANGE
    ensures var transfers := TransfersOf(Written(t, id, events), contract);
            var before := Token(t.balances, id.chain, contract);
            var after := Token(SavedAll(t, id, events).tables.balances, id.chain, contract);
            && (owner != Ledger.ZERO_ADDRESS ==>
                  Ledger.BalanceOf(after, owner)
                  == Ledger.BalanceOf(before, owner) + Ledger.Inflow(transfers, owner)
                     - Ledger.Outflow(transfers, owner))
            && Ledger.Supply(after)
               == Ledger.Supply(before) + Ledger.Outflow(transfers, Ledger.ZERO_ADDRESS)
                  - Ledger.Inflow(transfers, Ledger.ZERO_ADDRESS)
  {
    SavedTokenIsReplayed(t, id, events, contract);
    Ledger.ReplayConserves(Token(t.balances, id.chain, contract), TransfersOf(Written(t, id, events), contract));
  }

  // ----- the writes, row by row ------------------------------------------------------------

  /** What an upsert leaves in the row of `key`: code, ABI and name as given, new row or old; links
      only if the row is new; and a back link in the implementation's row. */
  lemma UpsertedRow(contracts: Contracts, id: NetworkId, address: Address, code: Option<nat>,
                    abi: Option<nat>, name: Option<nat>, proxyFor: Option<Address>, key: ContractKey)
    ensures var after := Upserted(contracts, id, address, code, abi, name, proxyFor);
            var own := key == ContractKey(address, id);
            var backed := key.id == id && proxyFor == Some(key.address);
            && (key in after <==> key in contracts || own || backed)
            && (own ==>
                  && after[key].code == code && after[key].abi == abi && after[key].name == name
                  && after[key].proxyFor == if key in contracts then contracts[key].proxyFor else proxyFor)
            && (backed ==> after[key].proxiedBy == Some(address))
            && (key in after && !own ==>
                  if key in contracts
                  then after[key] == contracts[key].(proxiedBy := after[key].proxiedBy)
                  else after[key] == ContractRow(None, None, None, None, Some(address)))
            && (key in after && !backed ==>
                  after[key].proxiedBy == if key in contracts then contracts[key].proxiedBy else None)
  {
  }

  /** A balance after a transfer: a sender without a row is an error, whatever the recipient; the
      sender's row goes down to zero at the least and the recipient's goes up, around 2^256; a
      transfer to oneself does first one, then the other. */
  lemma TransferredRow(balances: Balances, chain: nat, contract: Address, t: Ledger.Transfer, key: BalanceKey)
    ensures Transferred(balances, chain, contract, t).None? <==>
            t.from != 0 && BalanceKey(contract, t.from, chain) !in balances
    ensures var after := Transferred(balances, chain, contract, t);
            var before := if key in balances then balances[key] else 0;
            var ours := key.contract == contract && key.chain == chain && key.owner != 0;
            var kept := if !(ours && key.owner == t.from) then before
                        else if t.value <= before then before - t.value else 0;
            after.Some? ==>
              && (key in after.value <==> key in balances || (ours && key.owner == t.to))
              && (key in after.value ==>
                    after.value[key] ==
                    if ours && key.owner == t.to
                    then (kept + t.value)
                         % 0x1_0000000000000000_0000000000000000_0000000000000000_0000000000000000
                    else kept)
  {
  }

  /** Each event writes to its own table, under the network it came from, and nowhere else. */
  lemma AppliedToItsTable(t: Tables, id: NetworkId, e: Event, tx: TxKey)
    ensures Applied(t, id, e).None? <==>
            e.ERC20Transfer? && e.transfer.from != 0
            && BalanceKey(e.contract, e.transfer.from, id.chain) !in t.balances
    ensures Applied(t, id, e).Some? ==>
              var after := Applied(t, id, e).value;
              && (tx in after.transactions <==> tx in t.transactions || WritesTx(e, id, tx))
              && (tx in t.transactions ==> after.transactions[tx] == t.transactions[tx])
              && (tx !in t.transactions && WritesTx(e, id, tx) ==> after.transactions[tx] == e.row)
              && after.contracts == (if e.ContractDeployed?
                                     then Upserted(t.contracts, id, e.address, e.code, None, None, e.proxyFor)
                                     else t.contracts)
              && after.balances == (if e.ERC20Transfer?
                                    then Transferred(t.balances, id.chain, e.contract, e.transfer).value
                                    else t.balances)
  {
  }

  predicate WritesTx(e: Event, id: NetworkId, tx: TxKey) {
    e.Tx? && tx == TxKey(e.hash, id.chain, e.trace)
  }

  /** The events written are all of them, or those before the first whose write fails; and it is
      their effect that is stored. */
  lemma {:induction false} WrittenIsPrefix(t: Tables, id: NetworkId, events: seq<Event>)
    ensures var written, saved := Written(t, id, events), SavedAll(t, id, events);
            && written <= events && SavedAll(t, id, written) == Saved(saved.tables, true)
            && (saved.ok <==> written == events)
            && (!saved.ok ==> Applied(saved.tables, id, events[|written|]).None?)
  {
    if events != [] {
      hide Applied;
      var fewer, last := events[..|events| - 1], events[|events| - 1];
      WrittenIsPrefix(t, id, fewer);
      assert events == fewer + [last];
    }
  }

  lemma {:induction false} SavedAllSplits(t: Tables, id: NetworkId, a: seq<Event>, b: seq<Event>)
    ensures SavedAll(t, id, a + b) ==
            if SavedAll(t, id, a).ok then SavedAll(SavedAll(t, id, a).tables, id, b) else SavedAll(t, id, a)
  {
    if b == [] {
      assert a + b == a;
    } else {
      hide Applied;
      assert (a + b)[..|a + b| - 1] == a + b[..|b| - 1];
      SavedAllSplits(t, id, a, b[..|b| - 1]);
    }
  }

  lemma WrittenOfSnoc(t: Tables, id: NetworkId, events: seq<Event>, e: Event)
    ensures var before := SavedAll(t, id, events);
            Written(t, id, events + [e]) ==
            if before.ok && Applied(before.tables, id, e).Some? then Written(t, id, events) + [e]
            else Written(t, id, events)
  {
    assert (events + [e])[..|events|] == events;
  }

  lemma NothingIsWritten(t: Tables, id: NetworkId)
    ensures Written(t, id, []) == []
  {
  }

  lemma {:induction false} WrittenSplits(t: Tables, id: NetworkId, a: seq<Event>, b: seq<Event>)
    ensures Written(t, id, a + b) ==
            if SavedAll(t, id, a).ok then a + Written(SavedAll(t, id, a).tables, id, b) else Written(t, id, a)
  {
    hide SavedAll, Written, Applied;
    WrittenIsPrefix(t, id, a);
    if b == [] {
      NothingIsWritten(SavedAll(t, id, a).tables, id);
      assert a + b == a;
    } else {
      var fewer, last := b[..|b| - 1], b[|b| - 1];
      WrittenSplits(t, id, a, fewer);
      SavedAllSplits(t, id, a, fewer);
      WrittenOfSnoc(t, id, a + fewer, last);
      WrittenOfSnoc(SavedAll(t, id, a).tables, id, fewer, last);
      assert a + b == (a + fewer) + [last] && b == fewer + [last];
    }
  }

  /** A transaction row is there afterwards exactly if it was before or one of the events written
      brings it; a row that was there keeps its content. */
  lemma {:induction false} StoredTransactions(t: Tables, id: NetworkId, events: seq<Event>, tx: TxKey)
    ensures var after := SavedAll(t, id, events).tables.transactions;
            && (tx in t.transactions ==> tx in after && after[tx] == t.transactions[tx])
            && (tx in after <==> tx in t.transactions || exists e :: e in Written(t, id, events) && WritesTx(e, id, tx))
  {
    if events != [] {
      var fewer, last := events[..|events| - 1], events[|events| - 1];
      StoredTransactions(t, id, fewer, tx);
      var before := SavedAll(t, id, fewer);
      if before.ok && Applied(before.tables, id, last).Some? {
        AppliedToItsTable(before.tables, id, last, tx);
        hide Applied, WritesTx;
        assert Written(t, id, events) == Written(t, id, fewer) + [last];
      }
    }
  }

  /** Among several events with one key the first wins. */
  lemma {:induction false} FirstTransactionStays(t: Tables, id: NetworkId, events: seq<Event>, i: nat)
    requires i < |events| && events[i].Tx? && SavedAll(t, id, events[..i]).ok
    ensures var tx := TxKey(events[i].hash, id.chain, events[i].trace);
            var before, after := SavedAll(t, id, events[..i]).tables, SavedAll(t, id, events).tables;
            && tx in after.transactions
            && after.transactions[tx] == if tx in before.transactions then before.transactions[tx] else events[i].row
  {
    var tx := TxKey(events[i].hash, id.chain, events[i].trace);
    var upTo := events[..i + 1];
    assert upTo[..i] == events[..i];
    AppliedToItsTable(SavedAll(t, id, events[..i]).tables, id, events[i], tx);
    assert events == upTo + events[i + 1..];
    SavedAllSplits(t, id, upTo, events[i + 1..]);
    StoredTransactions(SavedAll(t, id, upTo).tables, id, events[i + 1..], tx);
  }

  // ----- deleting ---------------------------------------------------------------------------

  /** `truncate_events`: transactions and balances go by chain, contracts by chain and dedup id. */
  function Truncated(t: Tables, id: NetworkId): Tables {
    Tables(map k | k in t.transactions && k.chain != id.chain :: t.transactions[k],
           map k | k in t.contracts && k.id != id :: t.contracts[k],
           map k | k in t.balances && k.chain != id.chain :: t.balances[k])
  }

  // ----- token metadata --------------------------------------------------------------------

  /** `get_erc20_missing_metadata` */
  function Missing(metadata: Metadata, balances: Balances, chain: nat): set<TokenKey> {
    set b | b in balances && b.chain == chain && TokenKey(b.contract, chain) !in metadata :: TokenKey(b.contract, chain)
  }

  function Described(metadata: Metadata, tokens: set<TokenKey>, lookup: Address -> nat): Metadata {
    map k | k in metadata.Keys + tokens :: if k in tokens then lookup(k.contract) else metadata[k]
  }

  function OffChain(metadata: Metadata, chain: nat): Metadata {
    map k | k in metadata && k.chain != chain :: metadata[k]
  }

  class Db {
    var transactions: Transactions
    var contracts: Contracts
    var balances: Balances
    var metadata: Metadata

    function Contents(): Tables
      reads this
    {
      Tables(transactions, contracts, balances)
    }

    constructor ()
      ensures Contents() == EMPTY && metadata == map[]
    {
      transactions, contracts, balances, metadata := map[], map[], map[], map[];
    }

    method TruncateEvents(id: NetworkId)
      modifies this
      ensures Contents() == Truncated(old(Contents()), id) && metadata == OffChain(old(metadata), id.chain)
      ensures transactions == old(transactions) - set k | k in old(transactions) && k.chain == id.chain
      ensures contracts == old(contracts) - set k | k in old(contracts) && k.id == id
      ensures balances == old(balances) - set k | k in old(balances) && k.chain == id.chain
      ensures metadata == old(metadata) - set k | k in old(metadata) && k.chain == id.chain
    {
      transactions := map k | k in transactions && k.chain != id.chain :: transactions[k];
      contracts := map k | k in contracts && k.id != id :: contracts[k];
      balances := map k | k in balances && k.chain != id.chain :: balances[k];
      metadata := OffChain(metadata, id.chain);
    }

    /** Looks up and saves what is missing about the chain's tokens. */
    method SaveMissingMetadata(chain: nat, lookup: Address -> nat)
      modifies this`metadata
      ensures metadata == Described(old(metadata), Missing(old(metadata), balances, chain), lookup)
      ensures Missing(metadata, balances, chain) == {}
      ensures forall k :: k in metadata <==>
                k in old(metadata) || (k.chain == chain && exists b :: b in balances && b.chain == chain
                                                                       && b.contract == k.contract)
      ensures forall k :: k in metadata ==>
                metadata[k] == if k in old(metadata) then old(metadata)[k] else lookup(k.contract)
    {
      ghost var missing := Missing(metadata, balances, chain);
      var left := Missing(metadata, balances, chain);
      while left != {}
        invariant left <= missing && metadata == Described(old(metadata), missing - left, lookup)
        decreases left
      {
        var key :| key in left;
        metadata, left := metadata[key := lookup(key.contract)], left - {key};
      }
      assert missing - left == missing;
    }

    method InsertContractWithAbi(id: NetworkId, address: Address, code: Option<nat>, abi: Option<nat>,
                                 name: Option<nat>, proxyFor: Option<Address>)
      modifies this`contracts
      ensures contracts == Upserted(old(contracts), id, address, code, abi, name, proxyFor)
    {
      var key := ContractKey(address, id);
      if key in contracts {
        contracts := contracts[key := contracts[key].(code := code, abi := abi, name := name)];
      } else {
        contracts := contracts[key := ContractRow(code, abi, name, proxyFor, None)];
      }
      if proxyFor.Some? {
        var implKey := ContractKey(proxyFor.value, id);
        if implKey in contracts {
          contracts := contracts[implKey := contracts[implKey].(proxiedBy := Some(address))];
        } else {
          contracts := contracts[implKey := ContractRow(None, None, None, None, Some(address))];
        }
      }
    }

    method RemoveContract(id: NetworkId, address: Address)
      modifies this`contracts
      ensures contracts == old(contracts) - {ContractKey(address, id)}
    {
      contracts := contracts - {ContractKey(address, id)};
    }

    method RemoveContracts(id: NetworkId)
      modifies this`contracts
      ensures contracts == Truncated(old(Contents()), id).contracts
      ensures contracts == old(contracts) - set k | k in old(contracts) && k.id == id
    {
      contracts := map k | k in contracts && k.id != id :: contracts[k];
    }

    method ProcessErc20Transfer(chain: nat, contract: Address, t: Ledger.Transfer) returns (ok: bool)
      modifies this`balances
      ensures ok <==> Transferred(old(balances), chain, contract, t).Some?
      ensures balances == if ok then Transferred(old(balances), chain, contract, t).value else old(balances)
    {
      if t.from != Ledger.ZERO_ADDRESS {
        var current := Read(balances, chain, contract, t.from);
        if current.None? {
          return false;
        }
        balances := balances[BalanceKey(contract, t.from, chain) :=
                               Ledger.SaturatingSub(current.value, t.value)];
      }
      if t.to != Ledger.ZERO_ADDRESS {
        var row := Read(balances, chain, contract, t.to);
        var current := if row.Some? then row.value else 0;
        balances := balances[BalanceKey(contract, t.to, chain) := (current + t.value) % Ledger.U256_RANGE];
      }
      return true;
    }

    method SaveEvents(id: NetworkId, events: seq<Event>) returns (ok: bool)
      modifies this`transactions, this`contracts, this`balances
      ensures Saved(Contents(), ok) == SavedAll(old(Contents()), id, events)
    {
      for i := 0 to |events|
        invariant SavedAll(old(Contents()), id, events[..i]) == Saved(Contents(), true)
      {
        assert events[..i + 1][..i] == events[..i];
        match events[i] {
          case Tx(hash, trace, row) =>
            var key := TxKey(hash, id.chain, trace);
            if key !in transactions {
              transactions := transactions[key := row];
            }
          case ContractDeployed(address, code, proxyFor) =>
            InsertContractWithAbi(id, address, code, None, None, proxyFor);
          case ERC20Transfer(contract, transfer) =>
            var saved := ProcessErc20Transfer(id.chain, contract, transfer);
            if !saved {
              FailureEndsTheList(old(Contents()), id, events, i + 1);
              return false;
            }
        }
      }
      assert events[..|events|] == events;
      return true;
    }
  }

  lemma {:induction false} FailureEndsTheList(t: Tables, id: NetworkId, events: seq<Event>, i: nat)
    requires i <= |events| && !SavedAll(t, id, events[..i]).ok
    ensures SavedAll(t, id, events) == SavedAll(t, id, events[..i])
    decreases |events|
  {
    if i == |events| {
      assert events[..i] == events;
    } else {
      assert events[..|events| - 1][..i] == events[..i];
      FailureEndsTheList(t, id, events[..|events| - 1], i);
    }
  }
}
