/** Unspent and spent outputs never overlap when only confirmed outputs are spent. */
module Disjointness {
  import opened Options
  import opened Ledger
  import opened Adding
  import opened LedgerRuns

  predicate Confirmed(s: Tables, t: Txid) {
    t in s.txns && s.txns[t].height > 0
  }

  /** Transactions form no cycles: rank grows from an output to its spender. */
  ghost predicate RankedTx(tx: Tx, rank: Txid -> nat) {
    forall op :: op in tx.ins ==> rank(op.hash) < rank(tx.id)
  }

  ghost predicate RankedSpends(s: Tables, rank: Txid -> nat) {
    forall op :: op in s.stxos ==> rank(op.hash) < rank(s.stxos[op].spendTxid)
  }

  /** The height cache differs from the stored height only for the dead. */
  ghost predicate CacheAgrees(s: Tables) {
    forall t :: t in s.txns ==> t in s.txids && (s.txids[t] == s.txns[t].height || s.txns[t].height == -1)
  }

  /** An output recorded as confirmed has its transaction stored as confirmed, and only such are spent. */
  ghost predicate ParentsConfirmed(s: Tables) {
    && (forall op :: op in s.utxos && s.utxos[op].atHeight > 0 ==> Confirmed(s, op.hash))
    && (forall op :: op in s.stxos ==> s.stxos[op].utxo.atHeight > 0 && Confirmed(s, op.hash))
  }

  ghost predicate Apart(s: Tables, rank: Txid -> nat) {
    && Keyed(s) && SpendersStored(s) && RankedSpends(s, rank)
    && s.utxos.Keys !! s.stxos.Keys
    && CacheAgrees(s) && ParentsConfirmed(s)
  }

  /** The premise on each added transaction: it spends wallet outputs only once confirmed. */
  ghost predicate SpendsConfirmed(s: Tables, event: Event) {
    Processed(s, event) ==> forall op :: op in event.tx.ins && op in s.utxos ==> s.utxos[op].atHeight > 0
  }

  lemma KillKeepsApart(s: Tables, d: set<Txid>, rank: Txid -> nat)
    requires Apart(s, rank) && Closed(s.stxos, d)
    ensures Apart(Kill(s, d), rank)
  {
    hide ParentsConfirmed, CacheAgrees, Keyed;
    KillKeepsParentsConfirmed(s, d);
    KillKeepsCache(s, d);
    KillKeyed(s, d);
    KillKeepsKeysApart(s, d, rank);
  }

  lemma KillKeepsParentsConfirmed(s: Tables, d: set<Txid>)
    requires ParentsConfirmed(s) && Closed(s.stxos, d)
    ensures ParentsConfirmed(Kill(s, d))
  {
    var k := Kill(s, d);
    forall t | Confirmed(s, t) && t !in d ensures Confirmed(k, t) {}
    hide Confirmed;
  }

  lemma KillKeepsCache(s: Tables, d: set<Txid>)
    requires CacheAgrees(s)
    ensures CacheAgrees(Kill(s, d))
  {
  }

  lemma KillKeepsKeysApart(s: Tables, d: set<Txid>, rank: Txid -> nat)
    requires SpendersStored(s) && RankedSpends(s, rank) && s.utxos.Keys !! s.stxos.Keys
    ensures var k := Kill(s, d);
            SpendersStored(k) && RankedSpends(k, rank) && k.utxos.Keys !! k.stxos.Keys
  {
  }

  lemma SettleKeepsApart(k: Tables, tx: Tx, height: int, pick: Option<OutPoint>, keyAdrs: seq<Script>,
                         rank: Txid -> nat)
    requires Apart(k, rank) && RankedTx(tx, rank) && !Confirmed(k, tx.id)
    requires forall op :: op in tx.ins && op in k.utxos ==> k.utxos[op].atHeight > 0
    requires Pick(Debited(Credited(k, tx, height), tx, height), tx.id, height, pick)
    ensures Apart(Settled(k, tx, height, pick, keyAdrs), rank)
  {
    hide Settled, Credited, Debited, Relevant, SettledFrom, Confirmed, ParentsConfirmed, CacheAgrees, Keyed,
         SpendersStored;
    SettledShape(k, tx, height, pick, keyAdrs);
    SettledKeyed(k, tx, height, pick, keyAdrs);
    SettledSpenders(k, tx, height, pick, keyAdrs);
    OutputsApart(k, tx, height, Settled(k, tx, height, pick, keyAdrs), rank, Relevant(k, tx, height, pick));
  }

  lemma OutputsApart(k: Tables, tx: Tx, height: int, e: Tables, rank: Txid -> nat, relevant: bool)
    requires Apart(k, rank) && RankedTx(tx, rank) && !Confirmed(k, tx.id)
    requires forall op :: op in tx.ins && op in k.utxos ==> k.utxos[op].atHeight > 0
    requires SettledFrom(k, tx, height, e, relevant)
    ensures RankedSpends(e, rank) && e.utxos.Keys !! e.stxos.Keys && CacheAgrees(e) && ParentsConfirmed(e)
  {
    KeysApart(k, tx, height, e, rank);
    CacheSettled(k, tx, height, e, relevant);
    ConfirmedKept(k, tx, height, e, relevant);
    ParentsSettled(k, tx, height, e, relevant);
  }

  lemma KeysApart(k: Tables, tx: Tx, height: int, e: Tables, rank: Txid -> nat)
    requires RankedSpends(k, rank) && RankedTx(tx, rank) && !Confirmed(k, tx.id) && ParentsConfirmed(k)
    requires k.utxos.Keys !! k.stxos.Keys
    requires OutputsSettled(k, tx, height, e)
    ensures RankedSpends(e, rank) && e.utxos.Keys !! e.stxos.Keys
  {
    hide NewUtxo, Own;
  }

  lemma CacheSettled(k: Tables, tx: Tx, height: int, e: Tables, relevant: bool)
    requires CacheAgrees(k)
    requires if relevant then RowSettled(k, tx, height, e) else e.txns == k.txns && e.txids == k.txids
    ensures CacheAgrees(e)
  {
    hide NetValue;
  }

  lemma ConfirmedKept(k: Tables, tx: Tx, height: int, e: Tables, relevant: bool)
    requires !Confirmed(k, tx.id)
    requires if relevant then RowSettled(k, tx, height, e) else e.txns == k.txns && e.txids == k.txids
    ensures forall t :: Confirmed(k, t) ==> Confirmed(e, t)
    ensures relevant && height > 0 ==> Confirmed(e, tx.id)
  {
    hide NetValue, Heights;
  }

  lemma ParentsSettled(k: Tables, tx: Tx, height: int, e: Tables, relevant: bool)
    requires ParentsConfirmed(k)
    requires forall op :: op in tx.ins && op in k.utxos ==> k.utxos[op].atHeight > 0
    requires OutputsSettled(k, tx, height, e)
    requires forall op :: IsCredit(tx, k.adrs, op) ==> relevant
    requires forall t :: Confirmed(k, t) ==> Confirmed(e, t)
    requires relevant && height > 0 ==> Confirmed(e, tx.id)
    ensures ParentsConfirmed(e)
  {
    hide Confirmed, Own;
    forall op | op in e.utxos && e.utxos[op].atHeight > 0 ensures Confirmed(e, op.hash) {
      if !IsCredit(tx, k.adrs, op) { assert Confirmed(k, op.hash); }
    }
    forall op | op in e.stxos ensures e.stxos[op].utxo.atHeight > 0 && Confirmed(e, op.hash) {
      assert Confirmed(k, op.hash);
    }
  }

  lemma AddKeepsApart(s: Tables, event: Event, e: Tables, rank: Txid -> nat)
    requires event.Add? && Apart(s, rank) && Step(s, event, e)
    requires Processed(s, event) ==> RankedTx(event.tx, rank) && SpendsConfirmed(s, event)
    ensures Apart(e, rank)
  {
    hide Settled, Pick, Debited, Credited, Acyclic, Keyed, Sane, Shares, Conflicts, Step;
    var k, pick := Process(s, event, e);
    if Processed(s, event) {
      RankedIsAcyclic(s.stxos, rank);
      KillKeepsApart(s, Descendants(s.stxos, Conflicts(s, event.tx)), rank);
      hide Closed, Descendants;
      SettleKeepsApart(k, event.tx, event.height, pick, event.keyAdrs, rank);
    }
  }

  lemma FreezeKeepsApart(s: Tables, op: OutPoint, frozen: bool, rank: Txid -> nat)
    requires Apart(s, rank)
    ensures Apart(SetFrozen(s, op, frozen), rank)
  {
  }

  lemma RestartKeepsApart(s: Tables, keyAdrs: seq<Script>, rank: Txid -> nat)
    requires Apart(s, rank)
    ensures Apart(Reopened(s, keyAdrs), rank)
  {
  }

  /** No outpoint is ever both unspent and spent, as long as every added transaction spends
      wallet outputs only once they are confirmed. */
  lemma {:induction false} NeverBothUnspentAndSpent(states: seq<Tables>, events: seq<Event>, rank: Txid -> nat)
    requires Run(states, events)
    requires forall i :: 0 <= i < |events| && Processed(states[i], events[i]) ==>
               RankedTx(events[i].tx, rank) && SpendsConfirmed(states[i], events[i])
    ensures Apart(states[|events|], rank)
    decreases |events|
  {
    hide Step, Apart, Processed, RankedTx, SpendsConfirmed;
    if events == [] {
      var adrs, keepsFrozen :| states[0] == Empty(adrs, keepsFrozen);
      EmptyIsApart(adrs, keepsFrozen, rank);
    } else {
      var n := |events| - 1;
      assert Run(states[..n + 1], events[..n]);
      NeverBothUnspentAndSpent(states[..n + 1], events[..n], rank);
      StepKeepsApart(states[n], events[n], states[n + 1], rank);
    }
  }

  lemma EmptyIsApart(adrs: seq<Script>, keepsFrozen: bool, rank: Txid -> nat)
    ensures Apart(Empty(adrs, keepsFrozen), rank)
  {
  }

  lemma StepKeepsApart(s: Tables, event: Event, e: Tables, rank: Txid -> nat)
    requires Apart(s, rank) && Step(s, event, e)
    requires Processed(s, event) ==> RankedTx(event.tx, rank) && SpendsConfirmed(s, event)
    ensures Apart(e, rank)
  {
    hide Apart, Processed, RankedTx, SpendsConfirmed, Added;
    match event
    case Add(_, _, _) => AddKeepsApart(s, event, e, rank);
    case Freeze(op) => FreezeKeepsApart(s, op, true, rank);
    case UnFreeze(op) => FreezeKeepsApart(s, op, false, rank);
    case Restart(keyAdrs) => RestartKeepsApart(s, keyAdrs, rank);
  }
}
