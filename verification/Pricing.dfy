/** Every stored row has the value its transaction gives it, and conservation over runs that bring dead
    transactions back. */
module Pricing {
  import opened Adding
  import opened Conservation
  import opened Disjointness
  import opened ExactAdding
  import opened Ledger
  import opened LedgerRuns
  import opened Sums

  // ---------------------------------------------------------------------------
  // Own scripts that change
  // ---------------------------------------------------------------------------

  /** tx pays us the same outputs under either list of own scripts. */
  ghost predicate PaysAlike(tx: Tx, a: seq<Script>, b: seq<Script>) {
    forall op :: IsCredit(tx, a, op) <==> IsCredit(tx, b, op)
  }

  ghost predicate AllPayAlike(txns: map<Txid, Txn>, a: seq<Script>, b: seq<Script>) {
    forall t :: t in txns ==> PaysAlike(txns[t].tx, a, b)
  }

  /** Own scripts may grow, as they do with every key that is paid, as long as nothing pays a new one yet. */
  lemma GrowingPaysAlike(tx: Tx, a: seq<Script>, b: seq<Script>)
    requires forall x :: x in a ==> x in b
    requires forall i :: 0 <= i < |tx.outs| && tx.outs[i].script in b ==> tx.outs[i].script in a
    ensures PaysAlike(tx, a, b)
  {
  }

  lemma AlikeCredits(tx: Tx, a: seq<Script>, b: seq<Script>)
    requires PaysAlike(tx, a, b)
    ensures CreditSet(tx, a, |tx.outs|) == CreditSet(tx, b, |tx.outs|)
  {
    forall i: nat | i < |tx.outs| ensures Own(tx, a, i) <==> Own(tx, b, i) {
      assert IsCredit(tx, a, OutPoint(tx.id, i)) <==> IsCredit(tx, b, OutPoint(tx.id, i));
    }
  }

  lemma AlikeItself(txns: map<Txid, Txn>, a: seq<Script>)
    ensures AllPayAlike(txns, a, a)
  {
  }

  /** Every output of a live transaction that pays an own script is in the tables. */
  ghost predicate FullyCredited(s: Tables) {
    forall t, op :: Live(s, t) && IsCredit(s.txns[t].tx, s.adrs, op) ==> op in Held(s)
  }

  lemma KillKeepsCredits(s: Tables, d: set<Txid>)
    requires FullyCredited(s) && Keyed(s)
    ensures FullyCredited(Kill(s, d))
  {
    hide Own;
    var k := Kill(s, d);
    forall t, op | Live(k, t) && IsCredit(k.txns[t].tx, k.adrs, op) ensures op in Held(k) {
      assert Live(s, t) && op in Held(s) && op.hash !in d;
    }
  }

  lemma SettledKeepsCredits(k: Tables, tx: Tx, height: int, e: Tables, relevant: bool)
    requires FullyCredited(k) && Keyed(k) && SettledFrom(k, tx, height, e, relevant)
    requires tx.id in k.txns ==> k.txns[tx.id].tx == tx
    requires AllPayAlike(e.txns, e.adrs, k.adrs)
    ensures FullyCredited(e)
  {
    hide OutputsSettled, IsCredit, Held, IsDebit, AllPayAlike, FullyCredited, Keyed;
    HeldGrows(k, tx, height, e);
    SettledLive(k, tx, height, e, relevant);
    CreditsGrow(k, tx, e);
  }

  lemma SettledLive(k: Tables, tx: Tx, height: int, e: Tables, relevant: bool)
    requires if relevant then RowSettled(k, tx, height, e) else e.txns == k.txns && e.txids == k.txids
    requires tx.id in k.txns ==> k.txns[tx.id].tx == tx
    ensures forall t :: Live(e, t) ==> e.txns[t].tx == tx || (Live(k, t) && k.txns[t].tx == e.txns[t].tx)
  {
    hide NetValue, Heights;
  }

  lemma CreditsGrow(k: Tables, tx: Tx, e: Tables)
    requires FullyCredited(k) && Held(k) <= Held(e) && AllPayAlike(e.txns, e.adrs, k.adrs)
    requires forall op :: IsCredit(tx, k.adrs, op) ==> op in Held(e)
    requires forall t :: Live(e, t) ==> e.txns[t].tx == tx || (Live(k, t) && k.txns[t].tx == e.txns[t].tx)
    ensures FullyCredited(e)
  {
    hide IsCredit, Held;
    forall t, op | Live(e, t) && IsCredit(e.txns[t].tx, e.adrs, op) ensures op in Held(e) {
      assert IsCredit(e.txns[t].tx, k.adrs, op);
    }
  }

  lemma HeldGrows(k: Tables, tx: Tx, height: int, e: Tables)
    requires OutputsSettled(k, tx, height, e)
    ensures Held(k) <= Held(e)
    ensures forall op :: IsCredit(tx, k.adrs, op) ==> op in Held(e)
  {
    hide NewUtxo, Own;
  }

  /** Inputs of tx that pay an own script from a stored transaction, dead or live. */
  ghost function OwnIns(s: Tables, tx: Tx): set<OutPoint> {
    set op | op in tx.ins && op.hash in s.txns && IsCredit(s.txns[op.hash].tx, s.adrs, op)
  }

  /** Every output in the tables pays an own script. */
  ghost predicate HeldOwn(s: Tables) {
    forall op :: op in Held(s) ==> op.hash in s.txns && IsCredit(s.txns[op.hash].tx, s.adrs, op)
  }

  /** A live transaction is recorded as the spender of all its own inputs. */
  ghost predicate InputsRecorded(s: Tables) {
    forall t, op :: Live(s, t) && op in OwnIns(s, s.txns[t].tx) ==> op in s.stxos && s.stxos[op].spendTxid == t
  }

  ghost predicate OutsSane(tx: Tx) {
    forall i :: 0 <= i < |tx.outs| ==> tx.outs[i].value >= 0
  }

  /** What a transaction adds to the wallet once all its own inputs are there. */
  ghost function Price(s: Tables, tx: Tx): int {
    Worth(s.txns, CreditSet(tx, s.adrs, |tx.outs|)) - Worth(s.txns, OwnIns(s, tx))
  }

  /** Every stored row, dead or live, has the value its transaction and the stored ones give it. */
  ghost predicate RowsPriced(s: Tables) {
    forall t :: t in s.txns ==> s.txns[t].value == Price(s, s.txns[t].tx) && OutsSane(s.txns[t].tx)
  }

  ghost predicate Priced(s: Tables) {
    HeldOwn(s) && FullyCredited(s) && InputsRecorded(s) && RowsPriced(s)
  }

  /** The transaction is live and not among those that adding tx undoes. */
  ghost predicate LivesOn(s: Tables, tx: Tx, t: Txid) {
    Live(s, t) && t !in Descendants(s.stxos, Conflicts(s, tx))
  }

  /** No stored transaction, dead or live, spends an own output of tx. */
  ghost predicate NoStoredChild(s: Tables, tx: Tx) {
    forall t, op :: t in s.txns && op in s.txns[t].tx.ins ==> !IsCredit(tx, s.adrs, op)
  }

  /** What a caller can look up before a call that moves something: a new transaction comes after its stored parents and
      before its children; one that is dead, only while its stored parents live on; a live one, only while its own
      outputs are unspent; and no stored transaction pays a script that becomes own. */
  ghost predicate Tidy(s: Tables, event: Event, rank: Txid -> nat) {
    && (event.Restart? ==> AllPayAlike(s.txns, event.keyAdrs, s.adrs))
    && (Processed(s, event) ==> RankedTx(event.tx, rank))
    && (Touching(s, event) ==>
          var tx := event.tx;
          && event.height >= 0 && HashBinds(s, event)
          && AllPayAlike(s.txns, event.keyAdrs, s.adrs) && PaysAlike(tx, event.keyAdrs, s.adrs)
          && (tx.id !in s.txns ==> NoStoredChild(s, tx))
          && (!Live(s, tx.id) ==> forall op :: op in OwnIns(s, tx) ==> LivesOn(s, tx, op.hash))
          && (Live(s, tx.id) ==> forall op :: IsCredit(tx, s.adrs, op) ==> op in s.utxos))
  }

  // ---------------------------------------------------------------------------
  // Undoing keeps the prices
  // ---------------------------------------------------------------------------

  lemma KilledRows(s: Tables, d: set<Txid>)
    ensures var k := Kill(s, d);
            && k.txns.Keys == s.txns.Keys && k.adrs == s.adrs && Held(k) <= Held(s)
            && (forall t :: t in s.txns ==> k.txns[t].tx == s.txns[t].tx && k.txns[t].value == s.txns[t].value)
            && (forall t :: Live(k, t) <==> Live(s, t) && t !in d)
            && (forall op :: op in s.stxos && s.stxos[op].spendTxid !in d ==>
               op in k.stxos && k.stxos[op] == s.stxos[op])
            && forall op :: op in k.stxos ==> op in s.stxos && k.stxos[op] == s.stxos[op]
  {
  }

  /** Own inputs and prices depend on the stored transactions and what they pay us only. */
  lemma SamePrices(s: Tables, k: Tables, tx: Tx)
    requires k.txns.Keys == s.txns.Keys && AllPayAlike(s.txns, k.adrs, s.adrs)
    requires forall t :: t in s.txns ==> k.txns[t].tx == s.txns[t].tx
    ensures OwnIns(k, tx) == OwnIns(s, tx)
    ensures tx.id in s.txns && s.txns[tx.id].tx == tx ==> Price(k, tx) == Price(s, tx)
  {
    hide Worth, Sum, IsCredit;
    WorthCong(k.txns, s.txns, OwnIns(s, tx));
    if tx.id in s.txns && s.txns[tx.id].tx == tx {
      AlikeCredits(tx, k.adrs, s.adrs);
      WorthCong(k.txns, s.txns, CreditSet(tx, s.adrs, |tx.outs|));
    }
  }

  lemma KillKeepsPriced(s: Tables, d: set<Txid>)
    requires Priced(s) && Keyed(s)
    ensures Priced(Kill(s, d))
  {
    hide Kill, Held, FullyCredited, HeldOwn, InputsRecorded, RowsPriced, Price, IsCredit, OwnIns;
    var k := Kill(s, d);
    KilledRows(s, d);
    KillKeepsCredits(s, d);
    forall t | t in s.txns
      ensures OwnIns(k, s.txns[t].tx) == OwnIns(s, s.txns[t].tx)
              && (KeyedTxns(s.txns) ==> Price(k, s.txns[t].tx) == Price(s, s.txns[t].tx))
    {
      SamePrices(s, k, s.txns[t].tx);
    }
    KilledHeld(s, k);
    KilledPrices(s, k);
    KilledInputs(s, k);
  }

  lemma KilledHeld(s: Tables, k: Tables)
    requires HeldOwn(s) && k.txns.Keys == s.txns.Keys && k.adrs == s.adrs && Held(k) <= Held(s)
    requires forall t :: t in s.txns ==> k.txns[t].tx == s.txns[t].tx
    ensures HeldOwn(k)
  {
    hide Held, IsCredit;
  }

  lemma KilledPrices(s: Tables, k: Tables)
    requires RowsPriced(s) && k.txns.Keys == s.txns.Keys
    requires forall t :: t in s.txns ==> k.txns[t].tx == s.txns[t].tx && k.txns[t].value == s.txns[t].value
    requires forall t :: t in s.txns ==> Price(k, s.txns[t].tx) == Price(s, s.txns[t].tx)
    ensures RowsPriced(k)
  {
    hide Price, OutsSane;
  }

  lemma KilledInputs(s: Tables, k: Tables)
    requires InputsRecorded(s) && k.txns.Keys == s.txns.Keys
    requires forall t :: t in s.txns ==> k.txns[t].tx == s.txns[t].tx
    requires forall t :: t in s.txns ==> OwnIns(k, s.txns[t].tx) == OwnIns(s, s.txns[t].tx)
    requires forall t :: Live(k, t) ==> Live(s, t)
    requires forall op :: op in s.stxos && Live(k, s.stxos[op].spendTxid) ==>
             op in k.stxos && k.stxos[op] == s.stxos[op]
    ensures InputsRecorded(k)
  {
    hide OwnIns;
    forall t, op | Live(k, t) && op in OwnIns(k, k.txns[t].tx) ensures op in k.stxos && k.stxos[op].spendTxid == t {
      assert Live(s, t);
    }
  }

  // ---------------------------------------------------------------------------
  // Settling keeps the prices
  // ---------------------------------------------------------------------------

  lemma SpenderShares(k: Tables, tx: Tx, op: OutPoint)
    requires SpendersLive(k) && op in k.stxos && op in tx.ins
    ensures Live(k, k.stxos[op].spendTxid) && Shares(k.txns[k.stxos[op].spendTxid].tx, tx)
  {
  }

  /** Among the own inputs of a transaction not live yet, those unspent are those of live parents. */
  lemma OwnInsUnspent(k: Tables, tx: Tx)
    requires RowsMatch(k) && HeldOwn(k) && FullyCredited(k) && !Live(k, tx.id)
    requires forall t :: Live(k, t) && t != tx.id ==> !Shares(k.txns[t].tx, tx)
    ensures DebitSet(k, tx) <= OwnIns(k, tx)
    ensures forall op :: op in OwnIns(k, tx) ==> (op in k.utxos <==> Live(k, op.hash))
  {
    hide IsCredit, RowsTrue, Shares;
    forall op | op in OwnIns(k, tx) && Live(k, op.hash) ensures op in k.utxos {
      assert op in Held(k);
      if op in k.stxos {
        SpenderShares(k, tx, op);
        assert false;
      }
    }
  }

  /** What settling tx needs for the prices to stay. */
  ghost predicate PriceReady(k: Tables, tx: Tx) {
    && SpendsOthers(tx) && Distinct(tx.ins) && OutsSane(tx)
    && (tx.id in k.txns ==> k.txns[tx.id].tx == tx)
    && (!Live(k, tx.id) ==> DebitSet(k, tx) == OwnIns(k, tx))
    && (tx.id !in k.txns ==> NoStoredChild(k, tx))
  }

  /** A newly stored transaction is no parent of a stored one, nor of itself. */
  lemma SameOwnIns(k: Tables, tx: Tx, height: int, e: Tables, t: Txid)
    requires PriceReady(k, tx) && RowSettled(k, tx, height, e) && AllPayAlike(e.txns, e.adrs, k.adrs) && t in e.txns
    ensures OwnIns(e, e.txns[t].tx) == OwnIns(k, e.txns[t].tx)
  {
    hide NetValue, Heights, IsCredit;
    var a, b := OwnIns(e, e.txns[t].tx), OwnIns(k, e.txns[t].tx);
    forall op | op in e.txns[t].tx.ins ensures op in a <==> op in b {
      if op.hash != tx.id && op.hash in k.txns {
        assert e.txns[op.hash] == k.txns[op.hash];
      }
    }
  }

  lemma SettledPrice(k: Tables, tx: Tx, height: int, e: Tables, t: Txid)
    requires PriceReady(k, tx) && RowsTrue(k) && ParentsLive(k) && RowsPriced(k)
    requires RowSettled(k, tx, height, e) && AllPayAlike(e.txns, e.adrs, k.adrs) && t in e.txns && KeyedTxns(e.txns)
    ensures e.txns[t].value == Price(e, e.txns[t].tx) && OutsSane(e.txns[t].tx)
  {
    SameOwnIns(k, tx, height, e, t);
    var x := e.txns[t].tx;
    AlikeCredits(x, e.adrs, k.adrs);
    SettledOutValues(k, tx, height, e);
    hide NetValue, Heights, Worth, IsCredit, OutValue;
    if t in k.txns {
      assert x == k.txns[t].tx;
      WorthCong(e.txns, k.txns, CreditSet(x, k.adrs, |x.outs|));
      WorthCong(e.txns, k.txns, OwnIns(k, x));
    } else {
      forall op | op in k.utxos ensures op.hash in k.txns { assert op in Held(k); }
      NetValueIsWorth(k, tx, height, e.txns);
    }
  }

  lemma SettledOutValues(k: Tables, tx: Tx, height: int, e: Tables)
    requires RowSettled(k, tx, height, e) && (tx.id in k.txns ==> k.txns[tx.id].tx == tx)
    ensures forall op: OutPoint :: op.hash in k.txns ==> OutValue(e.txns, op) == OutValue(k.txns, op)
  {
    hide NetValue, Heights;
    forall op: OutPoint | op.hash in k.txns ensures OutValue(e.txns, op) == OutValue(k.txns, op) {
      assert e.txns[op.hash].tx == k.txns[op.hash].tx;
    }
  }

  lemma SettledInputs(k: Tables, tx: Tx, height: int, e: Tables)
    requires PriceReady(k, tx) && InputsRecorded(k) && k.utxos.Keys !! k.stxos.Keys
    requires OutputsSettled(k, tx, height, e) && RowSettled(k, tx, height, e) && AllPayAlike(e.txns, e.adrs, k.adrs)
    ensures InputsRecorded(e)
  {
    hide OwnIns, OutputsSettled, NoStoredChild, OutsSane, SpendsOthers, Distinct, DebitSet, RowSettled;
    forall t, op | Live(e, t) && op in OwnIns(e, e.txns[t].tx) ensures op in e.stxos && e.stxos[op].spendTxid == t {
      SameOwnIns(k, tx, height, e, t);
      SettledInput(k, tx, height, e, t, op);
    }
  }

  lemma SettledInput(k: Tables, tx: Tx, height: int, e: Tables, t: Txid, op: OutPoint)
    requires InputsRecorded(k) && k.utxos.Keys !! k.stxos.Keys
    requires tx.id in k.txns ==> k.txns[tx.id].tx == tx
    requires !Live(k, tx.id) ==> DebitSet(k, tx) == OwnIns(k, tx)
    requires OutputsSettled(k, tx, height, e) && RowSettled(k, tx, height, e)
    requires Live(e, t) && op in OwnIns(k, e.txns[t].tx)
    ensures op in e.stxos && e.stxos[op].spendTxid == t
  {
    hide NetValue, Heights, OwnIns, NewUtxo, IsCredit, Filed;
    if t != tx.id || Live(k, t) {
      assert Live(k, t) && op in OwnIns(k, k.txns[t].tx);
    } else {
      assert IsDebit(k, tx, op);
    }
  }

  lemma SettledHeld(k: Tables, tx: Tx, height: int, e: Tables)
    requires HeldOwn(k) && OutputsSettled(k, tx, height, e) && RowSettled(k, tx, height, e)
             && AllPayAlike(e.txns, e.adrs, k.adrs)
    requires tx.id in k.txns ==> k.txns[tx.id].tx == tx
    ensures HeldOwn(e)
  {
    FreshHeld(k, tx, height, e);
    hide OutputsSettled, NetValue, Heights, Held;
    forall op | op in Held(e) ensures op.hash in e.txns && IsCredit(e.txns[op.hash].tx, e.adrs, op) {
      if op in Held(k) {
        assert IsCredit(k.txns[op.hash].tx, k.adrs, op) && e.txns[op.hash].tx == k.txns[op.hash].tx;
      }
    }
  }

  lemma SettleKeepsPriced(k: Tables, tx: Tx, height: int, e: Tables, relevant: bool)
    requires Keyed(k) && RowsMatch(k) && k.utxos.Keys !! k.stxos.Keys && Priced(k) && PriceReady(k, tx)
    requires SettledFrom(k, tx, height, e, relevant) && AllPayAlike(e.txns, e.adrs, k.adrs) && Keyed(e)
    ensures Priced(e)
  {
    hide OutputsSettled, RowSettled, HeldOwn, FullyCredited, InputsRecorded, SpendersLive, ParentsLive, RowsTrue,
         Price, OwnIns, DebitSet;
    SettledKeepsCredits(k, tx, height, e, relevant);
    if relevant {
      SettledHeld(k, tx, height, e);
      SettledInputs(k, tx, height, e);
      forall t | t in e.txns ensures e.txns[t].value == Price(e, e.txns[t].tx) && OutsSane(e.txns[t].tx) {
        SettledPrice(k, tx, height, e, t);
      }
    } else {
      NothingSettled(k, tx, height, e);
      SameKeepsPriced(k, e);
    }
  }

  /** Frozen marks, spend heights and the height cache aside, the same tables. */
  lemma SameKeepsPriced(k: Tables, e: Tables)
    requires Priced(k) && e.utxos.Keys == k.utxos.Keys && SameSpends(k.stxos, e.stxos) && e.txns == k.txns
             && AllPayAlike(e.txns, e.adrs, k.adrs)
    requires KeyedTxns(k.txns)
    ensures Priced(e)
  {
    hide Price;
    assert Held(e) == Held(k);
    forall t | t in k.txns ensures OwnIns(e, k.txns[t].tx) == OwnIns(k, k.txns[t].tx)
      && Price(e, k.txns[t].tx) == Price(k, k.txns[t].tx) {
      SamePrices(k, e, k.txns[t].tx);
    }
    hide OwnIns, IsCredit;
    forall t, op | Live(e, t) && IsCredit(e.txns[t].tx, e.adrs, op) ensures op in Held(e) { assert Live(k, t); }
    forall t, op | Live(e, t) && op in OwnIns(e, e.txns[t].tx)
      ensures op in e.stxos && e.stxos[op].spendTxid == t { assert Live(k, t); }
  }

  // ---------------------------------------------------------------------------
  // Runs that bring dead transactions back
  // ---------------------------------------------------------------------------

  /** On the tables settled on all holds that held before, and own inputs are unspent exactly if their parents live
      on. */
  lemma OnCleared(s: Tables, tx: Tx, rank: Txid -> nat)
    requires Sound(s, rank) && Priced(s)
    ensures var k := WithoutConflicts(s, tx);
            && Sound(k, rank) && Priced(k) && k.adrs == s.adrs && k.txns.Keys == s.txns.Keys
            && (forall t :: t in s.txns ==> k.txns[t].tx == s.txns[t].tx)
            && (forall t :: Live(k, t) <==> LivesOn(s, tx, t))
            && OwnIns(k, tx) == OwnIns(s, tx)
            && (!Live(s, tx.id) ==>
                  && DebitSet(k, tx) <= OwnIns(k, tx)
                  && forall op :: op in OwnIns(k, tx) ==> (op in k.utxos <==> LivesOn(s, tx, op.hash)))
  {
    hide Sound, Priced, Kill, Conflicts, Shares, Price, IsCredit, OwnIns, DebitSet, Held, Keyed, RowsMatch, HeldOwn,
         FullyCredited, InputsRecorded, Descendants, Live;
    var d := Descendants(s.stxos, Conflicts(s, tx));
    var k := Kill(s, d);
    Parts(s, rank);
    KilledRows(s, d);
    ClearedIsSound(s, tx, rank);
    KillKeepsPriced(s, d);
    AlikeItself(s.txns, s.adrs);
    SamePrices(s, k, tx);
    Parts(k, rank);
    if !Live(s, tx.id) {
      OwnInsUnspent(k, tx);
    }
  }

  lemma SaneOuts(tx: Tx)
    requires Sane(tx)
    ensures OutsSane(tx) && Distinct(tx.ins)
  {
  }

  lemma ProcessedIsSane(s: Tables, event: Event)
    requires Processed(s, event)
    ensures OutsSane(event.tx) && Distinct(event.tx.ins)
  {
    SaneOuts(event.tx);
  }

  /** On the tables settled on, a tidy call is ready. */
  lemma TidyIsReady(s: Tables, event: Event, rank: Txid -> nat)
    requires Touching(s, event) && Sound(s, rank) && Priced(s) && Tidy(s, event, rank)
    ensures var k := WithoutConflicts(s, event.tx);
            Sound(k, rank) && Priced(k) && PriceReady(k, event.tx)
  {
    hide Sound, Priced, WithoutConflicts, OwnIns, IsCredit, OutsSane, Distinct, LivesOn, Sane, Known, Conflicts, Moves,
         AllPayAlike, PaysAlike;
    var tx, k := event.tx, WithoutConflicts(s, event.tx);
    OnCleared(s, tx, rank);
    SaneOuts(tx);
    assert NoStoredChild(s, tx) ==> NoStoredChild(k, tx);
    if !Live(k, tx.id) {
      ReadyInputs(s, event, k, rank);
    }
  }

  lemma ReadyInputs(s: Tables, event: Event, k: Tables, rank: Txid -> nat)
    requires Touching(s, event) && Sound(s, rank) && Tidy(s, event, rank)
    requires OwnIns(k, event.tx) == OwnIns(s, event.tx) && !LivesOn(s, event.tx, event.tx.id)
    requires !Live(s, event.tx.id) ==>
               && DebitSet(k, event.tx) <= OwnIns(k, event.tx)
               && forall op :: op in OwnIns(k, event.tx) ==> (op in k.utxos <==> LivesOn(s, event.tx, op.hash))
    ensures DebitSet(k, event.tx) == OwnIns(k, event.tx)
  {
    var tx := event.tx;
    if Live(s, tx.id) {
      LiveOnes(s, tx, rank);
    }
    hide LivesOn, Sound, Processed, IsCredit, Moves, AllPayAlike, PaysAlike, WithoutConflicts;
    assert forall op :: op in OwnIns(k, tx) ==> op in tx.ins;
  }

  /** A live transaction has no conflicts, and so lives on. */
  lemma LiveOnes(s: Tables, tx: Tx, rank: Txid -> nat)
    requires Sound(s, rank) && Live(s, tx.id) && s.txns[tx.id].tx == tx
    ensures LivesOn(s, tx, tx.id)
  {
    SoundLive(s, tx, rank);
    KillNothing(s);
  }

  lemma Parts(k: Tables, rank: Txid -> nat)
    requires Sound(k, rank) && Priced(k)
    ensures RowsMatch(k) && HeldOwn(k) && FullyCredited(k) && InputsRecorded(k) && Keyed(k)
            && k.utxos.Keys !! k.stxos.Keys
  {
    hide RowsMatch, HeldOwn, FullyCredited, InputsRecorded, Keyed;
  }

  /** A tidy call respects all that conservation asks of callers. */
  lemma TidyIsOrderly(s: Tables, event: Event, rank: Txid -> nat)
    requires Sound(s, rank) && Priced(s) && Tidy(s, event, rank)
    ensures Orderly(s, event, rank) && CreditedBefore(s, event)
  {
    if Touching(s, event) {
      var tx, k := event.tx, WithoutConflicts(s, event.tx);
      TidyIsReady(s, event, rank);
      NoChildLives(s, event, rank);
      hide Sound, PriceReady, WithoutConflicts, RowsMatch, ValuesExplained, NoLiveChild, Worth, NetValue, IsCredit,
           Moves, AllPayAlike, PaysAlike;
      assert CreditedBefore(s, event) by { hide RowsPriced, Price; }
      if tx.id in s.txns && !Live(s, tx.id) {
        DeadIsWorthTheSame(s, event, rank);
      }
    } else if Processed(s, event) {
      assert WithoutConflicts(s, event.tx).adrs == s.adrs;
      hide Sound, Priced, Ignored;
    }
  }

  lemma DeadIsWorthTheSame(s: Tables, event: Event, rank: Txid -> nat)
    requires Processed(s, event) && Sound(s, rank) && HashBinds(s, event)
    requires event.tx.id in s.txns && !Live(s, event.tx.id)
    requires var k := WithoutConflicts(s, event.tx); Sound(k, rank) && Priced(k) && PriceReady(k, event.tx)
    ensures SameWorth(WithoutConflicts(s, event.tx), event.tx, event.height)
  {
    KilledRows(s, Descendants(s.stxos, Conflicts(s, event.tx)));
    hide Kill, Conflicts, IsCredit, Worth, NetValue, SpendersLive, ParentsLive;
    NetValueIsWorth(WithoutConflicts(s, event.tx), event.tx, event.height, WithoutConflicts(s, event.tx).txns);
  }

  /** A live child of a stored transaction is recorded as spending the output. */
  lemma ChildRecorded(s: Tables, tx: Tx, t: Txid, op: OutPoint)
    requires InputsRecorded(s) && tx.id in s.txns && s.txns[tx.id].tx == tx
    requires Live(s, t) && op in s.txns[t].tx.ins && IsCredit(tx, s.adrs, op)
    ensures op in s.stxos
  {
    CreditHash(tx, s.adrs, op);
    hide IsCredit;
    assert op in OwnIns(s, s.txns[t].tx);
  }

  lemma NoChildLives(s: Tables, event: Event, rank: Txid -> nat)
    requires Touching(s, event) && Sound(s, rank) && Priced(s) && Tidy(s, event, rank)
    ensures NoLiveChild(s, event.tx)
  {
    var tx := event.tx;
    hide IsCredit, RowsPriced, RowsTrue, ValuesExplained, NoLiveConflicts, Ignored, Moves, AllPayAlike, PaysAlike,
         WithoutConflicts;
    forall t, op | Live(s, t) && op in s.txns[t].tx.ins ensures !IsCredit(tx, s.adrs, op) {
      if IsCredit(tx, s.adrs, op) && tx.id in s.txns {
        ChildRecorded(s, tx, t, op);
        CreditHash(tx, s.adrs, op);
        assert false;
      }
    }
  }

  lemma CreditHash(tx: Tx, adrs: seq<Script>, op: OutPoint)
    requires IsCredit(tx, adrs, op)
    ensures op.hash == tx.id
  {
  }

  lemma AddKeepsPriced(s: Tables, event: Event, e: Tables, rank: Txid -> nat)
    requires Touching(s, event) && Sound(s, rank) && Priced(s) && Tidy(s, event, rank) && Step(s, event, e)
    requires Keyed(e)
    ensures Priced(e)
  {
    TidyIsReady(s, event, rank);
    var k := WithoutConflicts(s, event.tx);
    Parts(k, rank);
    KilledRows(s, Descendants(s.stxos, Conflicts(s, event.tx)));
    hide WithoutConflicts, Priced, RowsMatch, Pick, Settled, Relevant, SettledFrom, PriceReady, Processed, Sound, Kill,
         Conflicts, Moves, PaysAlike;
    var pick := SoundAdd(s, event, e, rank);
    var relevant := Relevant(k, event.tx, event.height, pick);
    StillPayAlike(s, event, k, e, relevant);
    SettleKeepsPriced(k, event.tx, event.height, e, relevant);
  }

  lemma StillPayAlike(s: Tables, event: Event, k: Tables, e: Tables, relevant: bool)
    requires event.Add? && AllPayAlike(s.txns, event.keyAdrs, s.adrs) && PaysAlike(event.tx, event.keyAdrs, s.adrs)
    requires k.adrs == s.adrs && k.txns.Keys == s.txns.Keys && forall t :: t in s.txns ==> k.txns[t].tx == s.txns[t].tx
    requires SettledFrom(k, event.tx, event.height, e, relevant)
    requires e.adrs == if relevant then event.keyAdrs else k.adrs
    ensures AllPayAlike(e.txns, e.adrs, k.adrs)
  {
    hide OutputsSettled, IsCredit, NetValue, Heights;
    if relevant {
      forall t | t in e.txns ensures PaysAlike(e.txns[t].tx, e.adrs, k.adrs) {}
    } else {
      AlikeItself(e.txns, k.adrs);
    }
  }

  /** A call that moves nothing leaves the tables with the conflicts undone. */
  lemma UntouchedKeepsPriced(s: Tables, event: Event, e: Tables, rank: Txid -> nat)
    requires Processed(s, event) && !Touching(s, event) && Sound(s, rank) && Priced(s) && RankedTx(event.tx, rank)
    requires Step(s, event, e)
    ensures Priced(e)
  {
    var tx, k := event.tx, WithoutConflicts(s, event.tx);
    assert SpendsOthers(tx);
    OnCleared(s, tx, rank);
    Parts(k, rank);
    hide WithoutConflicts, Priced, RowsMatch, Pick, Settled, Relevant, SettledFrom, Processed, Sound, Moves;
    var pick := SoundAdd(s, event, e, rank);
    RelevantIffMoves(k, tx, event.height, pick);
    NothingSettled(k, tx, event.height, e);
    AlikeItself(e.txns, k.adrs);
    SameKeepsPriced(k, e);
  }

  lemma StepKeepsPriced(s: Tables, event: Event, e: Tables, rank: Txid -> nat)
    requires Sound(s, rank) && Priced(s) && Tidy(s, event, rank) && Step(s, event, e) && Keyed(e)
    ensures Priced(e)
  {
    assert event.Restart? ==> AllPayAlike(s.txns, event.keyAdrs, s.adrs);
    assert Processed(s, event) ==> RankedTx(event.tx, rank);
    hide Sound, Priced, Tidy, AllPayAlike, RankedTx, Touching;
    if Touching(s, event) {
      AddKeepsPriced(s, event, e, rank);
    } else if Processed(s, event) {
      UntouchedKeepsPriced(s, event, e, rank);
    } else if event.Add? {
      hide Ignored;
    } else {
      assert KeyedTxns(s.txns) by { Parts(s, rank); }
      OtherSteps(s, event, e, rank);
      hide Step;
      SameKeepsPriced(s, e);
    }
  }

  lemma OtherSteps(s: Tables, event: Event, e: Tables, rank: Txid -> nat)
    requires !event.Add? && Step(s, event, e)
    requires event.Restart? ==> AllPayAlike(s.txns, event.keyAdrs, s.adrs)
    ensures e.utxos.Keys == s.utxos.Keys && SameSpends(s.stxos, e.stxos) && e.txns == s.txns
    ensures AllPayAlike(e.txns, e.adrs, s.adrs)
  {
    AlikeItself(s.txns, s.adrs);
    hide PaysAlike;
  }

  lemma EmptyIsPriced(adrs: seq<Script>, keepsFrozen: bool)
    ensures Priced(Empty(adrs, keepsFrozen))
  {
  }

  /** With tidy callers the unspent outputs hold exactly what the live transactions brought in, over every run; dead
      transactions may come back, and own scripts may be added. */
  lemma {:induction false} ConservedTidy(states: seq<Tables>, events: seq<Event>, rank: Txid -> nat)
    requires Run(states, events)
    requires forall i :: 0 <= i < |events| ==> Tidy(states[i], events[i], rank)
    ensures Sound(states[|events|], rank) && Priced(states[|events|]) && Balanced(states[|events|])
    decreases |events|
  {
    hide Sound, Tidy, Balanced, Step, Priced;
    if events == [] {
      var adrs, keepsFrozen :| states[0] == Empty(adrs, keepsFrozen);
      EmptyIsSound(adrs, keepsFrozen, rank);
      EmptyIsPriced(adrs, keepsFrozen);
    } else {
      var n := |events| - 1;
      assert Run(states[..n + 1], events[..n]);
      ConservedTidy(states[..n + 1], events[..n], rank);
      TidyIsOrderly(states[n], events[n], rank);
      StepKeepsSound(states[n], events[n], states[n + 1], rank);
      SoundIsConsistent(states[n + 1], rank);
      StepKeepsPriced(states[n], events[n], states[n + 1], rank);
    }
    SoundIsBalanced(states[|events|], rank);
  }
}
