/** What the rows say after a call: which output, what it is worth, whom it pays, at which height, spent when. */
module RowContents {
  import opened Adding
  import opened Conservation
  import opened Disjointness
  import opened ExactAdding
  import opened FrozenMarks
  import opened Ledger
  import opened LedgerRuns
  import opened Options
  import opened Overlap
  import opened Undo

  // ---------------------------------------------------------------------------
  // Spend heights
  // ---------------------------------------------------------------------------

  /** Each spend has the height of the call where the call recorded or picked it, and its own otherwise. */
  ghost predicate HeightsSet(k: Tables, tx: Tx, height: int, pick: Option<OutPoint>, e: Tables) {
    forall op :: op in e.stxos ==>
      && (op in k.stxos || IsDebit(k, tx, op))
      && e.stxos[op].spendHeight
           == if pick == Some(op) || IsDebit(k, tx, op) then height else k.stxos[op].spendHeight
  }

  lemma SettledHeights(k: Tables, tx: Tx, height: int, pick: Option<OutPoint>, keyAdrs: seq<Script>)
    requires SpendsOthers(tx) && Pick(Debited(Credited(k, tx, height), tx, height), tx.id, height, pick)
    ensures HeightsSet(k, tx, height, pick, Settled(k, tx, height, pick, keyAdrs))
  {
    hide Credited, Debited, Relevant, NetValue, Hits, IsDebit;
    var c := Credited(k, tx, height);
    CreditedSpends(k, tx, height);
    DebitHeights(c, tx, height);
  }

  lemma CreditedSpends(k: Tables, tx: Tx, height: int)
    requires SpendsOthers(tx)
    ensures var c := Credited(k, tx, height);
            c.stxos == k.stxos && forall op :: IsDebit(c, tx, op) <==> IsDebit(k, tx, op)
  {
    hide Own, NewUtxo;
    CreditedRows(k, tx, height);
  }

  lemma DebitHeights(c: Tables, tx: Tx, height: int)
    ensures var e := Debited(c, tx, height);
            forall op :: op in e.stxos ==>
              && (op in c.stxos || IsDebit(c, tx, op))
              && e.stxos[op].spendHeight == if IsDebit(c, tx, op) then height else c.stxos[op].spendHeight
  {
    hide Filed;
    var debits := Debits(c, tx.ins, height, tx.id);
    assert forall op :: op in debits <==> IsDebit(c, tx, op);
  }

  predicate SpendOf(s: Tables, t: Txid, op: OutPoint) {
    op in s.stxos && s.stxos[op].spendTxid == t
  }

  /** The spends after settling tx on the tables k, beside the outputs they are of. */
  ghost predicate SpendsSettled(k: Tables, tx: Tx, height: int, pick: Option<OutPoint>, e: Tables) {
    && (forall op :: SpendOf(e, tx.id, op) && !SpendOf(k, tx.id, op) ==> e.stxos[op].spendHeight == height)
    && (forall op :: SpendOf(k, tx.id, op) ==>
         SpendOf(e, tx.id, op) && (pick != Some(op) ==> e.stxos[op].spendHeight == k.stxos[op].spendHeight))
    && (forall op :: op in e.stxos && e.stxos[op].spendTxid != tx.id ==> op in k.stxos && e.stxos[op] == k.stxos[op])
    && (forall op :: op in k.stxos && k.stxos[op].spendTxid != tx.id ==> op in e.stxos && e.stxos[op] == k.stxos[op])
    && (pick.Some? ==> height > 0 && SpendOf(e, tx.id, pick.value) && e.stxos[pick.value].spendHeight == height)
    && (height > 0 && pick.None? ==> forall op :: !SpendOf(e, tx.id, op))
  }

  lemma SpendsAreSettled(k: Tables, tx: Tx, height: int, pick: Option<OutPoint>, keyAdrs: seq<Script>)
    requires SpendsOthers(tx) && Disjoint(k) && Pick(Debited(Credited(k, tx, height), tx, height), tx.id, height, pick)
    ensures SpendsSettled(k, tx, height, pick, Settled(k, tx, height, pick, keyAdrs))
  {
    var e := Settled(k, tx, height, pick, keyAdrs);
    hide Settled, Credited, Debited, Relevant, RowSettled, IsCredit, NewUtxo, Filed, OutputsSettled, HeightsSet, Pick,
         SameSpends, SpendsSettled, Disjoint;
    SettledHeights(k, tx, height, pick, keyAdrs);
    SettledShape(k, tx, height, pick, keyAdrs);
    SettledFields(k, tx, height, pick, keyAdrs);
    PickedSpend(Debited(Credited(k, tx, height), tx, height), tx.id, height, pick, e);
    SpendsTogether(k, tx, height, pick, e);
  }

  lemma PickedSpend(d: Tables, t: Txid, height: int, pick: Option<OutPoint>, e: Tables)
    requires Pick(d, t, height, pick) && SameSpends(d.stxos, e.stxos)
    ensures pick.Some? ==> height > 0 && SpendOf(e, t, pick.value)
    ensures height > 0 && pick.None? ==> forall op :: !SpendOf(e, t, op)
  {
  }

  lemma SpendsTogether(k: Tables, tx: Tx, height: int, pick: Option<OutPoint>, e: Tables)
    requires Disjoint(k) && OutputsSettled(k, tx, height, e) && HeightsSet(k, tx, height, pick, e)
    requires pick.Some? ==> height > 0 && SpendOf(e, tx.id, pick.value)
    requires height > 0 && pick.None? ==> forall op :: !SpendOf(e, tx.id, op)
    ensures SpendsSettled(k, tx, height, pick, e)
  {
    hide IsCredit, NewUtxo, Filed;
    SpendsAlone(k, tx, height, pick, e);
    hide OutputsSettled, HeightsSet, Disjoint;
  }

  /** The same for one spend at a time. */
  lemma SpendsAlone(k: Tables, tx: Tx, height: int, pick: Option<OutPoint>, e: Tables)
    requires Disjoint(k) && OutputsSettled(k, tx, height, e) && HeightsSet(k, tx, height, pick, e)
    requires pick.Some? ==> SpendOf(e, tx.id, pick.value)
    ensures forall op :: op in k.stxos ==> op in e.stxos && e.stxos[op].spendTxid == k.stxos[op].spendTxid
    ensures forall op :: op in e.stxos && op !in k.stxos ==>
              e.stxos[op].spendTxid == tx.id && e.stxos[op].spendHeight == height
    ensures forall op :: op in k.stxos && pick != Some(op) ==> e.stxos[op] == k.stxos[op]
    ensures pick.Some? ==> e.stxos[pick.value].spendHeight == height
  {
    hide IsCredit, NewUtxo, Filed;
    assert forall op :: op in k.stxos ==> !IsDebit(k, tx, op);
  }

  /** A processed call records its spends at its height. Spends by others stay whole. Of the spends by the transaction
      recorded before, where it is not undone itself, at most one changes, and none at a height that is not positive;
      at a positive height some spend by the transaction, if there is any, has that height. */
  lemma SpendHeights(s: Tables, event: Event, e: Tables, rank: Txid -> nat) returns (pick: Option<OutPoint>)
    requires Processed(s, event) && Ranked(s, rank) && RankedTx(event.tx, rank) && Disjoint(s) && Step(s, event, e)
    ensures forall op :: SpendOf(e, event.tx.id, op) && !SpendOf(s, event.tx.id, op) ==>
              e.stxos[op].spendHeight == event.height
    ensures forall op :: op in e.stxos && e.stxos[op].spendTxid != event.tx.id ==>
              op in s.stxos && e.stxos[op] == s.stxos[op]
    ensures event.tx.id !in Descendants(s.stxos, Conflicts(s, event.tx)) ==>
              forall op :: SpendOf(s, event.tx.id, op) && pick != Some(op) ==>
                SpendOf(e, event.tx.id, op) && e.stxos[op].spendHeight == s.stxos[op].spendHeight
    ensures event.height <= 0 ==> pick.None?
    ensures event.height > 0 && (exists op :: SpendOf(e, event.tx.id, op)) ==>
              pick.Some? && SpendOf(e, event.tx.id, pick.value) && e.stxos[pick.value].spendHeight == event.height
  {
    var tx, k := event.tx, WithoutConflicts(s, event.tx);
    var d := Descendants(s.stxos, Conflicts(s, tx));
    assert SpendsOthers(tx);
    RankedIsExact(s, rank);
    KilledDisjoint(s, d);
    KilledSpends(s, d);
    hide Exact, Ranked, Processed, RankedTx, Settled, Pick, Relevant, Step, IsCredit, Kill, Conflicts, Descendants,
         WithoutConflicts, RowSettled, Disjoint, OutputsSettled;
    pick := ExactAdd(s, event, e);
    SpendsAreSettled(k, tx, event.height, pick, event.keyAdrs);
  }

  lemma KilledSpends(s: Tables, d: set<Txid>)
    ensures var k := Kill(s, d);
            && (forall op :: op in k.stxos ==> op in s.stxos && k.stxos[op] == s.stxos[op])
            && forall op :: op in s.stxos && s.stxos[op].spendTxid !in d ==> op in k.stxos
  {
  }

  // ---------------------------------------------------------------------------
  // Outputs and rows
  // ---------------------------------------------------------------------------

  /** The rows of the outputs after a processed call: an own output of the transaction says what the transaction says,
      at the height of the call; any other says what it said, unspent before or spent by what the call undid. */
  lemma OutputRows(s: Tables, event: Event, e: Tables, rank: Txid -> nat, op: OutPoint)
    requires Processed(s, event) && Ranked(s, rank) && RankedTx(event.tx, rank) && Step(s, event, e) && op in e.utxos
    ensures IsCredit(event.tx, s.adrs, op) ==>
              && op.hash == event.tx.id && op.index < |event.tx.outs|
              && var o := event.tx.outs[op.index];
                 e.utxos[op] == Utxo(op, event.height, o.value, o.script, false, false)
    ensures !IsCredit(event.tx, s.adrs, op) ==>
              || (op in s.utxos && e.utxos[op] == s.utxos[op])
              || (op in s.stxos && s.stxos[op].spendTxid in Descendants(s.stxos, Conflicts(s, event.tx))
                  && e.utxos[op] == s.stxos[op].utxo)
  {
    hide Conflicts, Descendants, Ranked, RankedTx, Step, Kill, OutputsSettled, IsCredit, SpendsOthers, Ignored;
    var k := Rows(s, event, e, rank);
    SettledOutput(k, event.tx, event.height, e, op);
    if !IsCredit(event.tx, s.adrs, op) {
      KilledOutput(s, Descendants(s.stxos, Conflicts(s, event.tx)), op);
    }
  }

  lemma SettledOutput(k: Tables, tx: Tx, height: int, e: Tables, op: OutPoint)
    requires OutputsSettled(k, tx, height, e) && op in e.utxos
    ensures IsCredit(tx, k.adrs, op) ==>
              && op.hash == tx.id && op.index < |tx.outs|
              && var o := tx.outs[op.index]; e.utxos[op] == Utxo(op, height, o.value, o.script, false, false)
    ensures !IsCredit(tx, k.adrs, op) ==> op in k.utxos && e.utxos[op] == k.utxos[op]
  {
  }

  lemma KilledOutput(s: Tables, d: set<Txid>, op: OutPoint)
    requires op in Kill(s, d).utxos
    ensures || (op in s.utxos && Kill(s, d).utxos[op] == s.utxos[op])
            || (op in s.stxos && s.stxos[op].spendTxid in d && Kill(s, d).utxos[op] == s.stxos[op].utxo)
  {
  }

  /** The row of the transaction after a processed call that moves something: a new one is stored whole, an old one
      keeps all but a height that was not positive; every other row keeps all but the height of what the call undid. */
  lemma TransactionRows(s: Tables, event: Event, e: Tables, rank: Txid -> nat)
    requires Touching(s, event) && Ranked(s, rank) && RankedTx(event.tx, rank) && Step(s, event, e)
    ensures var t, d := event.tx.id, Descendants(s.stxos, Conflicts(s, event.tx));
            && e.txns.Keys == s.txns.Keys + {t}
            && (t !in s.txns ==> e.txns[t].tx == event.tx && e.txns[t].height == event.height)
            && (t in s.txns && t !in d ==>
                 e.txns[t] == if s.txns[t].height > 0 then s.txns[t] else s.txns[t].(height := event.height))
            && forall x :: x in s.txns && x != t ==>
                 e.txns[x] == if x in d then s.txns[x].(height := -1) else s.txns[x]
  {
    var tx, k := event.tx, WithoutConflicts(s, event.tx);
    assert event.Add? && SpendsOthers(tx);
    RankedIsExact(s, rank);
    hide Exact, Ranked, RankedTx, Settled, Pick, Relevant, Step, IsCredit, Conflicts, Descendants, OutputsSettled,
         Moves, Ignored, Debited, Credited, NetValue, KilledUtxos, KilledStxos;
    var pick := ExactAdd(s, event, e);
    RelevantIffMoves(k, tx, event.height, pick);
    KilledThenPut(s, Descendants(s.stxos, Conflicts(s, tx)), tx, NetValue(k, tx, event.height), event.height, e.txns);
  }

  lemma KilledThenPut(s: Tables, d: set<Txid>, tx: Tx, value: int, height: int, now: map<Txid, Txn>)
    requires RowPut(KilledTxns(s, d), tx, value, height, now)
    ensures var t := tx.id;
            && now.Keys == s.txns.Keys + {t}
            && (t !in s.txns ==> now[t].tx == tx && now[t].value == value && now[t].height == height)
            && (t in s.txns && t !in d ==>
                 now[t] == if s.txns[t].height > 0 then s.txns[t] else s.txns[t].(height := height))
            && forall x :: x in s.txns && x != t ==>
                 now[x] == if x in d then s.txns[x].(height := -1) else s.txns[x]
  {
  }
}
