/** Runs of the wallet ledger from empty tables, and the first of their invariants. */
module LedgerRuns {
  import opened Options
  import opened Ledger
  import opened Undo
  import opened Adding

  /** The calls a wallet makes, and its being closed and opened again: keyAdrs are the own scripts the key store
      holds afterwards. */
  datatype Event =
    | Add(tx: Tx, height: int, keyAdrs: seq<Script>)
    | Freeze(op: OutPoint)
    | UnFreeze(op: OutPoint)
    | Restart(keyAdrs: seq<Script>)

  function SetFrozen(s: Tables, op: OutPoint, frozen: bool): Tables {
    if op in s.utxos then s.(utxos := s.utxos[op := s.utxos[op].(frozen := frozen)]) else s
  }

  /** The tables as a new store over the same database has them: scripts and heights are read back. */
  function Reopened(s: Tables, keyAdrs: seq<Script>): Tables {
    Populated(s.(adrs := [], txids := map[]), keyAdrs)
  }

  ghost predicate Step(s: Tables, event: Event, e: Tables) {
    match event
    case Add(tx, height, keyAdrs) => exists hits :: Added(s, tx, height, keyAdrs, e, hits)
    case Freeze(op) => e == SetFrozen(s, op, true)
    case UnFreeze(op) => e == SetFrozen(s, op, false)
    case Restart(keyAdrs) => e == Reopened(s, keyAdrs)
  }

  function Empty(adrs: seq<Script>, keepsFrozen: bool): Tables {
    Tables(map[], map[], map[], map[], adrs, keepsFrozen)
  }

  /** states[0] is an empty wallet and each event leads to the next state. */
  ghost predicate Run(states: seq<Tables>, events: seq<Event>) {
    && |states| == |events| + 1
    && (exists adrs, keepsFrozen :: states[0] == Empty(adrs, keepsFrozen))
    && forall i :: 0 <= i < |events| ==> Step(states[i], events[i], states[i + 1])
  }

  /** A call that gets past the checks at the start. */
  ghost predicate Processed(s: Tables, event: Event) {
    event.Add? && !Ignored(s, event.tx, event.height)
  }

  /** tx settled on the tables k, with the spend that got its height. */
  ghost predicate SettledBy(k: Tables, event: Event, pick: Option<OutPoint>, e: Tables)
    requires event.Add?
  {
    var tx, height := event.tx, event.height;
    Pick(Debited(Credited(k, tx, height), tx, height), tx.id, height, pick)
      && e == Settled(k, tx, height, pick, event.keyAdrs)
  }

  /** A call that is processed clears its conflicts and settles; one that is not changes nothing. */
  lemma Process(s: Tables, event: Event, e: Tables) returns (k: Tables, pick: Option<OutPoint>)
    requires event.Add? && Step(s, event, e)
    ensures if Processed(s, event) then Cleared(s, Conflicts(s, event.tx), k) && SettledBy(k, event, pick, e)
            else e == s
  {
    hide Settled, Pick, Debited, Credited, Cleared, Ignored, Conflicts, Relevant;
    var Add(tx, height, keyAdrs) := event;
    k, pick := s, None;
    if Processed(s, event) {
      var hits :| Added(s, tx, height, keyAdrs, e, hits);
      k :| Cleared(s, Conflicts(s, tx), k) && Settles(k, tx, height, keyAdrs, e, hits);
      Picked(k, tx, height, keyAdrs, e, hits);
      pick :| SettledBy(k, event, pick, e);
    }
  }

  lemma Picked(k: Tables, tx: Tx, height: int, keyAdrs: seq<Script>, e: Tables, hits: nat)
    requires Settles(k, tx, height, keyAdrs, e, hits)
    ensures exists pick :: SettledBy(k, Add(tx, height, keyAdrs), pick, e)
  {
    hide Settled, Debited, Credited, Relevant;
    var pick :| Pick(Debited(Credited(k, tx, height), tx, height), tx.id, height, pick)
      && e == Settled(k, tx, height, pick, keyAdrs);
    assert SettledBy(k, Add(tx, height, keyAdrs), pick, e);
  }

  lemma ProcessedKeyed(s: Tables, event: Event, k: Tables, pick: Option<OutPoint>, e: Tables)
    requires event.Add? && Keyed(s) && Shrinks(s, k) && SettledBy(k, event, pick, e)
    ensures Keyed(e)
  {
    hide Settled, Debited, Credited, Keyed;
    SettledKeyed(k, event.tx, event.height, pick, event.keyAdrs);
  }

  /** A transaction hash stands for one transaction. */
  ghost predicate HashBinds(s: Tables, event: Event) {
    Processed(s, event) && event.tx.id in s.txns ==> s.txns[event.tx.id].tx == event.tx
  }

  /** The row of tx stored, or brought up to date; other rows stay. */
  ghost predicate RowPut(was: map<Txid, Txn>, tx: Tx, value: int, height: int, now: map<Txid, Txn>) {
    && now.Keys == was.Keys + {tx.id}
    && now[tx.id].height == (if tx.id in was && was[tx.id].height > 0 then was[tx.id].height else height)
    && now[tx.id].tx == (if tx.id in was then was[tx.id].tx else tx)
    && now[tx.id].value == (if tx.id in was then was[tx.id].value else value)
    && (tx.id in was ==> now[tx.id].watchOnly == was[tx.id].watchOnly)
    && forall t :: t in was && t != tx.id ==> now[t] == was[t]
  }

  /** The row of tx after settling on the tables k, and the height cache read back. */
  ghost predicate RowSettled(k: Tables, tx: Tx, height: int, e: Tables) {
    && RowPut(k.txns, tx, NetValue(k, tx, height), height, e.txns)
    && e.txids == k.txids + Heights(e.txns)
  }

  ghost predicate SameSpends(a: map<OutPoint, Stxo>, b: map<OutPoint, Stxo>) {
    a.Keys == b.Keys && forall op :: op in a ==> a[op].utxo == b[op].utxo && a[op].spendTxid == b[op].spendTxid
  }

  /** What settling leaves in each table. */
  lemma SettledFields(k: Tables, tx: Tx, height: int, pick: Option<OutPoint>, keyAdrs: seq<Script>)
    requires Pick(Debited(Credited(k, tx, height), tx, height), tx.id, height, pick)
    ensures var e, d := Settled(k, tx, height, pick, keyAdrs), Debited(Credited(k, tx, height), tx, height);
            && e.utxos == d.utxos && SameSpends(d.stxos, e.stxos) && e.keepsFrozen == k.keepsFrozen
            && (Relevant(k, tx, height, pick) ==> RowSettled(k, tx, height, e) && e.adrs == keyAdrs)
            && (!Relevant(k, tx, height, pick) ==> e.txns == k.txns && e.txids == k.txids && e.adrs == k.adrs)
  {
    hide Relevant, Credited, Debited, NetValue, Hits, Recorded, Populated, Reheighted, RowPut, SameSpends, Heights;
    DebitedFields(k, tx, height);
    var d := Debited(Credited(k, tx, height), tx, height);
    ReheightedFields(d, tx, height, pick);
    var r := Reheighted(d, pick, height);
    RecordedRow(r, tx, NetValue(k, tx, height), height, Hits(k, tx, height, pick) == 0);
    RecordedCache(r, tx, NetValue(k, tx, height), height, Hits(k, tx, height, pick) == 0, keyAdrs);
  }

  lemma DebitedFields(k: Tables, tx: Tx, height: int)
    ensures var d := Debited(Credited(k, tx, height), tx, height);
            d.txns == k.txns && d.txids == k.txids && d.adrs == k.adrs && d.keepsFrozen == k.keepsFrozen
  {
    hide Credits, Debits, Spent;
  }

  lemma ReheightedFields(d: Tables, tx: Tx, height: int, pick: Option<OutPoint>)
    requires Pick(d, tx.id, height, pick)
    ensures var e := Reheighted(d, pick, height);
            && e.utxos == d.utxos && SameSpends(d.stxos, e.stxos)
            && e.txns == d.txns && e.txids == d.txids && e.adrs == d.adrs && e.keepsFrozen == d.keepsFrozen
  {
  }

  lemma RecordedRow(d: Tables, tx: Tx, value: int, height: int, watchOnly: bool)
    ensures var r := Recorded(d, tx, value, height, watchOnly);
            && r.utxos == d.utxos && r.stxos == d.stxos && r.keepsFrozen == d.keepsFrozen
            && RowPut(d.txns, tx, value, height, r.txns)
  {
  }

  lemma RecordedCache(d: Tables, tx: Tx, value: int, height: int, watchOnly: bool, keyAdrs: seq<Script>)
    ensures var r := Recorded(d, tx, value, height, watchOnly);
            var e := Populated(r, keyAdrs);
            && e.utxos == r.utxos && e.stxos == r.stxos && e.txns == r.txns && e.keepsFrozen == r.keepsFrozen
            && e.adrs == keyAdrs && e.txids == d.txids + Heights(e.txns)
  {
    var r := Recorded(d, tx, value, height, watchOnly);
    assert tx.id in Heights(r.txns);
    hide Heights;
    CacheOver(d.txids, r.txids, Heights(r.txns), tx.id);
  }

  lemma CacheOver(a: map<Txid, int>, b: map<Txid, int>, h: map<Txid, int>, t: Txid)
    requires t in h && (b == a || (t in b && b == a[t := b[t]]))
    ensures b + h == a + h
  {
  }

  /** op is an output of tx that pays one of adrs. */
  predicate IsCredit(tx: Tx, adrs: seq<Script>, op: OutPoint) {
    op.hash == tx.id && Own(tx, adrs, op.index)
  }

  predicate IsDebit(k: Tables, tx: Tx, op: OutPoint) {
    op in tx.ins && op in k.utxos
  }

  ghost predicate SpendsOthers(tx: Tx) {
    forall op :: op in tx.ins ==> op.hash != tx.id
  }

  /** The unspent and spent outputs after settling tx on the tables k, row by row. */
  ghost predicate OutputsSettled(k: Tables, tx: Tx, height: int, e: Tables) {
    && (forall op :: op in e.utxos <==> IsCredit(tx, k.adrs, op) || (op in k.utxos && op !in tx.ins))
    && (forall op :: op in e.utxos ==>
         e.utxos[op] == if IsCredit(tx, k.adrs, op) then NewUtxo(tx, op.index, height) else k.utxos[op])
    && (forall op :: op in e.stxos <==> op in k.stxos || IsDebit(k, tx, op))
    && (forall op :: op in e.stxos ==>
         && e.stxos[op].utxo == (if IsDebit(k, tx, op) then Filed(k, k.utxos[op]) else k.stxos[op].utxo)
         && e.stxos[op].spendTxid == (if IsDebit(k, tx, op) then tx.id else k.stxos[op].spendTxid))
  }

  lemma CreditedRows(k: Tables, tx: Tx, height: int)
    ensures var c := Credited(k, tx, height);
            && c.stxos == k.stxos && c.adrs == k.adrs && c.keepsFrozen == k.keepsFrozen
            && (forall op :: op in c.utxos <==> IsCredit(tx, k.adrs, op) || op in k.utxos)
            && forall op :: op in c.utxos ==>
                 c.utxos[op] == if IsCredit(tx, k.adrs, op) then NewUtxo(tx, op.index, height) else k.utxos[op]
  {
    var credits := Credits(tx, k.adrs, height, |tx.outs|);
    forall op ensures op in credits <==> IsCredit(tx, k.adrs, op) {
      if IsCredit(tx, k.adrs, op) { assert op == OutPoint(tx.id, op.index); }
    }
  }

  lemma DebitedRows(c: Tables, tx: Tx, height: int)
    ensures var e := Debited(c, tx, height);
            && (forall op :: op in e.utxos <==> op in c.utxos && op !in tx.ins)
            && (forall op :: op in e.utxos ==> e.utxos[op] == c.utxos[op])
            && (forall op :: op in e.stxos <==> op in c.stxos || IsDebit(c, tx, op))
            && forall op :: op in e.stxos ==>
                 && e.stxos[op].utxo == (if IsDebit(c, tx, op) then Filed(c, c.utxos[op]) else c.stxos[op].utxo)
                 && e.stxos[op].spendTxid == (if IsDebit(c, tx, op) then tx.id else c.stxos[op].spendTxid)
  {
    hide Filed;
    var debits := Debits(c, tx.ins, height, tx.id);
    assert forall op :: op in debits <==> IsDebit(c, tx, op);
  }

  lemma DebitedOutputs(k: Tables, tx: Tx, height: int)
    requires SpendsOthers(tx)
    ensures OutputsSettled(k, tx, height, Debited(Credited(k, tx, height), tx, height))
  {
    hide Credited, Debited, Own, NewUtxo;
    CreditedRows(k, tx, height);
    var c := Credited(k, tx, height);
    DebitedRows(c, tx, height);
    assert forall op :: IsDebit(c, tx, op) <==> IsDebit(k, tx, op);
    assert forall u :: Filed(c, u) == Filed(k, u);
    hide Filed, IsDebit, IsCredit;
  }

  lemma RelevantOutputs(k: Tables, tx: Tx, height: int, pick: Option<OutPoint>, op: OutPoint)
    requires SpendsOthers(tx) && (IsCredit(tx, k.adrs, op) || IsDebit(k, tx, op))
    ensures Relevant(k, tx, height, pick)
  {
    if IsDebit(k, tx, op) {
      assert op in Credited(k, tx, height).utxos;
      assert op in Spent(Credited(k, tx, height).utxos, tx.ins);
    }
  }

  /** Settling tx on the tables k, as seen from outside; relevant tells whether it is stored. */
  ghost predicate SettledFrom(k: Tables, tx: Tx, height: int, e: Tables, relevant: bool) {
    && OutputsSettled(k, tx, height, e)
    && (if relevant then RowSettled(k, tx, height, e) else e.txns == k.txns && e.txids == k.txids)
    && (forall op :: IsCredit(tx, k.adrs, op) || IsDebit(k, tx, op) ==> relevant)
    && (relevant ==>
         || (exists op :: IsCredit(tx, k.adrs, op) || IsDebit(k, tx, op))
         || exists op :: op in e.stxos && e.stxos[op].spendTxid == tx.id)
  }

  lemma SettledShape(k: Tables, tx: Tx, height: int, pick: Option<OutPoint>, keyAdrs: seq<Script>)
    requires SpendsOthers(tx)
    requires Pick(Debited(Credited(k, tx, height), tx, height), tx.id, height, pick)
    ensures var e, relevant := Settled(k, tx, height, pick, keyAdrs), Relevant(k, tx, height, pick);
            SettledFrom(k, tx, height, e, relevant) && e.adrs == if relevant then keyAdrs else k.adrs
  {
    hide Settled, Credited, Debited, Relevant, RowSettled, IsCredit, IsDebit;
    SettledFields(k, tx, height, pick, keyAdrs);
    DebitedOutputs(k, tx, height);
    forall op | IsCredit(tx, k.adrs, op) || IsDebit(k, tx, op) ensures Relevant(k, tx, height, pick) {
      RelevantOutputs(k, tx, height, pick, op);
    }
    if Relevant(k, tx, height, pick) && pick.None? {
      IrrelevantOutputs(k, tx, height, pick);
    }
  }

  lemma IrrelevantOutputs(k: Tables, tx: Tx, height: int, pick: Option<OutPoint>)
    requires SpendsOthers(tx) && Relevant(k, tx, height, pick) && pick.None?
    ensures exists op :: IsCredit(tx, k.adrs, op) || IsDebit(k, tx, op)
  {
    if i: nat :| i < |tx.outs| && Own(tx, k.adrs, i) {
      assert IsCredit(tx, k.adrs, OutPoint(tx.id, i));
    } else {
      var op :| op in Spent(Credited(k, tx, height).utxos, tx.ins);
      assert IsDebit(k, tx, op);
    }
  }

  /** Settling tx on the tables k changes something: an own output, an output it spends, or a spend that gets its
      height. */
  ghost predicate Moves(k: Tables, tx: Tx, height: int) {
    || (exists op :: IsCredit(tx, k.adrs, op) || IsDebit(k, tx, op))
    || (height > 0 && exists op :: op in k.stxos && k.stxos[op].spendTxid == tx.id)
  }

  lemma RelevantIffMoves(k: Tables, tx: Tx, height: int, pick: Option<OutPoint>)
    requires SpendsOthers(tx) && Pick(Debited(Credited(k, tx, height), tx, height), tx.id, height, pick)
    ensures Relevant(k, tx, height, pick) <==> Moves(k, tx, height)
  {
    hide Relevant, Credited, Debited, IsCredit, Own, NewUtxo;
    DebitedOutputs(k, tx, height);
    if op :| IsCredit(tx, k.adrs, op) || IsDebit(k, tx, op) {
      RelevantOutputs(k, tx, height, pick, op);
    } else if Relevant(k, tx, height, pick) {
      if pick.None? {
        IrrelevantOutputs(k, tx, height, pick);
      }
    } else {
      assert pick.None? by { PickIsRelevant(k, tx, height, pick); }
    }
  }

  lemma PickIsRelevant(k: Tables, tx: Tx, height: int, pick: Option<OutPoint>)
    ensures pick.Some? ==> Relevant(k, tx, height, pick)
  {
  }

  // ---------------------------------------------------------------------------
  // No two live transactions spend the same outpoint
  // ---------------------------------------------------------------------------

  ghost predicate NoLiveConflicts(s: Tables) {
    forall a, b :: Live(s, a) && Live(s, b) && a != b ==> !Shares(s.txns[a].tx, s.txns[b].tx)
  }

  ghost predicate Consistent(s: Tables) {
    Keyed(s) && SpendersStored(s) && NoLiveConflicts(s)
  }

  lemma ClearedConsistent(s: Tables, conflicts: set<Txid>, k: Tables)
    requires Consistent(s) && Cleared(s, conflicts, k)
    ensures Consistent(k) && (forall t :: t in conflicts ==> !Live(k, t)) && (forall t :: Live(k, t) ==> Live(s, t))
  {
    forall a, b | Live(k, a) && Live(k, b) && a != b ensures !Shares(k.txns[a].tx, k.txns[b].tx) {
      assert Live(s, a) && Live(s, b);
    }
  }

  lemma SettledSpenders(k: Tables, tx: Tx, height: int, pick: Option<OutPoint>, keyAdrs: seq<Script>)
    requires SpendersStored(k) && Pick(Debited(Credited(k, tx, height), tx, height), tx.id, height, pick)
    ensures SpendersStored(Settled(k, tx, height, pick, keyAdrs))
  {
    hide Settled, Credited, NetValue, Hits, Pick;
    SettledFields(k, tx, height, pick, keyAdrs);
    DebitedFields(k, tx, height);
    var c := Credited(k, tx, height);
    assert c.stxos == k.stxos by { CreditedFields(k, tx, height); }
    if !Relevant(k, tx, height, pick) {
      assert Debited(c, tx, height).stxos == k.stxos;
    }
  }

  lemma CreditedFields(k: Tables, tx: Tx, height: int)
    ensures var c := Credited(k, tx, height);
            c.stxos == k.stxos && c.txns == k.txns && c.txids == k.txids && c.adrs == k.adrs
  {
  }

  lemma SettledConflicts(k: Tables, tx: Tx, height: int, pick: Option<OutPoint>, keyAdrs: seq<Script>)
    requires NoLiveConflicts(k) && Pick(Debited(Credited(k, tx, height), tx, height), tx.id, height, pick)
    requires tx.id in k.txns ==> k.txns[tx.id].tx == tx
    requires forall t :: Live(k, t) && t != tx.id ==> !Shares(k.txns[t].tx, tx)
    ensures NoLiveConflicts(Settled(k, tx, height, pick, keyAdrs))
  {
    hide Settled, Credited, Debited, NetValue, Hits, Relevant, Shares;
    SettledFields(k, tx, height, pick, keyAdrs);
    var e := Settled(k, tx, height, pick, keyAdrs);
    forall a, b | Live(e, a) && Live(e, b) && a != b ensures !Shares(e.txns[a].tx, e.txns[b].tx) {
      SharesSymmetric(e.txns[a].tx, e.txns[b].tx);
      if a != tx.id { assert e.txns[a] == k.txns[a] && Live(k, a); }
      if b != tx.id { assert e.txns[b] == k.txns[b] && Live(k, b); }
    }
  }

  lemma SharesSymmetric(a: Tx, b: Tx)
    ensures Shares(a, b) <==> Shares(b, a)
  {
  }

  /** After the conflicts are undone no live transaction shares an input with tx. */
  lemma NoConflictLeft(s: Tables, tx: Tx, k: Tables)
    requires Consistent(s) && Cleared(s, Conflicts(s, tx), k)
    ensures Consistent(k)
    ensures forall t :: Live(k, t) && t != tx.id ==> !Shares(k.txns[t].tx, tx)
    ensures tx.id in k.txns ==> tx.id in s.txns && k.txns[tx.id].tx == s.txns[tx.id].tx
  {
    ClearedConsistent(s, Conflicts(s, tx), k);
    hide Exact, Keyed, SpendersStored, NoLiveConflicts, Shares;
    forall t | Live(k, t) && t != tx.id ensures !Shares(k.txns[t].tx, tx) {
      assert Live(s, t) && t !in Conflicts(s, tx);
    }
  }

  lemma AddKeepsConsistent(s: Tables, event: Event, e: Tables)
    requires event.Add? && Consistent(s) && HashBinds(s, event) && Step(s, event, e)
    ensures Consistent(e)
  {
    hide Settled, Pick, Debited, Credited, Cleared, Shares, Conflicts, Step, Ignored;
    var k, pick := Process(s, event, e);
    if Processed(s, event) {
      NoConflictLeft(s, event.tx, k);
      assert Keyed(e) by { hide Consistent; ClearedShrinks(s, event.tx, k); ProcessedKeyed(s, event, k, pick, e); }
      SettledSpenders(k, event.tx, event.height, pick, event.keyAdrs);
      SettledConflicts(k, event.tx, event.height, pick, event.keyAdrs);
    }
  }

  lemma ClearedShrinks(s: Tables, tx: Tx, k: Tables)
    requires Cleared(s, Conflicts(s, tx), k)
    ensures Shrinks(s, k)
  {
  }

  /** The first-seen rule and its opposite: a transaction added at height 0 loses to whatever live one it conflicts
      with, one added at any other height beats them all, confirmed or not. */
  lemma WhoWinsConflicts(s: Tables, event: Event, e: Tables)
    requires event.Add? && Consistent(s) && Step(s, event, e)
    requires Sane(event.tx) && !Known(s, event.tx, event.height) && Conflicts(s, event.tx) != {}
    ensures event.height == 0 ==> e == s
    ensures event.height != 0 ==> forall t :: t in Conflicts(s, event.tx) ==> Live(s, t) && !Live(e, t)
  {
    hide Settled, Pick, Debited, Credited, Cleared, Shares, Sane, Step, Consistent;
    var tx := event.tx;
    var k, pick := Process(s, event, e);
    if event.height != 0 {
      ClearedConsistent(s, Conflicts(s, tx), k);
      SettledFields(k, tx, event.height, pick, event.keyAdrs);
      hide NetValue, Heights, SameSpends, Relevant;
      assert forall t :: t in Conflicts(s, tx) ==> t != tx.id && !Live(k, t);
    }
  }

  /** The outpoint every coinbase transaction spends. */
  const NULL_OUTPOINT: OutPoint := OutPoint(Txid(0), 0xffff_ffff)

  /** Any two coinbase transactions conflict, so a second one undoes the first, confirmed or not. */
  lemma CoinbaseUndoesCoinbase(s: Tables, event: Event, e: Tables, t: Txid)
    requires Processed(s, event) && Consistent(s) && Step(s, event, e)
    requires NULL_OUTPOINT in event.tx.ins && t != event.tx.id
    requires Live(s, t) && NULL_OUTPOINT in s.txns[t].tx.ins
    ensures event.height != 0 && !Live(e, t)
  {
    hide Step, Consistent, Sane;
    assert Shares(s.txns[t].tx, event.tx);
    assert t in Conflicts(s, event.tx);
    hide Conflicts;
    WhoWinsConflicts(s, event, e);
  }

  lemma FreezeKeepsConsistent(s: Tables, op: OutPoint, frozen: bool)
    requires Consistent(s)
    ensures Consistent(SetFrozen(s, op, frozen))
  {
  }

  lemma RestartKeepsConsistent(s: Tables, keyAdrs: seq<Script>)
    requires Consistent(s)
    ensures Consistent(Reopened(s, keyAdrs))
  {
    hide Shares;
  }

  /** In every reachable state no two distinct live transactions spend the same outpoint:
      any heights, any order, dead transactions re-added or not. */
  lemma {:induction false} NoDoubleSpends(states: seq<Tables>, events: seq<Event>)
    requires Run(states, events)
    requires forall i :: 0 <= i < |events| ==> HashBinds(states[i], events[i])
    ensures Consistent(states[|events|])
    decreases |events|
  {
    hide Step, HashBinds, Consistent;
    if events == [] {
      var adrs, keepsFrozen :| states[0] == Empty(adrs, keepsFrozen);
      EmptyIsConsistent(adrs, keepsFrozen);
    } else {
      var n := |events| - 1;
      assert Run(states[..n + 1], events[..n]);
      NoDoubleSpends(states[..n + 1], events[..n]);
      StepKeepsConsistent(states[n], events[n], states[n + 1]);
    }
  }

  lemma EmptyIsConsistent(adrs: seq<Script>, keepsFrozen: bool)
    ensures Consistent(Empty(adrs, keepsFrozen))
  {
  }

  lemma StepKeepsConsistent(s: Tables, event: Event, e: Tables)
    requires Consistent(s) && HashBinds(s, event) && Step(s, event, e)
    ensures Consistent(e)
  {
    hide Consistent, HashBinds, Added;
    match event
    case Add(_, _, _) => AddKeepsConsistent(s, event, e);
    case Freeze(op) => FreezeKeepsConsistent(s, op, true);
    case UnFreeze(op) => FreezeKeepsConsistent(s, op, false);
    case Restart(keyAdrs) => RestartKeepsConsistent(s, keyAdrs);
  }
}
