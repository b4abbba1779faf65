/** Short runs in which the wallet loses its balance, a transaction or a frozen mark. */
module LedgerExamples {
  import opened Adding
  import opened Conservation
  import opened Disjointness
  import opened ExactAdding
  import opened FrozenMarks
  import opened HeightCache
  import opened Ledger
  import opened LedgerRuns
  import opened Overlap
  import opened Pricing
  import opened ReAdding
  import opened Sums
  import opened Undo
  import opened Wallets
  import KeyTables

  const OURS: Script := PayTo(KeyTables.Address(7))
  const LATER: Script := PayTo(KeyTables.Address(8))
  const THEIRS: Script := Other(0)

  /** The scripts of any wallet that holds the key for ours, among others. */
  ghost predicate HoldsOurs(adrs: seq<Script>) {
    OURS in adrs && THEIRS !in adrs
  }

  ghost predicate Adds(event: Event, tx: Tx, height: int) {
    event.Add? && event.tx == tx && event.height == height && HoldsOurs(event.keyAdrs)
  }

  /** The parent pays us a coin. The child spends it to someone else, the spender spends it for change. The rival spends
      what the parent spends. */
  const PARENT: Tx := Tx(Txid(1), [OutPoint(Txid(0), 0)], [TxOut(5, OURS)], true)
  const CHILD: Tx := Tx(Txid(2), [OutPoint(Txid(1), 0)], [TxOut(5, THEIRS)], true)
  const SPENDER: Tx := Tx(Txid(2), [OutPoint(Txid(1), 0)], [TxOut(4, OURS)], true)
  const RIVAL: Tx := Tx(Txid(3), [OutPoint(Txid(0), 0)], [TxOut(5, THEIRS)], true)
  const COIN: OutPoint := OutPoint(Txid(1), 0)
  const CHANGE: OutPoint := OutPoint(Txid(2), 0)

  /** The buyer spends the coin together with an input of somebody else's; outbid spends that one too. */
  const BUYER: Tx := Tx(Txid(2), [OutPoint(Txid(1), 0), OutPoint(Txid(0), 1)], [TxOut(5, THEIRS)], true)
  const OUTBID: Tx := Tx(Txid(3), [OutPoint(Txid(0), 1)], [TxOut(5, THEIRS)], true)

  /** Pays a script of ours and one that is ours only later. */
  const PAYS_BOTH: Tx := Tx(Txid(1), [OutPoint(Txid(0), 0)], [TxOut(5, OURS), TxOut(3, LATER)], true)
  const LATE_COIN: OutPoint := OutPoint(Txid(1), 1)

  ghost function Number(): Txid -> nat {
    (t: Txid) => t.number
  }

  lemma SmallValues(tx: Tx)
    requires tx in {PARENT, CHILD, SPENDER, RIVAL, BUYER, OUTBID, FIRST, SECOND}
    ensures Sane(tx) && RankedTx(tx, Number())
    ensures forall o :: o in tx.outs ==> o.script == OURS || o.script == THEIRS
  {
    assert TotalOut(tx.outs[..0]) == 0;
    assert tx.outs[..1] == tx.outs;
  }

  /** These pay every such wallet the same. */
  lemma PaidAlike(tx: Tx, a: seq<Script>, b: seq<Script>)
    requires HoldsOurs(a) && HoldsOurs(b)
    requires forall o :: o in tx.outs ==> o.script == OURS || o.script == THEIRS
    ensures PaysAlike(tx, a, b)
  {
    forall i: nat | i < |tx.outs| ensures tx.outs[i].script in a <==> tx.outs[i].script in b {
      assert tx.outs[i] in tx.outs;
    }
  }

  lemma AllPaidAlike(txns: map<Txid, Txn>, a: seq<Script>, b: seq<Script>)
    requires HoldsOurs(a) && HoldsOurs(b)
    requires forall t :: t in txns ==> txns[t].tx in {PARENT, CHILD, SPENDER, RIVAL, BUYER, OUTBID, FIRST, SECOND}
    ensures AllPayAlike(txns, a, b)
  {
    hide PaysAlike, HoldsOurs;
    forall t | t in txns ensures PaysAlike(txns[t].tx, a, b) {
      SmallValues(txns[t].tx);
      PaidAlike(txns[t].tx, a, b);
    }
  }

  /** A wallet that holds what it should. */
  ghost predicate InOrder(s: Tables) {
    Sound(s, Number()) && Priced(s)
  }

  lemma TidyStep(s: Tables, event: Event, e: Tables)
    requires InOrder(s) && Tidy(s, event, Number()) && Step(s, event, e)
    ensures InOrder(e)
  {
    hide Sound, Priced, Tidy, Step;
    TidyIsOrderly(s, event, Number());
    StepKeepsSound(s, event, e, Number());
    SoundIsConsistent(e, Number());
    StepKeepsPriced(s, event, e, Number());
  }

  lemma StartsInOrder(adrs: seq<Script>, keepsFrozen: bool)
    ensures InOrder(Empty(adrs, keepsFrozen))
  {
    EmptyIsSound(adrs, keepsFrozen, Number());
    EmptyIsPriced(adrs, keepsFrozen);
  }

  // ---------------------------------------------------------------------------
  // The parent stored
  // ---------------------------------------------------------------------------

  /** Only the parent is stored, at this height, and the coin is unspent. */
  ghost predicate ParentOnly(s: Tables, height: int) {
    && HoldsOurs(s.adrs) && s.txns.Keys == {Txid(1)} && s.txids == map[Txid(1) := height]
    && s.txns[Txid(1)].tx == PARENT && s.txns[Txid(1)].height == height && OnlyUnspent(s, COIN)
  }

  lemma PaidOnce(s: Tables, event: Event, e: Tables, height: int)
    requires s == Empty(s.adrs, s.keepsFrozen) && HoldsOurs(s.adrs) && height >= 0
    requires Adds(event, PARENT, height) && Step(s, event, e)
    ensures InOrder(e) && ParentOnly(e, height)
  {
    hide InOrder, Sound, Tidy, Step, Sane, RankedTx, Processed, SettledFrom, Conflicts, ParentOnly;
    SmallValues(PARENT);
    StartsInOrder(s.adrs, s.keepsFrozen);
    FirstIsTidy(s, event, PARENT);
    OrderIsSound(s);
    TidyStep(s, event, e);
    var relevant := PlainAdd(s, event, e, Number());
    ParentPut(s, event, e, height, relevant);
  }

  lemma OrderIsSound(s: Tables)
    requires InOrder(s)
    ensures Sound(s, Number()) && Priced(s)
  {
  }

  lemma FirstIsTidy(s: Tables, event: Event, tx: Tx)
    requires s == Empty(s.adrs, s.keepsFrozen) && HoldsOurs(s.adrs) && event.Add? && event.tx == tx
    requires HoldsOurs(event.keyAdrs) && Sane(tx) && RankedTx(tx, Number())
    requires forall o :: o in tx.outs ==> o.script == OURS || o.script == THEIRS
    ensures Processed(s, event) && Conflicts(s, tx) == {}
    ensures event.height >= 0 ==> Tidy(s, event, Number())
  {
    PaidAlike(tx, event.keyAdrs, s.adrs);
    hide Sane, RankedTx, PaysAlike, Moves;
  }

  lemma ParentPut(s: Tables, event: Event, e: Tables, height: int, relevant: bool)
    requires s == Empty(s.adrs, s.keepsFrozen) && HoldsOurs(s.adrs) && Adds(event, PARENT, height)
    requires SettledFrom(s, PARENT, height, e, relevant) && e.adrs == if relevant then event.keyAdrs else s.adrs
    ensures ParentOnly(e, height)
  {
    hide NetValue;
    assert IsCredit(PARENT, s.adrs, COIN);
  }

  // ---------------------------------------------------------------------------
  // A spent parent confirms
  // ---------------------------------------------------------------------------

  /** Whatever the tables' order, these calls leave the coin both unspent and spent, and the reported total no longer
      matches the live transactions. */
  lemma ConfirmingSpentParentLosesBalance(states: seq<Tables>, events: seq<Event>)
    requires Run(states, events) && HoldsOurs(states[0].adrs) && |events| == 3
    requires Adds(events[0], PARENT, 0) && Adds(events[1], CHILD, 0) && Adds(events[2], PARENT, 9)
    ensures COIN in states[3].utxos && COIN in states[3].stxos && !Balanced(states[3])
  {
    hide InOrder, Balanced, Step, ParentOnly, Adds;
    assert Step(states[0], events[0], states[1]);
    PaidOnce(states[0], events[0], states[1], 0);
    assert Step(states[1], events[1], states[2]);
    SpentOnce(states[1], events[1], states[2]);
    assert Step(states[2], events[2], states[3]);
    RevivedOnce(states[2], events[2], states[3]);
  }

  /** The coin is spent, its parent still unconfirmed. */
  ghost predicate CoinSpent(s: Tables) {
    && HoldsOurs(s.adrs) && OnlySpent(s, COIN)
    && Live(s, Txid(1)) && s.txns[Txid(1)].tx == PARENT && Txid(1) in s.txids && s.txids[Txid(1)] == 0
  }

  /** A transaction that spends the coin of a live parent. */
  lemma SpendingIsTidy(s: Tables, event: Event, tx: Tx)
    requires ParentOnly(s, 0) && Adds(event, tx, 0) && (tx == CHILD || tx == SPENDER || tx == BUYER)
    ensures Processed(s, event) && Conflicts(s, tx) == {} && Tidy(s, event, Number())
  {
    SmallValues(tx);
    PaidAlike(tx, event.keyAdrs, s.adrs);
    AllPaidAlike(s.txns, event.keyAdrs, s.adrs);
    hide Sane, RankedTx, PaysAlike, AllPayAlike, Moves, HoldsOurs;
    assert !Shares(PARENT, tx);
    KillNothing(s);
    assert forall op :: op in OwnIns(s, tx) ==> op == COIN;
  }

  lemma SpentOnce(s: Tables, event: Event, e: Tables)
    requires InOrder(s) && ParentOnly(s, 0) && Adds(event, CHILD, 0) && Step(s, event, e)
    ensures InOrder(e) && CoinSpent(e)
  {
    hide InOrder, Sound, Tidy, Step, Sane, RankedTx, Processed, SettledFrom, Conflicts, ParentOnly, CoinSpent;
    SpendingIsTidy(s, event, CHILD);
    SmallValues(CHILD);
    OrderIsSound(s);
    TidyStep(s, event, e);
    var relevant := PlainAdd(s, event, e, Number());
    ChildPut(s, event, e, relevant);
  }

  lemma ChildPut(s: Tables, event: Event, e: Tables, relevant: bool)
    requires ParentOnly(s, 0) && Adds(event, CHILD, 0)
    requires SettledFrom(s, CHILD, 0, e, relevant) && e.adrs == if relevant then event.keyAdrs else s.adrs
    ensures CoinSpent(e)
  {
    hide NetValue;
    assert IsDebit(s, CHILD, COIN);
    assert !IsCredit(CHILD, s.adrs, COIN);
  }

  lemma RevivedOnce(s: Tables, event: Event, e: Tables)
    requires InOrder(s) && CoinSpent(s) && Adds(event, PARENT, 9) && Step(s, event, e)
    ensures COIN in e.utxos && COIN in e.stxos && !Balanced(e)
  {
    SmallValues(PARENT);
    assert IsCredit(PARENT, s.adrs, COIN);
    assert !OwnStillUnspent(s, PARENT);
    OrderIsSound(s);
    hide InOrder, Sound, Priced, Step, Sane, RankedTx, SettledFrom, Conflicts, Balanced, OwnStillUnspent;
    SoundLive(s, PARENT, Number());
    assert Processed(s, event);
    var relevant := PlainAdd(s, event, e, Number());
    CoinBack(s, e, relevant);
    LiveReAddExact(s, event, e, Number());
  }

  lemma CoinBack(s: Tables, e: Tables, relevant: bool)
    requires CoinSpent(s) && SettledFrom(s, PARENT, 9, e, relevant)
    ensures COIN in e.utxos && COIN in e.stxos
  {
    hide RowSettled;
    assert IsCredit(PARENT, s.adrs, COIN);
  }

  // ---------------------------------------------------------------------------
  // A parent is reported at a negative height
  // ---------------------------------------------------------------------------

  /** Its row falls back to dead while its coin stays listed. */
  lemma NegativeHeightLosesBalance(states: seq<Tables>, events: seq<Event>)
    requires Run(states, events) && HoldsOurs(states[0].adrs) && |events| == 2
    requires Adds(events[0], PARENT, 0) && Adds(events[1], PARENT, -1)
    ensures Balanced(states[1]) && Live(states[1], PARENT.id)
    ensures COIN in states[2].utxos && !Live(states[2], PARENT.id) && !Balanced(states[2])
  {
    hide InOrder, Balanced, Step, ParentOnly, Adds, Live;
    assert Step(states[0], events[0], states[1]);
    PaidOnce(states[0], events[0], states[1], 0);
    assert Step(states[1], events[1], states[2]);
    FallsBack(states[1], events[1], states[2]);
  }

  lemma FallsBack(s: Tables, event: Event, e: Tables)
    requires InOrder(s) && ParentOnly(s, 0) && Adds(event, PARENT, -1) && Step(s, event, e)
    ensures Balanced(s) && Live(s, PARENT.id) && COIN in e.utxos && !Live(e, PARENT.id) && !Balanced(e)
  {
    SmallValues(PARENT);
    OrderIsSound(s);
    ParentIsWorthFive(s);
    assert IsCredit(PARENT, s.adrs, COIN);
    assert Demoted(s, event);
    assert Processed(s, event) by { hide Sane; assert Conflicts(s, PARENT) == {}; }
    hide InOrder, Sound, Priced, Step, Sane, RankedTx, SettledFrom, Balanced, Demoted, Worth, Revived, Processed;
    SoundIsBalanced(s, Number());
    LiveReAddExact(s, event, e, Number());
    var relevant := PlainAdd(s, event, e, Number());
    FallenBack(s, e, relevant);
  }

  /** Its value is that of the coin, and the coin is unspent. */
  lemma ParentIsWorthFive(s: Tables)
    requires Priced(s) && ParentOnly(s, 0)
    ensures s.txns[Txid(1)].value == 5 && Worth(s.txns, Revived(s, PARENT)) == 0
  {
    assert CreditSet(PARENT, s.adrs, 1) == {COIN} by {
      assert Own(PARENT, s.adrs, 0) && OutPoint(Txid(1), 0) == COIN;
    }
    assert OwnIns(s, PARENT) == {};
    assert Revived(s, PARENT) == {};
    SumEmpty(OutValues(s.txns));
    SumInsert({}, OutValues(s.txns), COIN);
    assert {} + {COIN} == {COIN};
    assert s.txns[Txid(1)].value == Price(s, PARENT);
  }

  lemma FallenBack(s: Tables, e: Tables, relevant: bool)
    requires ParentOnly(s, 0) && SettledFrom(s, PARENT, -1, e, relevant)
    ensures COIN in e.utxos && !Live(e, PARENT.id)
  {
    hide NetValue, Heights;
    assert IsCredit(PARENT, s.adrs, COIN);
  }

  // ---------------------------------------------------------------------------
  // Frozen marks
  // ---------------------------------------------------------------------------

  /** The coin is frozen while unconfirmed and on offer once its transaction confirms. */
  lemma ConfirmingThawsCoin(states: seq<Tables>, events: seq<Event>)
    requires Run(states, events) && HoldsOurs(states[0].adrs) && |events| == 3
    requires Adds(events[0], PARENT, 0) && events[1] == Freeze(COIN) && Adds(events[2], PARENT, 9)
    ensures COIN in FrozenOps(states[2]) && COIN in Offered(states[3], true)
  {
    hide InOrder, Step, ParentOnly, Adds, FrozenOps, Offered;
    assert Step(states[0], events[0], states[1]);
    PaidOnce(states[0], events[0], states[1], 0);
    assert Step(states[1], events[1], states[2]);
    FreezesCoin(states[1], states[2]);
    assert Step(states[2], events[2], states[3]);
    ConfirmsThawed(states[2], events[2], states[3]);
  }

  lemma FreezesCoin(s: Tables, e: Tables)
    requires InOrder(s) && ParentOnly(s, 0) && Step(s, Freeze(COIN), e)
    ensures InOrder(e) && ParentOnly(e, 0) && COIN in FrozenOps(e) && e.utxos[COIN].frozen
  {
    var event := Freeze(COIN);
    OrderIsSound(s);
    assert RowsTrue(s) by { SoundRows(s, Number()); }
    hide InOrder, Tidy, Step, ParentOnly, Sound, Priced, RowsTrue;
    FreezeIsTidy(s, COIN);
    FrozenCoin(s, e);
    TidyStep(s, event, e);
  }

  lemma FreezeIsTidy(s: Tables, op: OutPoint)
    ensures Tidy(s, Freeze(op), Number())
  {
  }

  lemma FrozenCoin(s: Tables, e: Tables)
    requires RowsTrue(s) && ParentOnly(s, 0) && Step(s, Freeze(COIN), e)
    ensures ParentOnly(e, 0) && COIN in FrozenOps(e) && e.utxos[COIN].frozen
  {
    assert TellsTruth(s, COIN, s.utxos[COIN]);
    hide OutValue;
  }

  lemma ConfirmsThawed(s: Tables, event: Event, e: Tables)
    requires InOrder(s) && ParentOnly(s, 0) && Adds(event, PARENT, 9) && Step(s, event, e)
    ensures COIN in Offered(e, true)
  {
    SmallValues(PARENT);
    OrderIsSound(s);
    assert Processed(s, event) && Conflicts(s, PARENT) == {} by { hide Sane; }
    hide InOrder, Sound, Step, Sane, RankedTx, SettledFrom, Processed, Conflicts;
    var relevant := PlainAdd(s, event, e, Number());
    ThawedCoin(s, e, relevant);
  }

  lemma ThawedCoin(s: Tables, e: Tables, relevant: bool)
    requires ParentOnly(s, 0) && SettledFrom(s, PARENT, 9, e, relevant)
    ensures COIN in Offered(e, true)
  {
    hide RowSettled;
    assert IsCredit(PARENT, s.adrs, COIN);
  }

  /** The frozen coin is spent, the spend is undone by a conflict elsewhere, and the coin is unspent again: frozen in
      bolt, not in sqlite. */
  lemma UndoneSpendThawsInSqlite(states: seq<Tables>, events: seq<Event>)
    requires Run(states, events) && HoldsOurs(states[0].adrs) && |events| == 4
    requires Adds(events[0], PARENT, 0) && events[1] == Freeze(COIN)
    requires Adds(events[2], BUYER, 0) && Adds(events[3], OUTBID, 9)
    ensures COIN in states[2].utxos && states[2].utxos[COIN].frozen
    ensures COIN in states[4].utxos && (states[4].utxos[COIN].frozen <==> states[0].keepsFrozen)
  {
    hide InOrder, Step, ParentOnly, Adds, Bought, Pays, RankedEvents, OnlySpent, OnlyUnspent, FrozenOps, HoldsOurs;
    BoughtRanked(states, events);
    assert Step(states[0], events[0], states[1]);
    PaidOnce(states[0], events[0], states[1], 0);
    assert Step(states[1], events[1], states[2]);
    FreezesCoin(states[1], states[2]);
    assert Step(states[2], events[2], states[3]);
    Buys(states[2], events[2], states[3]);
    assert Step(states[3], events[3], states[4]);
    FreedByOutbid(states[3], events[3], states[4]);
    CoinUnspent(states[2]);
    IsUnspent(states[2]);
    IsUnspent(states[4]);
    assert SpentBetween(states, 2, 4, COIN);
    UndoneAsItWasIff(states, events, Number(), 2, 4, COIN);
    SameDatabase(states, events, 2);
  }

  lemma IsUnspent(s: Tables)
    requires OnlyUnspent(s, COIN)
    ensures COIN in s.utxos
  {
  }

  lemma BoughtRanked(states: seq<Tables>, events: seq<Event>)
    requires |events| == 4 && |states| == 5
    requires Adds(events[0], PARENT, 0) && events[1] == Freeze(COIN)
    requires Adds(events[2], BUYER, 0) && Adds(events[3], OUTBID, 9)
    ensures RankedEvents(states, events, Number())
  {
    hide Ignored, RankedTx, HoldsOurs, Sane;
    SmallValues(PARENT);
    SmallValues(BUYER);
    SmallValues(OUTBID);
  }

  lemma CoinUnspent(s: Tables)
    requires ParentOnly(s, 0)
    ensures OnlyUnspent(s, COIN)
  {
  }

  /** Parent and buyer are stored, and the buyer spent the coin. */
  ghost predicate Bought(s: Tables) {
    && HoldsOurs(s.adrs) && s.txns.Keys == {Txid(1), Txid(2)} && s.txids == map[Txid(1) := 0, Txid(2) := 0]
    && s.txns[Txid(1)].tx == PARENT && s.txns[Txid(2)].tx == BUYER && Live(s, Txid(2))
    && COIN !in s.utxos && s.stxos.Keys == {COIN} && s.stxos[COIN].spendTxid == Txid(2)
  }

  lemma Buys(s: Tables, event: Event, e: Tables)
    requires InOrder(s) && ParentOnly(s, 0) && Adds(event, BUYER, 0) && Step(s, event, e)
    ensures InOrder(e) && Bought(e) && OnlySpent(e, COIN)
  {
    hide InOrder, Sound, Tidy, Step, Sane, RankedTx, Processed, SettledFrom, Conflicts, ParentOnly, Bought,
         SpendersLive, ParentsLive, OnlySpent, HoldsOurs;
    SpendingIsTidy(s, event, BUYER);
    SmallValues(BUYER);
    OrderIsSound(s);
    assert SpendersLive(s) && ParentsLive(s) by { SoundRows(s, Number()); }
    NothingSpent(s);
    TidyStep(s, event, e);
    var relevant := PlainAdd(s, event, e, Number());
    BuyerPut(s, event, e, relevant);
  }

  /** The only stored transaction spends nothing of ours. */
  lemma NothingSpent(s: Tables)
    requires SpendersLive(s) && ParentsLive(s) && ParentOnly(s, 0)
    ensures s.stxos.Keys == {} && forall op :: op in s.utxos ==> op.hash == Txid(1)
  {
    forall op | op in PARENT.ins ensures op !in Held(s) {
      assert op.hash == Txid(0);
    }
    forall op | op in s.utxos ensures op.hash == Txid(1) { assert op in Held(s); }
  }

  lemma BuyerPut(s: Tables, event: Event, e: Tables, relevant: bool)
    requires ParentOnly(s, 0) && Adds(event, BUYER, 0)
    requires s.stxos.Keys == {} && forall op :: op in s.utxos ==> op.hash == Txid(1)
    requires SettledFrom(s, BUYER, 0, e, relevant) && e.adrs == if relevant then event.keyAdrs else s.adrs
    ensures Bought(e) && OnlySpent(e, COIN)
  {
    hide NetValue, RowSettled, Own, NewUtxo;
    assert IsDebit(s, BUYER, COIN) && relevant;
    assert forall op :: IsDebit(s, BUYER, op) ==> op == COIN;
    assert e.stxos.Keys == {COIN} && e.stxos[COIN].spendTxid == Txid(2) && COIN !in e.utxos by {
      assert !IsCredit(BUYER, s.adrs, COIN);
    }
    hide OutputsSettled;
    BuyerRow(s, e);
  }

  lemma BuyerRow(s: Tables, e: Tables)
    requires ParentOnly(s, 0) && RowSettled(s, BUYER, 0, e)
    ensures e.txns.Keys == {Txid(1), Txid(2)} && e.txids == map[Txid(1) := 0, Txid(2) := 0]
    ensures e.txns[Txid(1)].tx == PARENT && e.txns[Txid(2)].tx == BUYER && Live(e, Txid(2))
  {
    hide NetValue;
    assert e.txns.Keys == {Txid(1)} + {Txid(2)};
  }

  lemma FreedByOutbid(s: Tables, event: Event, e: Tables)
    requires InOrder(s) && Bought(s) && Adds(event, OUTBID, 9) && Step(s, event, e)
    ensures OnlyUnspent(e, COIN) && !Pays(s, event, COIN)
  {
    hide InOrder, Sound, Priced, Step, Sane, RankedTx, Processed, Conflicts, Bought, WithoutConflicts, Settled, Pick,
         Relevant, RowSettled, OutputsSettled, OnlyUnspent, HoldsOurs, Pays;
    SmallValues(OUTBID);
    OutbidConflicts(s, event);
    OrderIsSound(s);
    var k := WithoutConflicts(s, OUTBID);
    BuyerGone(s);
    assert !Pays(s, event, COIN) by { PaysOthers(s, event); }
    var pick := SoundAdd(s, event, e, Number());
    StillUnspent(k, e);
  }

  lemma PaysOthers(s: Tables, event: Event)
    requires Adds(event, OUTBID, 9)
    ensures !Pays(s, event, COIN)
  {
  }

  lemma StillUnspent(k: Tables, e: Tables)
    requires OnlyUnspent(k, COIN) && OutputsSettled(k, OUTBID, 9, e)
    ensures OnlyUnspent(e, COIN)
  {
    assert !IsCredit(OUTBID, k.adrs, COIN);
  }

  lemma OutbidConflicts(s: Tables, event: Event)
    requires Bought(s) && Adds(event, OUTBID, 9) && Sane(OUTBID)
    ensures Processed(s, event) && Conflicts(s, OUTBID) == {Txid(2)}
  {
    hide Sane;
    assert OutPoint(Txid(0), 1) in BUYER.ins && OutPoint(Txid(0), 1) in OUTBID.ins;
    assert Shares(BUYER, OUTBID) && !Shares(PARENT, OUTBID);
  }

  lemma BuyerGone(s: Tables)
    requires Bought(s) && Conflicts(s, OUTBID) == {Txid(2)}
    ensures var k := WithoutConflicts(s, OUTBID); OnlyUnspent(k, COIN) && HoldsOurs(k.adrs)
  {
    hide Conflicts, Descendants;
    BuyerDies(s, Conflicts(s, OUTBID));
  }

  lemma BuyerDies(s: Tables, conflicts: set<Txid>)
    requires Bought(s) && conflicts == {Txid(2)}
    ensures OnlyUnspent(Kill(s, Descendants(s.stxos, conflicts)), COIN)
  {
    assert Closed(s.stxos, conflicts);
    assert Descendants(s.stxos, conflicts) == conflicts;
  }

  // ---------------------------------------------------------------------------
  // A dead child confirms without its parent
  // ---------------------------------------------------------------------------

  /** The rival confirms, so parent and child die; then the child is reported confirmed. It is stored with the value
      it had when it also spent the coin. */
  lemma ConfirmingDeadChildLosesBalance(states: seq<Tables>, events: seq<Event>)
    requires Run(states, events) && HoldsOurs(states[0].adrs) && |events| == 4
    requires Adds(events[0], PARENT, 0) && Adds(events[1], SPENDER, 0)
    requires Adds(events[2], RIVAL, 9) && Adds(events[3], SPENDER, 9)
    ensures Live(states[4], SPENDER.id) && CHANGE in states[4].utxos && !Balanced(states[4])
  {
    hide InOrder, Balanced, Step, ParentOnly, Family, BothDead, Live, Adds;
    assert Step(states[0], events[0], states[1]);
    PaidOnce(states[0], events[0], states[1], 0);
    assert Step(states[1], events[1], states[2]);
    SpentForChange(states[1], events[1], states[2]);
    assert Step(states[2], events[2], states[3]);
    RivalWins(states[2], events[2], states[3]);
    assert Step(states[3], events[3], states[4]);
    ChangeOnly(states[3], events[3], states[4]);
  }

  /** Parent and child are stored unconfirmed and the child spent the coin. */
  ghost predicate Family(s: Tables) {
    && HoldsOurs(s.adrs) && s.txns.Keys == {Txid(1), Txid(2)} && s.txids == map[Txid(1) := 0, Txid(2) := 0]
    && s.txns[Txid(1)].tx == PARENT && s.txns[Txid(1)].height == 0
    && s.txns[Txid(2)].tx == SPENDER && s.txns[Txid(2)].height == 0
    && COIN in s.stxos && s.stxos[COIN].spendTxid == Txid(2)
  }

  lemma SpentForChange(s: Tables, event: Event, e: Tables)
    requires InOrder(s) && ParentOnly(s, 0) && Adds(event, SPENDER, 0) && Step(s, event, e)
    ensures InOrder(e) && Family(e)
  {
    hide InOrder, Sound, Tidy, Step, Sane, RankedTx, Processed, SettledFrom, Conflicts, ParentOnly, Family;
    SpendingIsTidy(s, event, SPENDER);
    SmallValues(SPENDER);
    OrderIsSound(s);
    TidyStep(s, event, e);
    var relevant := PlainAdd(s, event, e, Number());
    SpenderPut(s, event, e, relevant);
  }

  lemma SpenderPut(s: Tables, event: Event, e: Tables, relevant: bool)
    requires ParentOnly(s, 0) && Adds(event, SPENDER, 0)
    requires SettledFrom(s, SPENDER, 0, e, relevant) && e.adrs == if relevant then event.keyAdrs else s.adrs
    ensures Family(e)
  {
    hide NetValue, RowSettled, Own, NewUtxo;
    assert IsDebit(s, SPENDER, COIN);
    assert relevant;
    assert COIN in e.stxos && e.stxos[COIN].spendTxid == Txid(2);
    hide OutputsSettled;
    SpenderRow(s, e);
  }

  lemma SpenderRow(s: Tables, e: Tables)
    requires ParentOnly(s, 0) && RowSettled(s, SPENDER, 0, e)
    ensures e.txns.Keys == {Txid(1), Txid(2)} && e.txids == map[Txid(1) := 0, Txid(2) := 0]
    ensures e.txns[Txid(1)].tx == PARENT && e.txns[Txid(1)].height == 0
    ensures e.txns[Txid(2)].tx == SPENDER && e.txns[Txid(2)].height == 0
  {
    hide NetValue;
    assert e.txns.Keys == {Txid(1)} + {Txid(2)};
  }

  /** Parent and child are dead, and nothing else is live but the rival. */
  ghost predicate BothDead(s: Tables) {
    && HoldsOurs(s.adrs) && Txid(1) in s.txns && s.txns[Txid(1)].tx == PARENT && s.txns[Txid(1)].height == -1
    && Txid(2) in s.txns && s.txns[Txid(2)].tx == SPENDER && s.txns[Txid(2)].height == -1
    && Txid(2) in s.txids && s.txids[Txid(2)] <= 0
    && forall t :: Live(s, t) ==> s.txns[t].tx == RIVAL
  }

  lemma RivalIsTidy(s: Tables, event: Event)
    requires Family(s) && Adds(event, RIVAL, 9)
    ensures Processed(s, event) && Txid(1) in Conflicts(s, RIVAL) && Tidy(s, event, Number())
  {
    SmallValues(RIVAL);
    PaidAlike(RIVAL, event.keyAdrs, s.adrs);
    AllPaidAlike(s.txns, event.keyAdrs, s.adrs);
    assert OutPoint(Txid(0), 0) in PARENT.ins && OutPoint(Txid(0), 0) in RIVAL.ins;
    assert Shares(PARENT, RIVAL);
    hide Sane, RankedTx, PaysAlike, AllPayAlike, Moves, HoldsOurs, IsCredit, LivesOn, Shares;
    assert OwnIns(s, RIVAL) == {};
    assert NoStoredChild(s, RIVAL) by { NotSpentHere(s); }
  }

  /** Nothing stored spends from the rival. */
  lemma NotSpentHere(s: Tables)
    requires Family(s)
    ensures NoStoredChild(s, RIVAL)
  {
  }

  lemma RivalWins(s: Tables, event: Event, e: Tables)
    requires InOrder(s) && Family(s) && Adds(event, RIVAL, 9) && Step(s, event, e)
    ensures InOrder(e) && BothDead(e)
  {
    hide InOrder, Sound, Tidy, Step, Sane, RankedTx, Processed, SettledFrom, Conflicts, Family, BothDead, Priced,
         WithoutConflicts, Kill, FamilyDead, Settled, Pick, Relevant, Descendants;
    SmallValues(RIVAL);
    RivalIsTidy(s, event);
    OrderIsSound(s);
    var k := WithoutConflicts(s, RIVAL);
    FamilyGone(s);
    TidyStep(s, event, e);
    var pick := SoundAdd(s, event, e, Number());
    RivalPut(k, event, e, Relevant(k, RIVAL, 9, pick));
  }

  /** Both undone, with the tables otherwise as they were. */
  ghost predicate FamilyDead(k: Tables) {
    && HoldsOurs(k.adrs) && k.txns.Keys == {Txid(1), Txid(2)} && k.txids == map[Txid(1) := 0, Txid(2) := 0]
    && k.txns[Txid(1)].tx == PARENT && k.txns[Txid(1)].height == -1
    && k.txns[Txid(2)].tx == SPENDER && k.txns[Txid(2)].height == -1
  }

  lemma FamilyDies(s: Tables, d: set<Txid>)
    requires Family(s) && Txid(1) in d && Closed(s.stxos, d)
    ensures FamilyDead(Kill(s, d))
  {
    assert s.stxos[COIN].spendTxid in d;
    hide KilledUtxos, KilledStxos;
  }

  lemma FamilyGone(s: Tables)
    requires Family(s) && Txid(1) in Conflicts(s, RIVAL)
    ensures FamilyDead(WithoutConflicts(s, RIVAL))
  {
    hide Conflicts, Kill, Family, FamilyDead;
    FamilyDies(s, Descendants(s.stxos, Conflicts(s, RIVAL)));
  }

  lemma RivalPut(k: Tables, event: Event, e: Tables, relevant: bool)
    requires FamilyDead(k) && Adds(event, RIVAL, 9)
    requires SettledFrom(k, RIVAL, 9, e, relevant) && e.adrs == if relevant then event.keyAdrs else k.adrs
    ensures BothDead(e)
  {
    hide NetValue, OutputsSettled, IsDebit, IsCredit;
    assert e.txns[Txid(2)] == k.txns[Txid(2)] && e.txns[Txid(1)] == k.txns[Txid(1)];
  }

  lemma ChangeOnly(s: Tables, event: Event, e: Tables)
    requires InOrder(s) && BothDead(s) && Adds(event, SPENDER, 9) && Step(s, event, e)
    ensures Live(e, SPENDER.id) && CHANGE in e.utxos && !Balanced(e)
  {
    SmallValues(SPENDER);
    SpenderAlone(s, event);
    NoParentBack(s);
    OrderIsSound(s);
    hide InOrder, Sound, Priced, Step, Sane, RankedTx, Processed, SettledFrom, Conflicts, Balanced, ParentsBack,
         Touches, Live, EvenTrade;
    DeadReAddExact(s, event, e, Number());
    var relevant := PlainAdd(s, event, e, Number());
    ChangeBack(s, e, relevant);
  }

  lemma SpenderAlone(s: Tables, event: Event)
    requires BothDead(s) && Adds(event, SPENDER, 9) && Sane(SPENDER)
    ensures Conflicts(s, SPENDER) == {} && Processed(s, event) && !Live(s, SPENDER.id)
  {
    hide Sane;
    assert !Shares(RIVAL, SPENDER);
    assert forall t :: Live(s, t) ==> !Shares(s.txns[t].tx, SPENDER);
    hide Shares;
    assert forall t :: t in Conflicts(s, SPENDER) ==> Live(s, t);
  }

  /** The change is ours, and the coin was: its transaction is dead. */
  lemma NoParentBack(s: Tables)
    requires BothDead(s)
    ensures !ParentsBack(s, SPENDER) && Touches(s, SPENDER)
  {
    assert IsCredit(SPENDER, s.adrs, CHANGE);
    assert IsCredit(PARENT, s.adrs, COIN);
    assert COIN in OwnIns(s, SPENDER) && OutValue(s.txns, COIN) == 5;
  }

  lemma ChangeBack(s: Tables, e: Tables, relevant: bool)
    requires BothDead(s) && SettledFrom(s, SPENDER, 9, e, relevant)
    ensures Live(e, SPENDER.id) && CHANGE in e.utxos
  {
    assert IsCredit(SPENDER, s.adrs, CHANGE);
    hide NetValue, Heights;
  }

  // ---------------------------------------------------------------------------
  // A script becomes own after its transaction was stored
  // ---------------------------------------------------------------------------

  ghost predicate AddsLate(event: Event, height: int) {
    Adds(event, PAYS_BOTH, height) && LATER in event.keyAdrs
  }

  /** The transaction is stored with the value of one output; when it confirms, the key of the other is in the store
      too and the coin is listed, but the stored value stays. */
  lemma LateScriptLosesBalance(states: seq<Tables>, events: seq<Event>)
    requires Run(states, events) && HoldsOurs(states[0].adrs) && LATER !in states[0].adrs && |events| == 2
    requires AddsLate(events[0], 0) && AddsLate(events[1], 9)
    ensures Balanced(states[1]) && !Balanced(states[2])
    ensures LATE_COIN in states[2].utxos && !CreditedBefore(states[1], events[1])
  {
    hide Sound, Balanced, Step, LateStored, CreditedBefore, AddsLate;
    assert Step(states[0], events[0], states[1]);
    LateFirst(states[0], events[0], states[1]);
    assert Step(states[1], events[1], states[2]);
    LateAgain(states[1], events[1], states[2]);
  }

  ghost predicate LateStored(s: Tables) {
    && HoldsOurs(s.adrs) && LATER in s.adrs && LATE_COIN !in s.utxos && LATE_COIN !in s.stxos
    && Live(s, Txid(1)) && s.txns[Txid(1)].tx == PAYS_BOTH && Txid(1) in s.txids && s.txids[Txid(1)] == 0
  }

  lemma BothIsSane()
    ensures Sane(PAYS_BOTH) && RankedTx(PAYS_BOTH, Number())
  {
    assert TotalOut(PAYS_BOTH.outs[..1][..0]) == 0;
    assert TotalOut(PAYS_BOTH.outs[..1]) == 5;
    assert PAYS_BOTH.outs[..2] == PAYS_BOTH.outs;
  }

  lemma LateFirst(s: Tables, event: Event, e: Tables)
    requires s == Empty(s.adrs, s.keepsFrozen) && HoldsOurs(s.adrs) && LATER !in s.adrs
    requires AddsLate(event, 0) && Step(s, event, e)
    ensures Sound(e, Number()) && Balanced(e) && LateStored(e)
  {
    BothIsSane();
    EmptyIsSound(s.adrs, s.keepsFrozen, Number());
    LateIsOrderly(s, event);
    hide Sound, Balanced, Step, Sane, RankedTx, Processed, SettledFrom, Conflicts, LateStored, Orderly, CreditedBefore;
    StepKeepsSound(s, event, e, Number());
    SoundIsBalanced(e, Number());
    var relevant := PlainAdd(s, event, e, Number());
    LatePut(s, event, e, relevant);
  }

  lemma LateIsOrderly(s: Tables, event: Event)
    requires s == Empty(s.adrs, s.keepsFrozen) && AddsLate(event, 0)
    requires Sane(PAYS_BOTH) && RankedTx(PAYS_BOTH, Number())
    ensures Processed(s, event) && Conflicts(s, PAYS_BOTH) == {}
    ensures Orderly(s, event, Number()) && CreditedBefore(s, event)
  {
    hide Sane, RankedTx, Moves;
  }

  lemma LatePut(s: Tables, event: Event, e: Tables, relevant: bool)
    requires s == Empty(s.adrs, s.keepsFrozen) && HoldsOurs(s.adrs) && LATER !in s.adrs && AddsLate(event, 0)
    requires SettledFrom(s, PAYS_BOTH, 0, e, relevant) && e.adrs == if relevant then event.keyAdrs else s.adrs
    ensures LateStored(e)
  {
    hide NetValue;
    assert IsCredit(PAYS_BOTH, s.adrs, COIN) && !IsCredit(PAYS_BOTH, s.adrs, LATE_COIN);
  }

  lemma LateAgain(s: Tables, event: Event, e: Tables)
    requires Sound(s, Number()) && LateStored(s) && AddsLate(event, 9) && Step(s, event, e)
    ensures !Balanced(e) && LATE_COIN in e.utxos && !CreditedBefore(s, event)
  {
    BothIsSane();
    assert IsCredit(PAYS_BOTH, s.adrs, LATE_COIN);
    assert !OwnStillUnspent(s, PAYS_BOTH);
    hide Sound, Step, Sane, RankedTx, SettledFrom, Conflicts, Balanced, OwnStillUnspent;
    SoundLive(s, PAYS_BOTH, Number());
    assert Processed(s, event);
    var relevant := PlainAdd(s, event, e, Number());
    LateBack(s, e, relevant);
    LiveReAddExact(s, event, e, Number());
  }

  lemma LateBack(s: Tables, e: Tables, relevant: bool)
    requires LateStored(s) && SettledFrom(s, PAYS_BOTH, 9, e, relevant)
    ensures LATE_COIN in e.utxos
  {
    hide RowSettled;
    assert IsCredit(PAYS_BOTH, s.adrs, LATE_COIN);
  }

  // ---------------------------------------------------------------------------
  // A confirmed transaction is lost to a stale cache
  // ---------------------------------------------------------------------------

  /** The rival pays nobody we know, so nothing is stored when the parent dies; the parent's coming back is ignored. */
  lemma StaleCacheMissesParent(states: seq<Tables>, events: seq<Event>)
    requires Run(states, events) && HoldsOurs(states[0].adrs) && |events| == 3
    requires Adds(events[0], PARENT, 5) && Adds(events[1], RIVAL, 9) && Adds(events[2], PARENT, 10)
    ensures Live(states[1], PARENT.id)
    ensures states[3] == states[2] && PARENT.id in states[3].txns && !Live(states[3], PARENT.id)
  {
    hide InOrder, Step;
    assert Step(states[0], events[0], states[1]);
    PaidOnce(states[0], events[0], states[1], 5);
    assert Step(states[1], events[1], states[2]);
    assert Step(states[2], events[2], states[3]);
    SmallValues(RIVAL);
    RivalMovesNothing(states[1], events[1]);
    OrderIsSound(states[1]);
    ExactlyKilled(states[1], Number());
    ConflictIsLive(states[1], RIVAL, Txid(1));
    hide Exact, Sane, Moves, Conflicts, WithoutConflicts, Sound, Priced, Descendants;
    DeadIsMissed(states[1], events[1], states[2], Txid(1), events[2], states[3]);
    KeptRow(states[1], events[1], states[2]);
  }

  lemma RivalMovesNothing(s: Tables, event: Event)
    requires InOrder(s) && ParentOnly(s, 5) && Adds(event, RIVAL, 9) && Sane(RIVAL)
    ensures Processed(s, event) && Txid(1) in Conflicts(s, RIVAL) && CacheExact(s)
    ensures !Moves(WithoutConflicts(s, RIVAL), RIVAL, 9)
  {
    RivalConflicts(s, event);
    OrderIsSound(s);
    KilledRows(s, Descendants(s.stxos, Conflicts(s, RIVAL)));
    hide Sane, InOrder, Priced, Conflicts, Kill, ParentOnly, ValuesExplained, UnspentIsUnspent, NoLiveConflicts,
         RowsTrue;
    NothingOfRival(s, WithoutConflicts(s, RIVAL));
  }

  lemma RivalConflicts(s: Tables, event: Event)
    requires ParentOnly(s, 5) && Adds(event, RIVAL, 9) && Sane(RIVAL)
    ensures Processed(s, event) && Txid(1) in Conflicts(s, RIVAL) && CacheExact(s)
    ensures Txid(0) !in s.txns && Txid(3) !in s.txns && HoldsOurs(s.adrs)
  {
    hide Sane;
    assert OutPoint(Txid(0), 0) in PARENT.ins && OutPoint(Txid(0), 0) in RIVAL.ins;
    assert Shares(PARENT, RIVAL);
  }

  lemma NothingOfRival(s: Tables, k: Tables)
    requires ParentsLive(s) && SpendersLive(s) && Txid(0) !in s.txns && Txid(3) !in s.txns
    requires HoldsOurs(k.adrs) && Held(k) <= Held(s)
             && (forall op :: op in k.stxos ==> op in s.stxos && k.stxos[op] == s.stxos[op])
    ensures !Moves(k, RIVAL, 9)
  {
    assert OutPoint(Txid(0), 0) !in Held(s);
    assert forall op :: op in RIVAL.ins ==> op == OutPoint(Txid(0), 0);
    hide ParentsLive;
  }

  /** Undoing and settling forget no row. */
  lemma KeptRow(s: Tables, event: Event, e: Tables)
    requires event.Add? && Step(s, event, e)
    ensures s.txns.Keys <= e.txns.Keys
  {
    hide Settled, Pick, Debited, Credited, Exact, Descendants, Conflicts, Step;
    var k, pick := Process(s, event, e);
    if Processed(s, event) {
      hide Relevant, NetValue;
      SettledFields(k, event.tx, event.height, pick, event.keyAdrs);
    }
  }

  // ---------------------------------------------------------------------------
  // Two coinbase transactions
  // ---------------------------------------------------------------------------

  const FIRST: Tx := Tx(Txid(1), [NULL_OUTPOINT], [TxOut(5, OURS)], true)
  const SECOND: Tx := Tx(Txid(2), [NULL_OUTPOINT], [TxOut(5, OURS)], true)

  /** The second confirmed coinbase undoes the first. */
  lemma SecondCoinbaseUndoesFirst(states: seq<Tables>, events: seq<Event>)
    requires Run(states, events) && HoldsOurs(states[0].adrs) && |events| == 2
    requires Adds(events[0], FIRST, 5) && Adds(events[1], SECOND, 9)
    ensures Live(states[1], FIRST.id) && !Live(states[2], FIRST.id)
  {
    hide Step, Consistent, Sane, HoldsOurs;
    assert Step(states[0], events[0], states[1]);
    FirstMined(states[0], events[0], states[1]);
    assert Step(states[1], events[1], states[2]);
    SmallValues(SECOND);
    assert Processed(states[1], events[1]) by { hide Conflicts; NotKnown(states[1], events[1]); }
    hide Conflicts;
    CoinbaseUndoesCoinbase(states[1], events[1], states[2], FIRST.id);
  }

  lemma FirstMined(s: Tables, event: Event, e: Tables)
    requires s == Empty(s.adrs, s.keepsFrozen) && HoldsOurs(s.adrs) && Adds(event, FIRST, 5) && Step(s, event, e)
    ensures Consistent(e) && Live(e, FIRST.id) && e.txns[FIRST.id].tx == FIRST && SECOND.id !in e.txids
  {
    SmallValues(FIRST);
    StartsInOrder(s.adrs, s.keepsFrozen);
    FirstIsTidy(s, event, FIRST);
    OrderIsSound(s);
    hide InOrder, Sound, Tidy, Step, Sane, RankedTx, Processed, SettledFrom, Conflicts;
    TidyStep(s, event, e);
    assert Consistent(e) by { OrderIsSound(e); SoundIsConsistent(e, Number()); }
    var relevant := PlainAdd(s, event, e, Number());
    FirstPut(s, e, relevant);
  }

  lemma FirstPut(s: Tables, e: Tables, relevant: bool)
    requires s == Empty(s.adrs, s.keepsFrozen) && HoldsOurs(s.adrs) && SettledFrom(s, FIRST, 5, e, relevant)
    ensures Live(e, FIRST.id) && e.txns[FIRST.id].tx == FIRST && SECOND.id !in e.txids
  {
    hide NetValue;
    assert IsCredit(FIRST, s.adrs, OutPoint(Txid(1), 0));
  }

  lemma NotKnown(s: Tables, event: Event)
    requires Adds(event, SECOND, 9) && Sane(SECOND) && SECOND.id !in s.txids
    ensures Processed(s, event)
  {
  }
}
