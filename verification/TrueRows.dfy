/** Over tidy runs every row shows its output as the stored transactions have it, and so does the balance report. */
module TrueRows {
  import opened Adding
  import opened Conservation
  import opened Disjointness
  import opened ExactAdding
  import opened Ledger
  import opened LedgerRuns
  import opened Options
  import opened Overlap
  import opened Pricing
  import opened RowContents
  import opened Wallets

  /** The row shows the output of the stored transaction, at the height that is stored for it. */
  ghost predicate ShowsOutput(s: Tables, op: OutPoint, u: Utxo) {
    && op.hash in s.txns && op.index < |s.txns[op.hash].tx.outs|
    && u.op == op && u.atHeight == s.txns[op.hash].height
    && u.script == s.txns[op.hash].tx.outs[op.index].script
  }

  ghost predicate OutputsTrue(s: Tables) {
    && (forall op :: op in s.utxos ==> ShowsOutput(s, op, s.utxos[op]))
    && (forall op :: op in s.stxos ==> ShowsOutput(s, op, s.stxos[op].utxo))
  }

  /** A spend shows the height of its transaction or none, and one of them shows it where there is one. */
  ghost predicate SpendsTrue(s: Tables) {
    && (forall op :: op in s.stxos ==> SpendTrue(s, op))
    && (forall t :: t in s.txns && s.txns[t].height > 0 && (exists op :: SpendOf(s, t, op)) ==>
         exists op :: SpendOf(s, t, op) && s.stxos[op].spendHeight == s.txns[t].height)
  }

  ghost predicate SpendTrue(s: Tables, op: OutPoint)
    requires op in s.stxos
  {
    && s.stxos[op].spendTxid in s.txns
    && (s.stxos[op].spendHeight == 0 || s.stxos[op].spendHeight == s.txns[s.stxos[op].spendTxid].height)
  }

  ghost predicate TrueAll(s: Tables) {
    OutputsTrue(s) && SpendsTrue(s) && CacheAgrees(s)
  }

  // ---------------------------------------------------------------------------
  // Undoing and settling
  // ---------------------------------------------------------------------------

  lemma KillKeepsOutputs(s: Tables, d: set<Txid>)
    requires OutputsTrue(s) && Closed(s.stxos, d)
    ensures OutputsTrue(Kill(s, d))
  {
    var k := Kill(s, d);
    forall op | op in k.utxos ensures ShowsOutput(k, op, k.utxos[op]) {
      KilledOutput(s, d, op);
      assert op.hash !in d;
    }
    forall op | op in k.stxos ensures ShowsOutput(k, op, k.stxos[op].utxo) {
      assert op.hash !in d;
    }
  }

  lemma KillKeepsSpends(s: Tables, d: set<Txid>)
    requires SpendsTrue(s)
    ensures SpendsTrue(Kill(s, d))
  {
    var k := Kill(s, d);
    forall op | op in k.stxos ensures SpendTrue(k, op) { assert SpendTrue(s, op); }
    forall t, op | t in k.txns && k.txns[t].height > 0 && SpendOf(k, t, op)
      ensures exists p :: SpendOf(k, t, p) && k.stxos[p].spendHeight == k.txns[t].height
    {
      assert SpendOf(s, t, op);
      var p :| SpendOf(s, t, p) && s.stxos[p].spendHeight == s.txns[t].height;
      assert SpendOf(k, t, p);
    }
  }

  lemma KillKeepsTrue(s: Tables, d: set<Txid>)
    requires TrueAll(s) && Closed(s.stxos, d)
    ensures TrueAll(Kill(s, d))
  {
    hide Kill, OutputsTrue, SpendsTrue, CacheAgrees, Closed;
    KillKeepsOutputs(s, d);
    KillKeepsSpends(s, d);
    KillKeepsCache(s, d);
  }

  /** What settling tx needs for the rows to stay true. */
  ghost predicate RowReady(k: Tables, tx: Tx) {
    && SpendsOthers(tx) && k.utxos.Keys !! k.stxos.Keys
    && (tx.id in k.txns ==> k.txns[tx.id].tx == tx && k.txns[tx.id].height <= 0)
    && (forall op :: op in Held(k) && op.hash == tx.id ==> IsCredit(tx, k.adrs, op) && op in k.utxos)
  }

  lemma SettledOutputsTrue(k: Tables, tx: Tx, height: int, e: Tables)
    requires OutputsTrue(k) && RowReady(k, tx) && OutputsSettled(k, tx, height, e) && RowSettled(k, tx, height, e)
    ensures OutputsTrue(e)
  {
    hide NetValue, Heights;
    forall op | op in e.utxos ensures ShowsOutput(e, op, e.utxos[op]) {
      SettledOutput(k, tx, height, e, op);
      if !IsCredit(tx, k.adrs, op) {
        assert ShowsOutput(k, op, k.utxos[op]) && op in Held(k);
      }
    }
    forall op | op in e.stxos ensures ShowsOutput(e, op, e.stxos[op].utxo) {
      SettledSpentOutput(k, tx, height, e, op);
    }
  }

  lemma SettledSpentOutput(k: Tables, tx: Tx, height: int, e: Tables, op: OutPoint)
    requires OutputsTrue(k) && RowReady(k, tx) && OutputsSettled(k, tx, height, e) && RowSettled(k, tx, height, e)
    requires op in e.stxos
    ensures ShowsOutput(e, op, e.stxos[op].utxo)
  {
    hide NetValue, Heights, IsCredit, NewUtxo;
    if IsDebit(k, tx, op) {
      assert ShowsOutput(k, op, k.utxos[op]);
    } else {
      assert ShowsOutput(k, op, k.stxos[op].utxo) && op in Held(k);
    }
  }

  lemma SettledSpendsTrue(k: Tables, tx: Tx, height: int, pick: Option<OutPoint>, e: Tables)
    requires SpendsTrue(k) && RowReady(k, tx) && RowSettled(k, tx, height, e)
    requires SpendsSettled(k, tx, height, pick, e)
    requires !Live(k, tx.id) ==> forall op :: !SpendOf(k, tx.id, op)
    requires height >= 0
    ensures SpendsTrue(e)
  {
    hide NetValue, Heights;
    forall op | op in e.stxos ensures SpendTrue(e, op) {
      if SpendOf(k, tx.id, op) {
        assert SpendTrue(k, op) && Live(k, tx.id) && k.txns[tx.id].height == 0;
      } else if !SpendOf(e, tx.id, op) {
        assert SpendTrue(k, op);
      }
    }
    forall t, op | t in e.txns && e.txns[t].height > 0 && SpendOf(e, t, op)
      ensures exists p :: SpendOf(e, t, p) && e.stxos[p].spendHeight == e.txns[t].height
    {
      SpendShown(k, tx, height, pick, e, t, op);
    }
  }

  lemma SpendShown(k: Tables, tx: Tx, height: int, pick: Option<OutPoint>, e: Tables, t: Txid, op: OutPoint)
    requires SpendsTrue(k) && RowReady(k, tx) && RowSettled(k, tx, height, e)
    requires SpendsSettled(k, tx, height, pick, e) && SpendOf(e, t, op) && t in e.txns && e.txns[t].height > 0
    ensures exists p :: SpendOf(e, t, p) && e.stxos[p].spendHeight == e.txns[t].height
  {
    hide NetValue, Heights;
    if t == tx.id {
      assert pick.Some?;
    } else {
      assert SpendOf(k, t, op);
      var p :| SpendOf(k, t, p) && k.stxos[p].spendHeight == k.txns[t].height;
      assert SpendOf(e, t, p);
    }
  }

  // ---------------------------------------------------------------------------
  // Runs
  // ---------------------------------------------------------------------------

  lemma ReadyRows(k: Tables, tx: Tx, rank: Txid -> nat)
    requires Sound(k, rank) && Priced(k) && PriceReady(k, tx) && (tx.id in k.txns ==> k.txns[tx.id].height <= 0)
    requires Live(k, tx.id) ==> forall op :: IsCredit(tx, k.adrs, op) ==> op in k.utxos
    ensures RowReady(k, tx)
    ensures !Live(k, tx.id) ==> forall op :: !SpendOf(k, tx.id, op)
  {
    assert ParentsLive(k) && SpendersLive(k) && HeldOwn(k);
    hide Sound, Priced, IsCredit, OwnIns, DebitSet, OutsSane, NoStoredChild, Distinct;
    forall op | op in Held(k) && op.hash == tx.id ensures IsCredit(tx, k.adrs, op) && op in k.utxos {
      assert Live(k, tx.id);
    }
    assert k.utxos.Keys !! k.stxos.Keys by { Parts(k, rank); }
  }

  /** A row that a call may change is not confirmed: a live confirmed one is known, a dead one is below 0. */
  lemma NotConfirmed(s: Tables, event: Event)
    requires Processed(s, event) && CacheAgrees(s)
    ensures var k := WithoutConflicts(s, event.tx); event.tx.id in k.txns ==> k.txns[event.tx.id].height <= 0
  {
    hide Sane, Conflicts, KilledUtxos, KilledStxos, Descendants;
  }

  lemma LiveCredits(s: Tables, event: Event, rank: Txid -> nat)
    requires Touching(s, event) && Sound(s, rank) && Tidy(s, event, rank)
    ensures var k := WithoutConflicts(s, event.tx);
            Live(k, event.tx.id) ==> forall op :: IsCredit(event.tx, k.adrs, op) ==> op in k.utxos
  {
    hide Sound, IsCredit, Moves, AllPayAlike, PaysAlike, Ignored, OwnIns;
    if Live(s, event.tx.id) {
      SoundLive(s, event.tx, rank);
      NothingToClear(s, event.tx);
    }
  }

  lemma IrrelevantIsSame(k: Tables, tx: Tx, height: int, pick: Option<OutPoint>, keyAdrs: seq<Script>)
    requires SpendsOthers(tx) && Pick(Debited(Credited(k, tx, height), tx, height), tx.id, height, pick)
    requires !Relevant(k, tx, height, pick)
    ensures Settled(k, tx, height, pick, keyAdrs) == k
  {
    assert Credits(tx, k.adrs, height, |tx.outs|) == map[];
    assert k.utxos + map[] == k.utxos;
    assert Credited(k, tx, height) == k;
    assert Spent(k.utxos, tx.ins) == {};
    assert Debits(k, tx.ins, height, tx.id) == map[];
    assert k.stxos + map[] == k.stxos && k.utxos - {} == k.utxos;
  }

  lemma SettleKeepsTrue(k: Tables, tx: Tx, height: int, pick: Option<OutPoint>, keyAdrs: seq<Script>)
    requires TrueAll(k) && RowReady(k, tx) && height >= 0
    requires !Live(k, tx.id) ==> forall op :: !SpendOf(k, tx.id, op)
    requires Pick(Debited(Credited(k, tx, height), tx, height), tx.id, height, pick)
    ensures TrueAll(Settled(k, tx, height, pick, keyAdrs))
  {
    assert SpendsOthers(tx) && Disjoint(k);
    var e := Settled(k, tx, height, pick, keyAdrs);
    hide Settled, Credited, Debited, Relevant, OutputsTrue, SpendsTrue, CacheAgrees, RowReady, OutputsSettled,
         RowSettled, SpendsSettled, Pick, SpendsOthers, Disjoint, Live;
    if Relevant(k, tx, height, pick) {
      SettledShape(k, tx, height, pick, keyAdrs);
      SpendsAreSettled(k, tx, height, pick, keyAdrs);
      SettledOutputsTrue(k, tx, height, e);
      SettledSpendsTrue(k, tx, height, pick, e);
      CacheSettled(k, tx, height, e, true);
    } else {
      IrrelevantIsSame(k, tx, height, pick, keyAdrs);
    }
  }

  lemma AddKeepsTrue(s: Tables, event: Event, e: Tables, rank: Txid -> nat)
    requires Touching(s, event) && Sound(s, rank) && Priced(s) && Tidy(s, event, rank) && TrueAll(s)
    requires Step(s, event, e)
    ensures TrueAll(e)
  {
    var tx, k := event.tx, WithoutConflicts(s, event.tx);
    var d := Descendants(s.stxos, Conflicts(s, tx));
    assert Processed(s, event) && RankedTx(tx, rank) && event.height >= 0 && k == Kill(s, d);
    hide Kill, Sound, Priced, PriceReady, OutputsTrue, SpendsTrue, CacheAgrees, RowReady, Conflicts, Descendants,
         Settled, Pick, Relevant, SettledFrom, Moves, Processed, Live, IsCredit, Step, Tidy, WithoutConflicts, RankedTx;
    TidyIsReady(s, event, rank);
    LiveCredits(s, event, rank);
    KillKeepsTrue(s, d);
    NotConfirmed(s, event);
    ReadyRows(k, tx, rank);
    var pick := SoundAdd(s, event, e, rank);
    SettleKeepsTrue(k, tx, event.height, pick, event.keyAdrs);
  }

  lemma UntouchedKeepsTrue(s: Tables, event: Event, e: Tables, rank: Txid -> nat)
    requires Processed(s, event) && !Touching(s, event) && Sound(s, rank) && RankedTx(event.tx, rank) && TrueAll(s)
    requires Step(s, event, e)
    ensures TrueAll(e)
  {
    var tx, k := event.tx, WithoutConflicts(s, event.tx);
    var d := Descendants(s.stxos, Conflicts(s, tx));
    assert k == Kill(s, d) && !Moves(k, tx, event.height);
    assert SpendsOthers(tx);
    hide Kill, Sound, OutputsTrue, SpendsTrue, CacheAgrees, Conflicts, Descendants, Settled, Pick, Relevant,
         SettledFrom, Moves, Processed, Step, WithoutConflicts, RankedTx;
    KillKeepsTrue(s, d);
    var pick := SoundAdd(s, event, e, rank);
    RelevantIffMoves(k, tx, event.height, pick);
    IrrelevantIsSame(k, tx, event.height, pick, event.keyAdrs);
  }

  /** Frozen marks and the cache aside, the same tables. */
  lemma SameOutputsTrue(s: Tables, e: Tables)
    requires OutputsTrue(s) && e.txns == s.txns && e.stxos == s.stxos && e.utxos.Keys == s.utxos.Keys
    requires forall p :: p in e.utxos ==> e.utxos[p] == s.utxos[p].(frozen := e.utxos[p].frozen)
    ensures OutputsTrue(e)
  {
    forall p | p in e.utxos ensures ShowsOutput(e, p, e.utxos[p]) { assert ShowsOutput(s, p, s.utxos[p]); }
    forall p | p in e.stxos ensures ShowsOutput(e, p, e.stxos[p].utxo) { assert ShowsOutput(s, p, s.stxos[p].utxo); }
  }

  lemma SameSpendsTrue(s: Tables, e: Tables)
    requires SpendsTrue(s) && e.txns == s.txns && e.stxos == s.stxos
    ensures SpendsTrue(e)
  {
    forall p | p in e.stxos ensures SpendTrue(e, p) { assert SpendTrue(s, p); }
    hide SpendTrue;
    forall t, p | t in e.txns && e.txns[t].height > 0 && SpendOf(e, t, p)
      ensures exists q :: SpendOf(e, t, q) && e.stxos[q].spendHeight == e.txns[t].height
    {
      assert SpendOf(s, t, p);
      var q :| SpendOf(s, t, q) && s.stxos[q].spendHeight == s.txns[t].height;
      assert SpendOf(e, t, q);
    }
  }

  lemma FreezeKeepsTrue(s: Tables, op: OutPoint, frozen: bool)
    requires TrueAll(s)
    ensures TrueAll(SetFrozen(s, op, frozen))
  {
    hide OutputsTrue, SpendsTrue;
    SameOutputsTrue(s, SetFrozen(s, op, frozen));
    SameSpendsTrue(s, SetFrozen(s, op, frozen));
  }

  lemma RestartKeepsTrue(s: Tables, keyAdrs: seq<Script>)
    requires TrueAll(s)
    ensures TrueAll(Reopened(s, keyAdrs))
  {
    hide OutputsTrue, SpendsTrue;
    SameOutputsTrue(s, Reopened(s, keyAdrs));
    SameSpendsTrue(s, Reopened(s, keyAdrs));
  }

  lemma StepKeepsTrue(s: Tables, event: Event, e: Tables, rank: Txid -> nat)
    requires Sound(s, rank) && Priced(s) && Tidy(s, event, rank) && TrueAll(s) && Step(s, event, e)
    ensures TrueAll(e)
  {
    assert Processed(s, event) ==> RankedTx(event.tx, rank);
    hide Sound, Priced, Tidy, TrueAll, RankedTx, Touching;
    if Touching(s, event) {
      AddKeepsTrue(s, event, e, rank);
    } else if Processed(s, event) {
      UntouchedKeepsTrue(s, event, e, rank);
    } else {
      OtherStepsKeepTrue(s, event, e);
    }
  }

  lemma OtherStepsKeepTrue(s: Tables, event: Event, e: Tables)
    requires !Processed(s, event) && TrueAll(s) && Step(s, event, e)
    ensures TrueAll(e)
  {
    hide TrueAll, Ignored, SetFrozen, Reopened;
    match event
    case Add(_, _, _) =>
      var _, _ := Process(s, event, e);
    case Freeze(op) => FreezeKeepsTrue(s, op, true);
    case UnFreeze(op) => FreezeKeepsTrue(s, op, false);
    case Restart(keyAdrs) => RestartKeepsTrue(s, keyAdrs);
  }

  lemma EmptyIsTrue(adrs: seq<Script>, keepsFrozen: bool)
    ensures TrueAll(Empty(adrs, keepsFrozen))
  {
  }

  /** Over every tidy run each output, spent or not, is listed with the script and at the height of its stored
      transaction, and each confirmed transaction that spends from the wallet is recorded with its height. */
  lemma {:induction false} RowsStayTrue(states: seq<Tables>, events: seq<Event>, rank: Txid -> nat)
    requires Run(states, events)
    requires forall i :: 0 <= i < |events| ==> Tidy(states[i], events[i], rank)
    ensures TrueAll(states[|events|])
    decreases |events|
  {
    hide Sound, Tidy, Balanced, Step, Priced, TrueAll;
    if events == [] {
      var adrs, keepsFrozen :| states[0] == Empty(adrs, keepsFrozen);
      EmptyIsTrue(adrs, keepsFrozen);
    } else {
      var n := |events| - 1;
      assert Run(states[..n + 1], events[..n]);
      RowsStayTrue(states[..n + 1], events[..n], rank);
      ConservedTidy(states[..n + 1], events[..n], rank);
      StepKeepsTrue(states[n], events[n], states[n + 1], rank);
    }
  }

  // ---------------------------------------------------------------------------
  // The balance report
  // ---------------------------------------------------------------------------

  /** The unspent outputs of confirmed transactions. */
  ghost function OfConfirmed(s: Tables): set<OutPoint> {
    set op | op in s.utxos && Confirmed(s, op.hash)
  }

  lemma CountedOne(s: Tables, counted: set<OutPoint>, op: OutPoint)
    requires OutputsTrue(s) && SpendsTrue(s) && RowsTrue(s)
    requires ConfirmedOps(s) <= counted <= Spendable(s)
    requires op in counted && op !in ConfirmedOps(s) ==> MadeByConfirmedSpend(s, op)
    ensures op in counted <==> op in OfConfirmed(s)
  {
    if op in s.utxos {
      assert ShowsOutput(s, op, s.utxos[op]) && TellsTruth(s, op, s.utxos[op]);
      forall x | x in s.stxos && s.stxos[x].spendTxid == op.hash && s.stxos[x].spendHeight > 0
        ensures Confirmed(s, op.hash)
      {
        assert SpendTrue(s, x);
      }
    }
  }

  /** However the database lists the spends, the outputs counted as confirmed are those of confirmed transactions. */
  lemma CountedIsConfirmed(s: Tables, order: seq<Stxo>, rank: Txid -> nat)
    requires Sound(s, rank) && TrueAll(s) && Lists(order, s.stxos, StxoKey())
    ensures CountedBy(s, order) == OfConfirmed(s)
  {
    assert Keyed(s) && RowsTrue(s) by { SoundAlone(s, rank); }
    hide Sound, RowsTrue, CacheAgrees, Keyed, Lists, CountedBy, Says, OfConfirmed, OutputsTrue, SpendsTrue,
         MadeByConfirmedSpend, Spendable, ConfirmedOps;
    CountedBounds(s, order);
    var counted := CountedBy(s, order);
    forall op ensures op in counted <==> op in OfConfirmed(s) {
      CountedOne(s, counted, op);
    }
  }

  lemma SoundAlone(s: Tables, rank: Txid -> nat)
    requires Sound(s, rank)
    ensures Keyed(s) && RowsTrue(s)
  {
    hide Keyed, RowsTrue;
  }
}
