/** The exact conditions under which adding a transaction keeps the balance. */
module ReAdding {
  import opened Adding
  import opened Conservation
  import opened Disjointness
  import opened ExactAdding
  import opened Ledger
  import opened LedgerRuns
  import opened Pricing
  import opened Sums

  // ---------------------------------------------------------------------------
  // Adding a live transaction again
  // ---------------------------------------------------------------------------

  /** Own outputs of tx that adding it again lists as unspent although they were not. */
  ghost function Revived(s: Tables, tx: Tx): set<OutPoint> {
    CreditSet(tx, s.adrs, |tx.outs|) - s.utxos.Keys
  }

  lemma LiveAgainUtxos(k: Tables, tx: Tx, height: int, e: Tables, rank: Txid -> nat)
    requires Sound(k, rank) && Live(k, tx.id) && k.txns[tx.id].tx == tx
    requires OutputsSettled(k, tx, height, e)
    ensures UtxoValue(e) == UtxoValue(k) + Worth(k.txns, Revived(k, tx))
  {
    var r := Revived(k, tx);
    AgainSpendable(k, tx, height, e);
    SumUnion(k.utxos.Keys, r, Amount(e));
    SumCong(k.utxos.Keys, Amount(e), Amount(k));
    SumCong(r, Amount(e), OutValues(k.txns));
  }

  lemma AgainSpendable(k: Tables, tx: Tx, height: int, e: Tables)
    requires RowsTrue(k) && UnspentIsUnspent(k) && Live(k, tx.id) && k.txns[tx.id].tx == tx
    requires OutputsSettled(k, tx, height, e)
    ensures Spendable(e) == k.utxos.Keys + Revived(k, tx) && Spendable(k) == k.utxos.Keys
    ensures forall op :: op in k.utxos ==> Amount(e)(op) == Amount(k)(op)
    ensures forall op :: op in Revived(k, tx) ==> Amount(e)(op) == OutValues(k.txns)(op)
  {
    forall op ensures IsCredit(tx, k.adrs, op) <==> op in CreditSet(tx, k.adrs, |tx.outs|) {
      if IsCredit(tx, k.adrs, op) { assert op == OutPoint(tx.id, op.index); }
    }
    forall op | op in tx.ins ensures op !in k.utxos {}
    forall op | op in k.utxos ensures TellsTruth(k, op, k.utxos[op]) {}
    forall op ensures op in Spendable(e) <==> op in k.utxos.Keys + Revived(k, tx) {}
  }

  lemma SameLiveValue(k: Tables, e: Tables)
    requires e.txns.Keys == k.txns.Keys
    requires forall t :: t in k.txns ==> e.txns[t].value == k.txns[t].value && (Live(e, t) <==> Live(k, t))
    ensures LiveValue(e) == LiveValue(k)
  {
    forall t ensures t in LiveTxids(e) <==> t in LiveTxids(k) {
      assert Live(e, t) <==> t in LiveTxids(e);
      assert Live(k, t) <==> t in LiveTxids(k);
    }
    assert LiveTxids(e) == LiveTxids(k);
    forall t | t in LiveTxids(k) ensures RowValue(e)(t) == RowValue(k)(t) { assert t in k.txns; }
    SumCong(LiveTxids(k), RowValue(e), RowValue(k));
  }

  /** All own outputs of tx that are worth anything are unspent. */
  ghost predicate OwnStillUnspent(s: Tables, tx: Tx) {
    forall op :: IsCredit(tx, s.adrs, op) && tx.outs[op.index].value > 0 ==> op in s.utxos
  }

  /** The row of a live transaction falls back to dead: it is unconfirmed, pays us, and is reported at a negative
      height. */
  ghost predicate Demoted(s: Tables, event: Event)
    requires event.Add? && event.tx.id in s.txns
  {
    event.height < 0 && s.txns[event.tx.id].height == 0 && exists op :: IsCredit(event.tx, s.adrs, op)
  }

  /** Adding a live transaction again keeps the balance exactly when all its own outputs of any value are still
      unspent: each one already spent is counted a second time. Where its row falls back to dead, exactly when the
      value lost with the row is what is counted a second time. */
  lemma LiveReAddExact(s: Tables, event: Event, e: Tables, rank: Txid -> nat)
    requires Processed(s, event) && Sound(s, rank) && RankedTx(event.tx, rank)
    requires Live(s, event.tx.id) && s.txns[event.tx.id].tx == event.tx && Step(s, event, e)
    ensures Balanced(e)
        <==> if Demoted(s, event) then s.txns[event.tx.id].value + Worth(s.txns, Revived(s, event.tx)) == 0
             else OwnStillUnspent(s, event.tx)
  {
    var tx, height := event.tx, event.height;
    assert Keyed(s) && SpendersLive(s) && UnspentIsUnspent(s);
    hide Balanced, WithoutConflicts, Sound, OutsSane, Distinct, RankedTx, SettledFrom, Step, Conflicts,
         OwnStillUnspent, Ignored, Relevant, Pick, Settled, Revived, Moves;
    ProcessedIsSane(s, event);
    SoundLive(s, tx, rank);
    NothingToClear(s, tx);
    assert SpendsOthers(tx) by { RankedSpendsOthers(tx, rank); }
    var pick := SoundAdd(s, event, e, rank);
    RelevantIffMoves(s, tx, height, pick);
    LiveMoves(s, tx, height);
    LiveAgainBalance(s, tx, height, e, Relevant(s, tx, height, pick), rank);
  }

  lemma RankedSpendsOthers(tx: Tx, rank: Txid -> nat)
    requires RankedTx(tx, rank)
    ensures SpendsOthers(tx)
  {
  }

  /** At a negative height only own outputs move. */
  lemma LiveMoves(s: Tables, tx: Tx, height: int)
    requires UnspentIsUnspent(s) && Live(s, tx.id) && s.txns[tx.id].tx == tx
    ensures height < 0 ==> (Moves(s, tx, height) <==> exists op :: IsCredit(tx, s.adrs, op))
  {
    hide IsCredit;
  }

  lemma LiveAgainBalance(s: Tables, tx: Tx, height: int, e: Tables, relevant: bool, rank: Txid -> nat)
    requires Sound(s, rank) && Live(s, tx.id) && s.txns[tx.id].tx == tx && OutsSane(tx)
    requires SettledFrom(s, tx, height, e, relevant)
    requires height < 0 ==> (relevant <==> exists op :: IsCredit(tx, s.adrs, op))
    ensures Balanced(e)
        <==> if height < 0 && s.txns[tx.id].height == 0 && (exists op :: IsCredit(tx, s.adrs, op))
             then s.txns[tx.id].value + Worth(s.txns, Revived(s, tx)) == 0
             else OwnStillUnspent(s, tx)
  {
    hide Sound, OutsSane, SettledFrom, OwnStillUnspent, LiveValue, UtxoValue, Worth, Revived, IsCredit;
    SoundIsBalanced(s, rank);
    LiveAgain(s, tx, height, e, relevant, rank);
    RevivedWorth(s, tx);
  }

  lemma LiveAgain(k: Tables, tx: Tx, height: int, e: Tables, relevant: bool, rank: Txid -> nat)
    requires Sound(k, rank) && Live(k, tx.id) && k.txns[tx.id].tx == tx
    requires SettledFrom(k, tx, height, e, relevant)
    ensures UtxoValue(e) == UtxoValue(k) + Worth(k.txns, Revived(k, tx))
    ensures LiveValue(e)
         == LiveValue(k) - if relevant && height < 0 && k.txns[tx.id].height == 0 then k.txns[tx.id].value else 0
  {
    hide OutputsSettled, RowSettled, Sound, Worth, LiveValue, UtxoValue, Revived, IsCredit, IsDebit;
    LiveAgainUtxos(k, tx, height, e, rank);
    LiveAgainRows(k, tx, height, e, relevant);
  }

  lemma LiveAgainRows(k: Tables, tx: Tx, height: int, e: Tables, relevant: bool)
    requires Live(k, tx.id) && k.txns[tx.id].tx == tx
    requires if relevant then RowSettled(k, tx, height, e) else e.txns == k.txns && e.txids == k.txids
    ensures LiveValue(e)
         == LiveValue(k) - if relevant && height < 0 && k.txns[tx.id].height == 0 then k.txns[tx.id].value else 0
  {
    hide NetValue, Heights;
    if relevant && height < 0 && k.txns[tx.id].height == 0 {
      forall t ensures t in LiveTxids(k) <==> t in LiveTxids(e) || t == tx.id {}
      assert tx.id !in LiveTxids(e);
      assert LiveTxids(k) - {tx.id} == LiveTxids(e);
      SumRemove(LiveTxids(k), RowValue(k), tx.id);
      forall t | t in LiveTxids(e) ensures RowValue(e)(t) == RowValue(k)(t) { assert t in k.txns && t != tx.id; }
      SumCong(LiveTxids(e), RowValue(e), RowValue(k));
    } else {
      SameLiveValue(k, e);
    }
  }

  lemma RevivedWorth(s: Tables, tx: Tx)
    requires tx.id in s.txns && s.txns[tx.id].tx == tx && OutsSane(tx)
    ensures Worth(s.txns, Revived(s, tx)) == 0 <==> OwnStillUnspent(s, tx)
  {
    var r := Revived(s, tx);
    forall op | op in r ensures OutValues(s.txns)(op) == tx.outs[op.index].value >= 0 {}
    SumZeroIff(r, OutValues(s.txns));
    forall op | IsCredit(tx, s.adrs, op) ensures op in s.utxos || op in r {
      assert op == OutPoint(tx.id, op.index);
    }
    forall op | op in r ensures IsCredit(tx, s.adrs, op) && op !in s.utxos {}
  }

  // ---------------------------------------------------------------------------
  // Adding a new transaction, or a dead one again
  // ---------------------------------------------------------------------------

  lemma NotLiveSpendable(k: Tables, tx: Tx, height: int, e: Tables)
    requires RowsMatch(k) && !Live(k, tx.id) && SpendsOthers(tx)
    requires OutputsSettled(k, tx, height, e)
    ensures var credits, debits := CreditSet(tx, k.adrs, |tx.outs|), DebitSet(k, tx);
            Spendable(k) == k.utxos.Keys && debits <= k.utxos.Keys && credits !! k.utxos.Keys
            && Spendable(e) == (k.utxos.Keys - debits) + credits
  {
    hide OutValue;
    var credits, debits := CreditSet(tx, k.adrs, |tx.outs|), DebitSet(k, tx);
    forall op ensures IsCredit(tx, k.adrs, op) <==> op in credits {
      if IsCredit(tx, k.adrs, op) { assert op == OutPoint(tx.id, op.index); }
    }
    forall op | op in k.utxos ensures op !in credits && TellsTruth(k, op, k.utxos[op]) { assert op in Held(k); }
    forall op ensures op in Spendable(e) <==> op in (k.utxos.Keys - debits) + credits {}
  }

  /** The stored transactions with tx among them. */
  function With(k: Tables, tx: Tx): map<Txid, Txn> {
    k.txns[tx.id := Txn(tx, 0, 0, false)]
  }

  lemma NotLiveUtxos(k: Tables, tx: Tx, height: int, e: Tables)
    requires RowsMatch(k) && !Live(k, tx.id) && SpendsOthers(tx) && Distinct(tx.ins) && OutputsSettled(k, tx, height, e)
    ensures UtxoValue(e) == UtxoValue(k) + NetValue(k, tx, height)
  {
    hide NetValue, OutputsSettled, Own;
    var credits, debits := CreditSet(tx, k.adrs, |tx.outs|), DebitSet(k, tx);
    var f := OutValues(With(k, tx));
    NotLiveSpendable(k, tx, height, e);
    SumUnion(k.utxos.Keys - debits, credits, f);
    SumUnion(k.utxos.Keys - debits, debits, f);
    assert k.utxos.Keys - debits + debits == k.utxos.Keys;
    NotLiveAmounts(k, tx, height, e);
    SumCong(Spendable(e), Amount(e), f);
    SumCong(k.utxos.Keys, Amount(k), f);
    NetValueIsWorth(k, tx, height, With(k, tx));
  }

  lemma NotLiveAmounts(k: Tables, tx: Tx, height: int, e: Tables)
    requires RowsMatch(k) && !Live(k, tx.id) && OutputsSettled(k, tx, height, e)
    ensures forall op :: op in k.utxos ==> OutValue(With(k, tx), op) == OutValue(k.txns, op)
    ensures forall op :: op in e.utxos ==> Amount(e)(op) == OutValues(With(k, tx))(op)
    ensures forall op :: op in k.utxos ==> Amount(k)(op) == OutValues(With(k, tx))(op)
  {
    forall op | op in k.utxos ensures TellsTruth(k, op, k.utxos[op]) && op.hash != tx.id { assert op in Held(k); }
  }

  lemma NotLiveRows(k: Tables, tx: Tx, height: int, e: Tables)
    requires !Live(k, tx.id) && RowSettled(k, tx, height, e)
    ensures LiveValue(e) == LiveValue(k) + if height >= 0 then e.txns[tx.id].value else 0
  {
    hide NetValue, Heights;
    forall t ensures t in LiveTxids(e) <==> t in LiveTxids(k) || (t == tx.id && height >= 0) {}
    forall t | t in LiveTxids(k) ensures RowValue(e)(t) == RowValue(k)(t) { assert t in k.txns && t != tx.id; }
    SumCong(LiveTxids(k), RowValue(e), RowValue(k));
    if height >= 0 {
      assert LiveTxids(e) - {tx.id} == LiveTxids(k);
      SumRemove(LiveTxids(e), RowValue(e), tx.id);
    } else {
      assert LiveTxids(e) == LiveTxids(k);
    }
  }

  /** On the tables settled on, the balance is kept when the value stored the first time is the value now, and where
      the row stays dead, when that is nothing. */
  lemma NotLiveBalance(k: Tables, tx: Tx, height: int, e: Tables, relevant: bool, rank: Txid -> nat)
    requires Sound(k, rank) && RankedTx(tx, rank) && Distinct(tx.ins) && !Live(k, tx.id)
    requires SettledFrom(k, tx, height, e, relevant)
    ensures Balanced(e)
        <==> if height < 0 then NetValue(k, tx, height) == 0
             else relevant && tx.id in k.txns ==> k.txns[tx.id].value == NetValue(k, tx, height)
  {
    hide RowsMatch, UnspentIsUnspent, ValuesExplained, OutputsSettled, RowSettled, IsCredit, LiveValue, UtxoValue,
         NetValue, IsDebit;
    SoundIsBalanced(k, rank);
    if relevant {
      NotLiveUtxos(k, tx, height, e);
      NotLiveRows(k, tx, height, e);
      SettledValue(k, tx, height, e);
    } else {
      NothingSettled(k, tx, height, e);
      SameKeepsSound(k, e, rank);
      SoundIsBalanced(e, rank);
      NothingIsWorthNothing(k, tx, height);
    }
  }

  lemma SettledValue(k: Tables, tx: Tx, height: int, e: Tables)
    requires RowSettled(k, tx, height, e)
    ensures e.txns[tx.id].value == if tx.id in k.txns then k.txns[tx.id].value else NetValue(k, tx, height)
  {
    hide NetValue, Heights;
  }

  lemma NothingIsWorthNothing(k: Tables, tx: Tx, height: int)
    requires RowsMatch(k) && SpendsOthers(tx) && Distinct(tx.ins)
    requires forall op :: !IsCredit(tx, k.adrs, op) && !IsDebit(k, tx, op)
    ensures NetValue(k, tx, height) == 0
  {
    hide NetValue;
    NetValueSplits(k, tx, height);
    CreditValueIsSum(tx, k.adrs, |tx.outs|, OutValues(With(k, tx)));
    assert CreditSet(tx, k.adrs, |tx.outs|) == {} by {
      forall i: nat | i < |tx.outs| ensures !Own(tx, k.adrs, i) { assert !IsCredit(tx, k.adrs, OutPoint(tx.id, i)); }
    }
    assert DebitSet(k, tx) == {} by { assert forall op :: op in DebitSet(k, tx) ==> IsDebit(k, tx, op); }
    SumEmpty(OutValues(k.txns));
    SumEmpty(OutValues(With(k, tx)));
  }

  lemma NetValueSplits(k: Tables, tx: Tx, height: int)
    requires RowsTrue(k) && SpendsOthers(tx) && Distinct(tx.ins)
    ensures NetValue(k, tx, height) == CreditValue(tx, k.adrs, |tx.outs|) - Worth(k.txns, DebitSet(k, tx))
  {
    var f, c := OutValues(k.txns), Credited(k, tx, height).utxos;
    assert Spent(c, tx.ins) == DebitSet(k, tx) by { CreditedOutputs(k, tx, height); }
    forall op | op in Spent(c, tx.ins) ensures f(op) == c[op].value && !c[op].watchOnly {
      assert TellsTruth(k, op, k.utxos[op]) by { hide OutValue; }
    }
    DebitValueIsSum(c, tx.ins, |tx.ins|, f);
    assert tx.ins[..|tx.ins|] == tx.ins;
  }

  /** The inputs of tx that are unspent once its conflicts are undone. */
  ghost function InputsLeft(s: Tables, tx: Tx): set<OutPoint> {
    set op | op in tx.ins && op in Held(s) && LivesOn(s, tx, op.hash)
  }

  /** What tx brings in is worth what it takes. */
  ghost predicate EvenTrade(s: Tables, tx: Tx) {
    CreditValue(tx, s.adrs, |tx.outs|) == Worth(s.txns, InputsLeft(s, tx))
  }

  /** Whoever spent an input of tx is undone with the conflicts. */
  lemma SpendersDie(s: Tables, tx: Tx, op: OutPoint)
    requires SpendersLive(s) && !Live(s, tx.id) && op in tx.ins && op in s.stxos
    ensures s.stxos[op].spendTxid in Descendants(s.stxos, Conflicts(s, tx))
  {
    hide Descendants;
    var t := s.stxos[op].spendTxid;
    assert Live(s, t) && Shares(s.txns[t].tx, tx);
    assert t in Conflicts(s, tx);
  }

  lemma LeftAfter(s: Tables, d: set<Txid>, op: OutPoint)
    requires ParentsLive(s) && (op in s.stxos ==> s.stxos[op].spendTxid in d)
    ensures op in Kill(s, d).utxos <==> op in Held(s) && Live(s, op.hash) && op.hash !in d
  {
  }

  lemma DebitsAreLeft(s: Tables, tx: Tx, rank: Txid -> nat)
    requires Sound(s, rank) && !Live(s, tx.id)
    ensures DebitSet(WithoutConflicts(s, tx), tx) == InputsLeft(s, tx)
  {
    assert SpendersLive(s) && ParentsLive(s);
    var k, d := WithoutConflicts(s, tx), Descendants(s.stxos, Conflicts(s, tx));
    assert k == Kill(s, d);
    hide Sound, Conflicts, Descendants, SpendersLive, ParentsLive, Kill, WithoutConflicts, Held, Live;
    forall op | op in tx.ins ensures op in k.utxos <==> op in Held(s) && LivesOn(s, tx, op.hash) {
      if op in s.stxos {
        SpendersDie(s, tx, op);
      }
      LeftAfter(s, d, op);
    }
  }

  lemma NetValueIsTrade(s: Tables, tx: Tx, height: int, rank: Txid -> nat)
    requires Sound(s, rank) && !Live(s, tx.id) && SpendsOthers(tx) && Distinct(tx.ins)
    ensures NetValue(WithoutConflicts(s, tx), tx, height) == 0 <==> EvenTrade(s, tx)
  {
    var k := WithoutConflicts(s, tx);
    WorthOnCleared(s, tx);
    hide NetValue, WithoutConflicts, InputsLeft, DebitSet, OutValue, Sound, Worth;
    ClearedIsSound(s, tx, rank);
    DebitsAreLeft(s, tx, rank);
    assert RowsTrue(k) by { SoundRows(k, rank); }
    NetValueSplits(k, tx, height);
  }

  lemma SoundRows(s: Tables, rank: Txid -> nat)
    requires Sound(s, rank)
    ensures RowsTrue(s) && RowsMatch(s)
  {
    hide RowsTrue;
  }

  lemma WorthOnCleared(s: Tables, tx: Tx)
    ensures var k := WithoutConflicts(s, tx);
            k.adrs == s.adrs && Worth(k.txns, InputsLeft(s, tx)) == Worth(s.txns, InputsLeft(s, tx))
  {
    var d := Descendants(s.stxos, Conflicts(s, tx));
    KillKeepsOutValue(s, d);
    hide OutValue, InputsLeft, KilledTxns;
    WorthCong(KilledTxns(s, d), s.txns, InputsLeft(s, tx));
  }

  /** Adding a new transaction keeps the balance at every height from 0 on, children that came before it or not. At a
      negative height it stays dead while its outputs and inputs move, and exactly an even trade keeps the balance. */
  lemma NewAddExact(s: Tables, event: Event, e: Tables, rank: Txid -> nat)
    requires Processed(s, event) && Sound(s, rank) && RankedTx(event.tx, rank)
    requires event.tx.id !in s.txns && Step(s, event, e)
    ensures Balanced(e) <==> event.height >= 0 || EvenTrade(s, event.tx)
  {
    var tx, height, k := event.tx, event.height, WithoutConflicts(s, event.tx);
    assert Distinct(tx.ins) && !Live(k, tx.id) && tx.id !in k.txns;
    RankedSpendsOthers(tx, rank);
    hide Settled, Pick, Relevant, SettledFrom, Sound, Processed, WithoutConflicts, RankedTx, EvenTrade;
    ClearedIsSound(s, tx, rank);
    var pick := SoundAdd(s, event, e, rank);
    NotLiveBalance(k, tx, height, e, Relevant(k, tx, height, pick), rank);
    NetValueIsTrade(s, tx, height, rank);
  }

  /** The parents of all own inputs of any value live on. */
  ghost predicate ParentsBack(s: Tables, tx: Tx) {
    forall op :: op in OwnIns(s, tx) && OutValue(s.txns, op) > 0 ==> LivesOn(s, tx, op.hash)
  }

  /** Adding tx moves some output of the wallet. */
  ghost predicate Touches(s: Tables, tx: Tx) {
    || (exists op :: IsCredit(tx, s.adrs, op))
    || (exists op :: op in OwnIns(s, tx) && LivesOn(s, tx, op.hash))
  }

  /** Adding a dead transaction again keeps the balance exactly when every stored parent it takes own value from lives
      on through the undoing of its conflicts, or when it touches nothing and so stays dead. At a negative height,
      exactly an even trade does. */
  lemma DeadReAddExact(s: Tables, event: Event, e: Tables, rank: Txid -> nat)
    requires Processed(s, event) && Sound(s, rank) && Priced(s) && RankedTx(event.tx, rank)
    requires event.tx.id in s.txns && !Live(s, event.tx.id) && s.txns[event.tx.id].tx == event.tx && Step(s, event, e)
    ensures Balanced(e)
        <==> if event.height < 0 then EvenTrade(s, event.tx)
             else ParentsBack(s, event.tx) || !Touches(s, event.tx)
  {
    var tx, height, k := event.tx, event.height, WithoutConflicts(s, event.tx);
    hide Settled, Pick, Relevant, SettledFrom, Sound, Processed, WithoutConflicts, Priced, ParentsBack, Touches,
         EvenTrade, RankedTx, IsCredit, OwnIns, OutValue, DebitSet;
    DeadOnCleared(s, tx, rank);
    ProcessedIsSane(s, event);
    RankedSpendsOthers(tx, rank);
    var pick := SoundAdd(s, event, e, rank);
    var relevant := Relevant(k, tx, height, pick);
    NotLiveBalance(k, tx, height, e, relevant, rank);
    DeadTouches(k, tx, height, e, relevant, rank);
    DeadValue(k, tx, height, rank);
    NetValueIsTrade(s, tx, height, rank);
  }

  /** What a caller can look up before a call, whatever it adds and at whatever height. */
  ghost predicate KeepsBalance(s: Tables, event: Event)
    requires event.Add?
  {
    var tx := event.tx;
    if Live(s, tx.id) then
      if Demoted(s, event) then s.txns[tx.id].value + Worth(s.txns, Revived(s, tx)) == 0 else OwnStillUnspent(s, tx)
    else if event.height < 0 then EvenTrade(s, tx)
    else tx.id in s.txns ==> ParentsBack(s, tx) || !Touches(s, tx)
  }

  /** From a wallet in order exactly the calls that keep the balance keep it. */
  lemma BalanceExact(s: Tables, event: Event, e: Tables, rank: Txid -> nat)
    requires Processed(s, event) && Sound(s, rank) && Priced(s) && RankedTx(event.tx, rank) && HashBinds(s, event)
    requires Step(s, event, e)
    ensures Balanced(e) <==> KeepsBalance(s, event)
  {
    hide Sound, Priced, Balanced, Step, Ignored, OwnStillUnspent, Demoted, Revived, EvenTrade, ParentsBack, Touches;
    if Live(s, event.tx.id) {
      LiveReAddExact(s, event, e, rank);
    } else if event.tx.id in s.txns {
      DeadReAddExact(s, event, e, rank);
    } else {
      NewAddExact(s, event, e, rank);
    }
  }

  /** The question on the tables s is the question on the tables settled on. */
  lemma DeadOnCleared(s: Tables, tx: Tx, rank: Txid -> nat)
    requires Sound(s, rank) && Priced(s) && tx.id in s.txns && !Live(s, tx.id) && s.txns[tx.id].tx == tx
    ensures var k := WithoutConflicts(s, tx);
            && Sound(k, rank) && Priced(k) && tx.id in k.txns && !Live(k, tx.id) && k.txns[tx.id].tx == tx
            && DebitSet(k, tx) <= OwnIns(k, tx)
            && (ParentsBack(s, tx) <==> forall op :: op in OwnIns(k, tx) && OutValue(k.txns, op) > 0 ==> op in k.utxos)
            && (Touches(s, tx) <==> (exists op :: IsCredit(tx, k.adrs, op)) || DebitSet(k, tx) != {})
  {
    var d := Descendants(s.stxos, Conflicts(s, tx));
    KillKeepsOutValue(s, d);
    assert WithoutConflicts(s, tx).txns == KilledTxns(s, d);
    assert !LivesOn(s, tx, tx.id);
    OnCleared(s, tx, rank);
    hide Sound, Priced, WithoutConflicts, IsCredit, OwnIns, DebitSet, OutValue, LivesOn, KilledTxns, ParentsBack,
         Touches;
    DeadQuestion(s, WithoutConflicts(s, tx), tx);
  }

  lemma DeadQuestion(s: Tables, k: Tables, tx: Tx)
    requires k.adrs == s.adrs && OwnIns(k, tx) == OwnIns(s, tx)
    requires forall op :: OutValue(k.txns, op) == OutValue(s.txns, op)
    requires DebitSet(k, tx) <= OwnIns(k, tx)
    requires forall op :: op in OwnIns(k, tx) ==> (op in k.utxos <==> LivesOn(s, tx, op.hash))
    ensures ParentsBack(s, tx) <==> forall op :: op in OwnIns(k, tx) && OutValue(k.txns, op) > 0 ==> op in k.utxos
    ensures Touches(s, tx) <==> (exists op :: IsCredit(tx, k.adrs, op)) || DebitSet(k, tx) != {}
  {
    assert forall op :: op in DebitSet(k, tx) <==> op in OwnIns(k, tx) && op in k.utxos;
    hide IsCredit, OwnIns, DebitSet, OutValue, LivesOn;
    assert ParentsBack(s, tx) <==> forall op :: op in OwnIns(k, tx) && OutValue(k.txns, op) > 0 ==> op in k.utxos by {
      hide Touches;
    }
    if op :| op in DebitSet(k, tx) {
      assert op in OwnIns(s, tx) && LivesOn(s, tx, op.hash);
    }
  }

  lemma DeadTouches(k: Tables, tx: Tx, height: int, e: Tables, relevant: bool, rank: Txid -> nat)
    requires Sound(k, rank) && !Live(k, tx.id) && SettledFrom(k, tx, height, e, relevant)
    ensures relevant <==> (exists op :: IsCredit(tx, k.adrs, op)) || DebitSet(k, tx) != {}
  {
    hide IsCredit, RowsTrue, ParentsLive, UnspentIsUnspent, ValuesExplained, NoLiveConflicts, Keyed, RowSettled;
    assert forall op :: op in DebitSet(k, tx) <==> IsDebit(k, tx, op);
    if relevant && DebitSet(k, tx) == {} {
      forall op | op in e.stxos ensures e.stxos[op].spendTxid != tx.id {
        assert Live(k, k.stxos[op].spendTxid);
      }
    }
  }

  lemma DeadValue(k: Tables, tx: Tx, height: int, rank: Txid -> nat)
    requires Sound(k, rank) && Priced(k) && RankedTx(tx, rank) && Distinct(tx.ins)
    requires tx.id in k.txns && !Live(k, tx.id) && k.txns[tx.id].tx == tx && DebitSet(k, tx) <= OwnIns(k, tx)
    ensures k.txns[tx.id].value == NetValue(k, tx, height)
        <==> forall op :: op in OwnIns(k, tx) && OutValue(k.txns, op) > 0 ==> op in k.utxos
  {
    assert RowsTrue(k) && RowsPriced(k) by { hide IsCredit, Worth, Price; }
    assert SpendsOthers(tx);
    hide Sound, Priced, NetValue, IsCredit, OutValue, RowsTrue, CreditSet, Worth;
    NetValueIsWorth(k, tx, height, k.txns);
    MissingWorth(k, tx);
  }

  /** The own inputs are worth more than the unspent ones among them unless the others are worth nothing. */
  lemma MissingWorth(k: Tables, tx: Tx)
    requires RowsPriced(k) && DebitSet(k, tx) <= OwnIns(k, tx)
    ensures Worth(k.txns, OwnIns(k, tx)) == Worth(k.txns, DebitSet(k, tx))
        <==> forall op :: op in OwnIns(k, tx) && OutValue(k.txns, op) > 0 ==> op in k.utxos
  {
    forall op | op in OwnIns(k, tx) ensures OutValue(k.txns, op) >= 0 {
      assert OutsSane(k.txns[op.hash].tx);
    }
    PartWorth(k.txns, OwnIns(k, tx), DebitSet(k, tx));
  }

  lemma PartWorth(txns: map<Txid, Txn>, own: set<OutPoint>, here: set<OutPoint>)
    requires here <= own && forall op :: op in own ==> OutValue(txns, op) >= 0
    ensures Worth(txns, own) == Worth(txns, here) <==> forall op :: op in own && OutValue(txns, op) > 0 ==> op in here
  {
    hide OutValue;
    var rest := own - here;
    assert own == here + rest;
    SumUnion(here, rest, OutValues(txns));
    SumZeroIff(rest, OutValues(txns));
    assert forall op :: op in rest ==> OutValues(txns)(op) == OutValue(txns, op);
  }
}
