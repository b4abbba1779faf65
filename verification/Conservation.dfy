/** Conservation: what the live transactions brought in is what the unspent outputs hold. */
module Conservation {
  import opened Options
  import opened Sums
  import opened Ledger
  import opened Adding
  import opened LedgerRuns
  import opened Disjointness

  // ---------------------------------------------------------------------------
  // The two totals
  // ---------------------------------------------------------------------------

  ghost function LiveTxids(s: Tables): set<Txid> {
    set t | t in s.txns && s.txns[t].height >= 0
  }

  ghost function RowValue(s: Tables): Txid -> int {
    t => if t in s.txns then s.txns[t].value else 0
  }

  /** The sum of the stored values of the live transactions. */
  ghost function LiveValue(s: Tables): int {
    Sum(LiveTxids(s), RowValue(s))
  }

  ghost function Spendable(s: Tables): set<OutPoint> {
    set op | op in s.utxos && !s.utxos[op].watchOnly
  }

  ghost function Amount(s: Tables): OutPoint -> int {
    op => if op in s.utxos then s.utxos[op].value else 0
  }

  /** The sum of the values of the unspent outputs that are not watch-only. */
  ghost function UtxoValue(s: Tables): int {
    Sum(Spendable(s), Amount(s))
  }

  ghost predicate Balanced(s: Tables) {
    LiveValue(s) == UtxoValue(s)
  }

  // ---------------------------------------------------------------------------
  // The invariant behind it
  // ---------------------------------------------------------------------------

  function OutValue(txns: map<Txid, Txn>, op: OutPoint): int {
    if op.hash in txns && op.index < |txns[op.hash].tx.outs| then txns[op.hash].tx.outs[op.index].value else 0
  }

  ghost function OutValues(txns: map<Txid, Txn>): OutPoint -> int {
    op => OutValue(txns, op)
  }

  ghost function Worth(txns: map<Txid, Txn>, ops: set<OutPoint>): int {
    Sum(ops, OutValues(txns))
  }

  /** Every own output the wallet knows, spent or not. */
  ghost function Held(s: Tables): set<OutPoint> {
    s.utxos.Keys + s.stxos.Keys
  }

  ghost function CreatedBy(s: Tables, t: Txid): set<OutPoint> {
    set op | op in Held(s) && op.hash == t
  }

  ghost function SpentBy(s: Tables, t: Txid): set<OutPoint> {
    set op | op in s.stxos && s.stxos[op].spendTxid == t
  }

  /** Every held output was created by a live stored transaction. */
  ghost predicate ParentsLive(s: Tables) {
    forall op :: op in Held(s) ==> Live(s, op.hash) && op.index < |s.txns[op.hash].tx.outs|
  }

  /** Every recorded spend is an input of a live stored transaction. */
  ghost predicate SpendersLive(s: Tables) {
    forall op :: op in s.stxos ==> Live(s, s.stxos[op].spendTxid) && op in s.txns[s.stxos[op].spendTxid].tx.ins
  }

  ghost predicate TellsTruth(s: Tables, op: OutPoint, u: Utxo) {
    u.value == OutValue(s.txns, op) && !u.watchOnly
  }

  /** Rows repeat the values of the stored transactions, and nothing is watch-only. */
  ghost predicate RowsTrue(s: Tables) {
    && (forall op :: op in s.utxos ==> TellsTruth(s, op, s.utxos[op]))
    && (forall op :: op in s.stxos ==> TellsTruth(s, op, s.stxos[op].utxo))
  }

  ghost predicate RowsMatch(s: Tables) {
    ParentsLive(s) && SpendersLive(s) && RowsTrue(s)
  }

  /** No live transaction spends an output listed as unspent. */
  ghost predicate UnspentIsUnspent(s: Tables) {
    forall t, op :: Live(s, t) && op in s.txns[t].tx.ins ==> op !in s.utxos
  }

  /** Each live row's value is what it created less what it spent. */
  ghost predicate ValuesExplained(s: Tables) {
    forall t :: Live(s, t) ==> s.txns[t].value == Worth(s.txns, CreatedBy(s, t)) - Worth(s.txns, SpentBy(s, t))
  }

  ghost predicate Sound(s: Tables, rank: Txid -> nat) {
    && Keyed(s) && RankedSpends(s, rank) && NoLiveConflicts(s)
    && s.utxos.Keys !! s.stxos.Keys
    && RowsMatch(s) && UnspentIsUnspent(s) && ValuesExplained(s)
  }

  /** A sound wallet is balanced. */
  lemma SoundIsBalanced(s: Tables, rank: Txid -> nat)
    requires Sound(s, rank)
    ensures Balanced(s)
  {
    LiveValueIsWorth(s);
    UtxoValueIsWorth(s);
  }

  lemma LiveValueIsWorth(s: Tables)
    requires ParentsLive(s) && SpendersLive(s) && ValuesExplained(s) && s.utxos.Keys !! s.stxos.Keys
    ensures LiveValue(s) == Worth(s.txns, s.utxos.Keys)
  {
    var created := (t: Txid) => Worth(s.txns, CreatedBy(s, t));
    var spent := (t: Txid) => Worth(s.txns, SpentBy(s, t));
    hide Sum, OutValue, CreatedBy, SpentBy;
    CreatedTotal(s, created);
    SpentTotal(s, spent);
    SumUnion(s.utxos.Keys, s.stxos.Keys, OutValues(s.txns));
    forall t | t in LiveTxids(s) ensures RowValue(s)(t) == created(t) - spent(t) { assert Live(s, t); }
    hide Worth;
    SumDifference(LiveTxids(s), RowValue(s), created, spent);
  }

  lemma UtxoValueIsWorth(s: Tables)
    requires RowsTrue(s)
    ensures UtxoValue(s) == Worth(s.txns, s.utxos.Keys)
  {
    hide Sum, OutValue;
    forall op | op in s.utxos ensures TellsTruth(s, op, s.utxos[op]) {}
    assert Spendable(s) == s.utxos.Keys;
    SumCong(s.utxos.Keys, OutValues(s.txns), Amount(s));
  }

  lemma CreatedTotal(s: Tables, created: Txid -> int)
    requires ParentsLive(s) && forall t :: created(t) == Worth(s.txns, CreatedBy(s, t))
    ensures Sum(LiveTxids(s), created) == Worth(s.txns, Held(s))
  {
    hide OutValue;
    var hash := (op: OutPoint) => op.hash;
    forall t ensures created(t) == Sum(Fibre(Held(s), hash, t), OutValues(s.txns)) {
      assert Fibre(Held(s), hash, t) == CreatedBy(s, t);
    }
    SumByKey(LiveTxids(s), Held(s), hash, OutValues(s.txns), created);
  }

  lemma SpentTotal(s: Tables, spent: Txid -> int)
    requires SpendersLive(s) && forall t :: spent(t) == Worth(s.txns, SpentBy(s, t))
    ensures Sum(LiveTxids(s), spent) == Worth(s.txns, s.stxos.Keys)
  {
    hide OutValue;
    var spender := (op: OutPoint) => if op in s.stxos then s.stxos[op].spendTxid else op.hash;
    forall t ensures spent(t) == Sum(Fibre(s.stxos.Keys, spender, t), OutValues(s.txns)) {
      assert Fibre(s.stxos.Keys, spender, t) == SpentBy(s, t);
    }
    SumByKey(LiveTxids(s), s.stxos.Keys, spender, OutValues(s.txns), spent);
  }

  // ---------------------------------------------------------------------------
  // Undoing keeps it
  // ---------------------------------------------------------------------------

  lemma KillKeepsSound(s: Tables, d: set<Txid>, rank: Txid -> nat)
    requires Sound(s, rank) && Closed(s.stxos, d)
    ensures Sound(Kill(s, d), rank)
  {
    hide RowsMatch, UnspentIsUnspent, ValuesExplained, Keyed, RankedSpends, NoLiveConflicts, Kill;
    KillKeepsRows(s, d);
    KillKeepsUnspent(s, d);
    KillKeepsValues(s, d);
    KillKeepsShape(s, d, rank);
  }

  lemma KillKeepsShape(s: Tables, d: set<Txid>, rank: Txid -> nat)
    requires Keyed(s) && RankedSpends(s, rank) && NoLiveConflicts(s) && s.utxos.Keys !! s.stxos.Keys
    ensures var k := Kill(s, d);
            Keyed(k) && RankedSpends(k, rank) && NoLiveConflicts(k) && k.utxos.Keys !! k.stxos.Keys
  {
    hide Shares;
    var k := Kill(s, d);
    forall a | Live(k, a) ensures Live(s, a) && k.txns[a].tx == s.txns[a].tx {}
  }

  lemma KillKeepsRows(s: Tables, d: set<Txid>)
    requires RowsMatch(s) && Closed(s.stxos, d)
    ensures RowsMatch(Kill(s, d))
  {
    KillKeepsParents(s, d);
    assert SpendersLive(Kill(s, d));
    KillKeepsTruth(s, d);
  }

  lemma KillKeepsParents(s: Tables, d: set<Txid>)
    requires ParentsLive(s) && Closed(s.stxos, d)
    ensures ParentsLive(Kill(s, d))
  {
    var k := Kill(s, d);
    forall op | op in Held(k) ensures op in Held(s) && op.hash !in d {}
  }

  lemma KillKeepsTruth(s: Tables, d: set<Txid>)
    requires RowsTrue(s)
    ensures RowsTrue(Kill(s, d))
  {
    var k := Kill(s, d);
    KillKeepsOutValue(s, d);
    hide OutValue;
    forall op | op in k.utxos ensures TellsTruth(k, op, k.utxos[op]) {}
  }

  lemma KillKeepsOutValue(s: Tables, d: set<Txid>)
    ensures forall op :: OutValue(KilledTxns(s, d), op) == OutValue(s.txns, op)
  {
  }

  lemma KillKeepsUnspent(s: Tables, d: set<Txid>)
    requires RowsMatch(s) && NoLiveConflicts(s) && UnspentIsUnspent(s)
    ensures UnspentIsUnspent(Kill(s, d))
  {
    var k := Kill(s, d);
    forall t, op | Live(k, t) && op in k.txns[t].tx.ins ensures op !in k.utxos {
      assert Live(s, t);
      if op in k.utxos {
        var r := s.stxos[op].spendTxid;
        assert Live(s, r) && r != t && Shares(s.txns[r].tx, s.txns[t].tx);
      }
    }
  }

  lemma KillKeepsValues(s: Tables, d: set<Txid>)
    requires ValuesExplained(s) && Closed(s.stxos, d)
    ensures ValuesExplained(Kill(s, d))
  {
    var k := Kill(s, d);
    forall t | Live(k, t)
      ensures k.txns[t].value == Worth(k.txns, CreatedBy(k, t)) - Worth(k.txns, SpentBy(k, t))
    {
      assert Live(s, t);
      assert CreatedBy(k, t) == CreatedBy(s, t);
      assert SpentBy(k, t) == SpentBy(s, t);
      WorthCong(k.txns, s.txns, CreatedBy(k, t));
      WorthCong(k.txns, s.txns, SpentBy(k, t));
    }
  }

  lemma WorthCong(a: map<Txid, Txn>, b: map<Txid, Txn>, ops: set<OutPoint>)
    requires forall op :: op in ops ==> OutValue(a, op) == OutValue(b, op)
    ensures Worth(a, ops) == Worth(b, ops)
  {
    SumCong(ops, OutValues(a), OutValues(b));
  }

  // ---------------------------------------------------------------------------
  // The value computed for a transaction
  // ---------------------------------------------------------------------------

  ghost function CreditSet(tx: Tx, adrs: seq<Script>, n: nat): set<OutPoint>
    requires n <= |tx.outs|
  {
    set i: nat | i < n && Own(tx, adrs, i) :: OutPoint(tx.id, i)
  }

  lemma {:induction false} CreditValueIsSum(tx: Tx, adrs: seq<Script>, n: nat, f: OutPoint -> int)
    requires n <= |tx.outs|
    requires forall i: nat :: i < n ==> f(OutPoint(tx.id, i)) == tx.outs[i].value
    ensures CreditValue(tx, adrs, n) == Sum(CreditSet(tx, adrs, n), f)
  {
    if n > 0 {
      CreditValueIsSum(tx, adrs, n - 1, f);
      var op := OutPoint(tx.id, n - 1);
      if Own(tx, adrs, n - 1) {
        assert op in CreditSet(tx, adrs, n);
        SumRemove(CreditSet(tx, adrs, n), f, op);
        assert CreditSet(tx, adrs, n) - {op} == CreditSet(tx, adrs, n - 1);
      } else {
        assert CreditSet(tx, adrs, n) == CreditSet(tx, adrs, n - 1);
      }
    }
  }

  lemma {:induction false} DebitValueIsSum(utxos: map<OutPoint, Utxo>, ins: seq<OutPoint>, n: nat, f: OutPoint -> int)
    requires n <= |ins| && Distinct(ins)
    requires forall op :: op in Spent(utxos, ins) ==> f(op) == utxos[op].value && !utxos[op].watchOnly
    ensures DebitValue(utxos, ins, n) == Sum(Spent(utxos, ins[..n]), f)
  {
    if n > 0 {
      DebitValueIsSum(utxos, ins, n - 1, f);
      var op := ins[n - 1];
      assert ins[..n] == ins[..n - 1] + [op];
      if op in utxos {
        assert op in Spent(utxos, ins);
        SumRemove(Spent(utxos, ins[..n]), f, op);
        assert Spent(utxos, ins[..n]) - {op} == Spent(utxos, ins[..n - 1]);
      } else {
        assert Spent(utxos, ins[..n]) == Spent(utxos, ins[..n - 1]);
      }
    }
  }

  ghost function DebitSet(k: Tables, tx: Tx): set<OutPoint> {
    set op | op in tx.ins && op in k.utxos
  }

  /** The computed value is the worth of the outputs to the wallet less that of the inputs from it. */
  lemma NetValueIsWorth(k: Tables, tx: Tx, height: int, txns: map<Txid, Txn>)
    requires RowsTrue(k) && SpendsOthers(tx) && Distinct(tx.ins)
    requires tx.id in txns && txns[tx.id].tx == tx
    requires forall op :: op in k.utxos ==> OutValue(txns, op) == OutValue(k.txns, op)
    ensures NetValue(k, tx, height) == Worth(txns, CreditSet(tx, k.adrs, |tx.outs|)) - Worth(txns, DebitSet(k, tx))
  {
    var f := OutValues(txns);
    CreditValueIsSum(tx, k.adrs, |tx.outs|, f);
    var c := Credited(k, tx, height).utxos;
    assert Spent(c, tx.ins) == DebitSet(k, tx) by { CreditedOutputs(k, tx, height); }
    forall op | op in Spent(c, tx.ins) ensures f(op) == c[op].value && !c[op].watchOnly {
      assert TellsTruth(k, op, k.utxos[op]) by { hide OutValue; }
    }
    DebitValueIsSum(c, tx.ins, |tx.ins|, f);
    assert tx.ins[..|tx.ins|] == tx.ins;
  }

  lemma CreditedOutputs(k: Tables, tx: Tx, height: int)
    requires SpendsOthers(tx)
    ensures forall op :: op in tx.ins ==> (op in Credited(k, tx, height).utxos <==> op in k.utxos)
    ensures forall op :: op in tx.ins && op in k.utxos ==> Credited(k, tx, height).utxos[op] == k.utxos[op]
  {
  }

  // ---------------------------------------------------------------------------
  // Adding a new transaction keeps it
  // ---------------------------------------------------------------------------

  /** No live stored transaction already spends an own output of tx: parents come first. */
  ghost predicate NoLiveChild(s: Tables, tx: Tx) {
    forall t, op :: Live(s, t) && op in s.txns[t].tx.ins ==> !IsCredit(tx, s.adrs, op)
  }

  ghost predicate SameTables(k: Tables, e: Tables) {
    e.utxos == k.utxos && SameSpends(k.stxos, e.stxos) && e.txns == k.txns
  }

  lemma SameKeepsSound(k: Tables, e: Tables, rank: Txid -> nat)
    requires Sound(k, rank) && SameTables(k, e)
    ensures Sound(e, rank)
  {
    hide RowsMatch, UnspentIsUnspent, ValuesExplained, NoLiveConflicts;
    SameRows(k, e);
  }

  /** The stored value of tx is the one it would be given on the tables k. */
  predicate SameWorth(k: Tables, tx: Tx, height: int) {
    tx.id in k.txns && k.txns[tx.id].tx == tx && k.txns[tx.id].value == NetValue(k, tx, height)
  }

  /** A conflict-free transaction that is new, or dead and stored with the value it has now. */
  ghost predicate Fresh(k: Tables, tx: Tx, height: int, e: Tables, rank: Txid -> nat) {
    && !Live(k, tx.id) && (tx.id in k.txns ==> SameWorth(k, tx, height))
    && height >= 0 && RankedTx(tx, rank) && Distinct(tx.ins)
    && NoLiveChild(k, tx)
    && OutputsSettled(k, tx, height, e) && RowSettled(k, tx, height, e)
  }

  lemma FreshKeepsRows(k: Tables, tx: Tx, height: int, e: Tables, rank: Txid -> nat)
    requires RowsMatch(k) && Fresh(k, tx, height, e, rank)
    ensures RowsMatch(e)
  {
    hide NetValue, Worth;
    forall t | Live(k, t) ensures Live(e, t) && e.txns[t] == k.txns[t] {}
    assert Live(e, tx.id);
    FreshParents(k, tx, height, e, rank);
    FreshTruth(k, tx, height, e, rank);
  }

  lemma FreshParents(k: Tables, tx: Tx, height: int, e: Tables, rank: Txid -> nat)
    requires RowsMatch(k) && Fresh(k, tx, height, e, rank)
    ensures ParentsLive(e) && SpendersLive(e)
  {
    hide NetValue, RowsTrue, Heights, NewUtxo;
    forall t | Live(k, t) ensures Live(e, t) && e.txns[t] == k.txns[t] {}
    FreshHeld(k, tx, height, e);
    hide OutputsSettled, Own;
    assert ParentsLive(e) by { hide SpendersLive; assert Live(e, tx.id); }
    assert SpendersLive(e) by { FreshSpenders(k, tx, height, e); }
  }

  lemma FreshHeld(k: Tables, tx: Tx, height: int, e: Tables)
    requires OutputsSettled(k, tx, height, e)
    ensures forall op :: op in Held(e) ==> op in Held(k) || IsCredit(tx, k.adrs, op)
  {
    hide NewUtxo, Own;
  }

  lemma FreshSpenders(k: Tables, tx: Tx, height: int, e: Tables)
    requires SpendersLive(k) && OutputsSettled(k, tx, height, e) && Live(e, tx.id) && e.txns[tx.id].tx == tx
    requires forall t :: Live(k, t) ==> Live(e, t) && e.txns[t] == k.txns[t]
    ensures SpendersLive(e)
  {
    hide NewUtxo, Own, Live;
  }

  lemma FreshTruth(k: Tables, tx: Tx, height: int, e: Tables, rank: Txid -> nat)
    requires RowsMatch(k) && Fresh(k, tx, height, e, rank)
    ensures RowsTrue(e)
  {
    hide NetValue, Heights, SpendersLive;
    forall op | op in Held(k) ensures OutValue(e.txns, op) == OutValue(k.txns, op) {}
    forall op | IsCredit(tx, k.adrs, op) ensures OutValue(e.txns, op) == tx.outs[op.index].value {}
    hide OutValue, ParentsLive, RowSettled, NoLiveChild;
    FreshRowsTrue(k, tx, height, e);
  }

  lemma FreshRowsTrue(k: Tables, tx: Tx, height: int, e: Tables)
    requires RowsTrue(k) && OutputsSettled(k, tx, height, e)
    requires forall op :: op in Held(k) ==> OutValue(e.txns, op) == OutValue(k.txns, op)
    requires forall op :: IsCredit(tx, k.adrs, op) ==> OutValue(e.txns, op) == tx.outs[op.index].value
    ensures RowsTrue(e)
  {
    hide OutValue;
    forall op | op in e.utxos ensures TellsTruth(e, op, e.utxos[op]) {
      if !IsCredit(tx, k.adrs, op) { assert op in Held(k); }
    }
    hide NewUtxo, Own;
    forall op | op in e.stxos ensures TellsTruth(e, op, e.stxos[op].utxo) {
      assert op in Held(k);
    }
  }

  lemma FreshKeepsUnspent(k: Tables, tx: Tx, height: int, e: Tables, rank: Txid -> nat)
    requires UnspentIsUnspent(k) && Fresh(k, tx, height, e, rank)
    ensures UnspentIsUnspent(e)
  {
    hide NetValue, Heights, Own;
    forall t, op | Live(e, t) && op in e.txns[t].tx.ins ensures op !in e.utxos {
      if t != tx.id { assert Live(k, t); }
    }
  }

  lemma FreshKeepsShape(k: Tables, tx: Tx, height: int, e: Tables, rank: Txid -> nat)
    requires RankedSpends(k, rank) && k.utxos.Keys !! k.stxos.Keys && ParentsLive(k)
    requires Fresh(k, tx, height, e, rank)
    ensures RankedSpends(e, rank) && e.utxos.Keys !! e.stxos.Keys
  {
    hide NetValue, Heights, Own;
    forall op | op in k.stxos ensures op.hash != tx.id { assert op in Held(k); }
  }

  lemma FreshKeepsValues(k: Tables, tx: Tx, height: int, e: Tables, rank: Txid -> nat)
    requires RowsMatch(k) && ValuesExplained(k) && k.utxos.Keys !! k.stxos.Keys && Fresh(k, tx, height, e, rank)
    ensures ValuesExplained(e)
  {
    forall t | Live(e, t)
      ensures e.txns[t].value == Worth(e.txns, CreatedBy(e, t)) - Worth(e.txns, SpentBy(e, t))
    {
      if t == tx.id {
        FreshValue(k, tx, height, e, rank);
      } else {
        OthersKeepValue(k, tx, height, e, rank, t);
      }
    }
  }

  lemma OthersKeepValue(k: Tables, tx: Tx, height: int, e: Tables, rank: Txid -> nat, t: Txid)
    requires RowsMatch(k) && ValuesExplained(k) && k.utxos.Keys !! k.stxos.Keys && Fresh(k, tx, height, e, rank)
    requires t != tx.id && Live(e, t)
    ensures e.txns[t].value == Worth(e.txns, CreatedBy(e, t)) - Worth(e.txns, SpentBy(e, t))
  {
    hide NetValue, Heights, Own, Worth, RowsTrue, OutputsSettled, SpendersLive;
    assert Live(k, t);
    OthersKeepOutputs(k, tx, height, e, t);
    forall op | op in Held(k) ensures OutValue(e.txns, op) == OutValue(k.txns, op) {}
    WorthCong(e.txns, k.txns, CreatedBy(k, t));
    WorthCong(e.txns, k.txns, SpentBy(k, t));
  }

  lemma OthersKeepOutputs(k: Tables, tx: Tx, height: int, e: Tables, t: Txid)
    requires OutputsSettled(k, tx, height, e) && t != tx.id && k.utxos.Keys !! k.stxos.Keys
    ensures CreatedBy(e, t) == CreatedBy(k, t) && SpentBy(e, t) == SpentBy(k, t)
  {
    hide NewUtxo, Own;
  }

  lemma FreshValue(k: Tables, tx: Tx, height: int, e: Tables, rank: Txid -> nat)
    requires RowsMatch(k) && Fresh(k, tx, height, e, rank)
    ensures e.txns[tx.id].value == Worth(e.txns, CreatedBy(e, tx.id)) - Worth(e.txns, SpentBy(e, tx.id))
  {
    hide Heights, NewUtxo, NetValue, Worth;
    forall op | op in k.utxos ensures OutValue(e.txns, op) == OutValue(k.txns, op) { assert op in Held(k); }
    NetValueIsWorth(k, tx, height, e.txns);
    assert CreatedBy(e, tx.id) == CreditSet(tx, k.adrs, |tx.outs|) by { FreshCreated(k, tx, height, e, rank); }
    assert SpentBy(e, tx.id) == DebitSet(k, tx) by { FreshSpent(k, tx, height, e, rank); }
  }

  lemma FreshCreated(k: Tables, tx: Tx, height: int, e: Tables, rank: Txid -> nat)
    requires ParentsLive(k) && Fresh(k, tx, height, e, rank)
    ensures CreatedBy(e, tx.id) == CreditSet(tx, k.adrs, |tx.outs|)
  {
    hide NetValue, Heights, NewUtxo;
    forall op ensures op in CreatedBy(e, tx.id) <==> op in CreditSet(tx, k.adrs, |tx.outs|) {
      if op.hash == tx.id {
        assert op !in Held(k);
        if IsCredit(tx, k.adrs, op) { assert op == OutPoint(tx.id, op.index); }
      }
    }
  }

  lemma FreshSpent(k: Tables, tx: Tx, height: int, e: Tables, rank: Txid -> nat)
    requires SpendersLive(k) && Fresh(k, tx, height, e, rank)
    ensures SpentBy(e, tx.id) == DebitSet(k, tx)
  {
    hide NetValue, Heights, NewUtxo, Own;
    forall op | op in k.stxos ensures k.stxos[op].spendTxid != tx.id {}
    forall op ensures op in SpentBy(e, tx.id) <==> op in DebitSet(k, tx) {}
  }

  // ---------------------------------------------------------------------------
  // Adding a live transaction again keeps it
  // ---------------------------------------------------------------------------

  ghost predicate Again(k: Tables, tx: Tx, height: int, e: Tables, rank: Txid -> nat) {
    && Live(k, tx.id) && k.txns[tx.id].tx == tx && height >= 0 && RankedTx(tx, rank)
    && NoLiveChild(k, tx)
    && (forall op :: IsCredit(tx, k.adrs, op) ==> op in Held(k))
    && OutputsSettled(k, tx, height, e) && RowSettled(k, tx, height, e)
  }

  lemma AgainKeepsSound(k: Tables, tx: Tx, height: int, e: Tables, rank: Txid -> nat)
    requires Sound(k, rank) && Again(k, tx, height, e, rank) && Keyed(e)
    ensures Sound(e, rank)
  {
    AgainOutputs(k, tx, height, e, rank);
    AgainSound(k, tx, height, e, rank);
  }

  /** Adding it again moves no output: its own outputs are unspent already and its inputs spent. */
  lemma AgainOutputs(k: Tables, tx: Tx, height: int, e: Tables, rank: Txid -> nat)
    requires RowsMatch(k) && UnspentIsUnspent(k) && Again(k, tx, height, e, rank)
    ensures e.utxos.Keys == k.utxos.Keys && SameSpends(k.stxos, e.stxos)
    ensures forall op :: op in e.utxos ==>
            e.utxos[op].value == k.utxos[op].value && e.utxos[op].watchOnly == k.utxos[op].watchOnly
  {
    hide NetValue, Heights, Own, RowSettled, OutputsSettled, IsCredit, NewUtxo, OutValue;
    forall op | op in k.stxos ensures !IsCredit(tx, k.adrs, op) {
      assert Live(k, k.stxos[op].spendTxid);
    }
    forall op | op in tx.ins ensures op !in k.utxos {}
    CreditRows(k, tx, height);
    AgainRows(k, tx, height, e);
  }

  /** A new row for an own output says what the old one says. */
  lemma CreditRows(k: Tables, tx: Tx, height: int)
    requires RowsTrue(k) && tx.id in k.txns && k.txns[tx.id].tx == tx
    ensures forall op :: op in k.utxos && IsCredit(tx, k.adrs, op) ==>
              NewUtxo(tx, op.index, height).value == k.utxos[op].value && !k.utxos[op].watchOnly
  {
    forall op | op in k.utxos && IsCredit(tx, k.adrs, op)
      ensures NewUtxo(tx, op.index, height).value == k.utxos[op].value && !k.utxos[op].watchOnly
    {
      assert TellsTruth(k, op, k.utxos[op]);
    }
  }

  lemma AgainRows(k: Tables, tx: Tx, height: int, e: Tables)
    requires OutputsSettled(k, tx, height, e)
    requires forall op :: IsCredit(tx, k.adrs, op) ==> op in k.utxos
    requires forall op :: op in tx.ins ==> op !in k.utxos
    requires forall op :: op in k.utxos && IsCredit(tx, k.adrs, op) ==>
               NewUtxo(tx, op.index, height).value == k.utxos[op].value && !k.utxos[op].watchOnly
    ensures e.utxos.Keys == k.utxos.Keys && SameSpends(k.stxos, e.stxos)
    ensures forall op :: op in e.utxos ==>
            e.utxos[op].value == k.utxos[op].value && e.utxos[op].watchOnly == k.utxos[op].watchOnly
  {
    forall op ensures !IsDebit(k, tx, op) {}
  }

  lemma AgainSound(k: Tables, tx: Tx, height: int, e: Tables, rank: Txid -> nat)
    requires Sound(k, rank) && Again(k, tx, height, e, rank) && Keyed(e)
    requires e.utxos.Keys == k.utxos.Keys && SameSpends(k.stxos, e.stxos)
    requires forall op :: op in e.utxos ==>
             e.utxos[op].value == k.utxos[op].value && e.utxos[op].watchOnly == k.utxos[op].watchOnly
    ensures Sound(e, rank)
  {
    hide NetValue, Heights, Shares, OutputsSettled, Worth;
    assert forall t :: t in k.txns ==>
             e.txns[t].tx == k.txns[t].tx && e.txns[t].value == k.txns[t].value && (Live(e, t) <==> Live(k, t));
    assert e.txns.Keys == k.txns.Keys;
    SameRows(k, e);
  }

  /** Heights aside, the same rows. */
  lemma SameRows(k: Tables, e: Tables)
    requires e.utxos.Keys == k.utxos.Keys && SameSpends(k.stxos, e.stxos)
    requires forall op :: op in e.utxos ==>
             e.utxos[op].value == k.utxos[op].value && e.utxos[op].watchOnly == k.utxos[op].watchOnly
    requires e.txns.Keys == k.txns.Keys
    requires forall t :: t in k.txns ==>
             e.txns[t].tx == k.txns[t].tx && e.txns[t].value == k.txns[t].value && (Live(e, t) <==> Live(k, t))
    ensures RowsMatch(k) ==> RowsMatch(e)
    ensures UnspentIsUnspent(k) ==> UnspentIsUnspent(e)
    ensures ValuesExplained(k) ==> ValuesExplained(e)
    ensures NoLiveConflicts(k) ==> NoLiveConflicts(e)
  {
    hide Shares, RowsMatch, UnspentIsUnspent, ValuesExplained, NoLiveConflicts;
    SameRowsMatch(k, e);
    SameValues(k, e);
    SameUnspent(k, e);
  }

  lemma SameUnspent(k: Tables, e: Tables)
    requires e.utxos.Keys == k.utxos.Keys
    requires e.txns.Keys == k.txns.Keys
    requires forall t :: t in k.txns ==> e.txns[t].tx == k.txns[t].tx && (Live(e, t) <==> Live(k, t))
    ensures UnspentIsUnspent(k) ==> UnspentIsUnspent(e)
    ensures NoLiveConflicts(k) ==> NoLiveConflicts(e)
  {
    hide Shares;
  }

  lemma SameRowsMatch(k: Tables, e: Tables)
    requires e.utxos.Keys == k.utxos.Keys && SameSpends(k.stxos, e.stxos)
    requires forall op :: op in e.utxos ==>
             e.utxos[op].value == k.utxos[op].value && e.utxos[op].watchOnly == k.utxos[op].watchOnly
    requires e.txns.Keys == k.txns.Keys
    requires forall t :: t in k.txns ==> e.txns[t].tx == k.txns[t].tx && (Live(e, t) <==> Live(k, t))
    ensures RowsMatch(k) ==> RowsMatch(e)
  {
    if RowsMatch(k) {
      assert Held(e) == Held(k);
      forall op ensures OutValue(e.txns, op) == OutValue(k.txns, op) {}
      hide OutValue, Live, Held, ParentsLive, SpendersLive, RowsTrue;
      SameParents(k, e);
      SameSpenders(k, e);
      SameTruth(k, e);
    }
  }

  lemma SameParents(k: Tables, e: Tables)
    requires ParentsLive(k) && Held(e) == Held(k) && e.txns.Keys == k.txns.Keys
    requires forall t :: t in k.txns ==> e.txns[t].tx == k.txns[t].tx && (Live(e, t) <==> Live(k, t))
    ensures ParentsLive(e)
  {
    hide Held;
  }

  lemma SameSpenders(k: Tables, e: Tables)
    requires SpendersLive(k) && SameSpends(k.stxos, e.stxos) && e.txns.Keys == k.txns.Keys
    requires forall t :: t in k.txns ==> e.txns[t].tx == k.txns[t].tx && (Live(e, t) <==> Live(k, t))
    ensures SpendersLive(e)
  {
  }

  lemma SameTruth(k: Tables, e: Tables)
    requires RowsTrue(k) && e.utxos.Keys == k.utxos.Keys && SameSpends(k.stxos, e.stxos)
    requires forall op :: op in e.utxos ==>
             e.utxos[op].value == k.utxos[op].value && e.utxos[op].watchOnly == k.utxos[op].watchOnly
    requires forall op :: OutValue(e.txns, op) == OutValue(k.txns, op)
    ensures RowsTrue(e)
  {
    hide OutValue;
  }

  lemma SameValues(k: Tables, e: Tables)
    requires e.utxos.Keys == k.utxos.Keys && SameSpends(k.stxos, e.stxos)
    requires e.txns.Keys == k.txns.Keys
    requires forall t :: t in k.txns ==>
             e.txns[t].tx == k.txns[t].tx && e.txns[t].value == k.txns[t].value && (Live(e, t) <==> Live(k, t))
    ensures ValuesExplained(k) ==> ValuesExplained(e)
  {
    if ValuesExplained(k) {
      forall t | Live(e, t)
        ensures e.txns[t].value == Worth(e.txns, CreatedBy(e, t)) - Worth(e.txns, SpentBy(e, t))
      {
        assert Live(k, t);
        assert CreatedBy(e, t) == CreatedBy(k, t) && SpentBy(e, t) == SpentBy(k, t);
        WorthCong(e.txns, k.txns, CreatedBy(k, t));
        WorthCong(e.txns, k.txns, SpentBy(k, t));
      }
    }
  }

  // ---------------------------------------------------------------------------
  // Runs
  // ---------------------------------------------------------------------------

  /** The tables that tx is settled on: those with the descendants of its conflicts undone. */
  ghost function WithoutConflicts(s: Tables, tx: Tx): Tables {
    Kill(s, Descendants(s.stxos, Conflicts(s, tx)))
  }

  /** A call that moves an output or a spend height of the wallet. */
  ghost predicate Touching(s: Tables, event: Event) {
    Processed(s, event) && Moves(WithoutConflicts(s, event.tx), event.tx, event.height)
  }

  /** What the wallet's callers must respect when they add a transaction; calls that move nothing bind to nothing. */
  ghost predicate Orderly(s: Tables, event: Event, rank: Txid -> nat) {
    && (Processed(s, event) ==> RankedTx(event.tx, rank))
    && (Touching(s, event) ==>
         && event.height >= 0
         && HashBinds(s, event)
         && (event.tx.id in s.txns && !Live(s, event.tx.id) ==>
              SameWorth(WithoutConflicts(s, event.tx), event.tx, event.height))
         && NoLiveChild(s, event.tx))
  }

  /** A live transaction added again already has its own outputs in the tables. */
  ghost predicate CreditedBefore(s: Tables, event: Event) {
    Processed(s, event) && Live(s, event.tx.id) ==> forall op :: IsCredit(event.tx, s.adrs, op) ==> op in Held(s)
  }

  /** What settling needs of a transaction that moves something. */
  ghost predicate Admissible(k: Tables, tx: Tx, height: int) {
    && height >= 0 && Distinct(tx.ins) && NoLiveChild(k, tx)
    && (tx.id in k.txns ==> k.txns[tx.id].tx == tx)
    && (tx.id in k.txns && !Live(k, tx.id) ==> SameWorth(k, tx, height))
    && (Live(k, tx.id) ==> forall op :: IsCredit(tx, k.adrs, op) ==> op in Held(k))
    && (forall t :: Live(k, t) && t != tx.id ==> !Shares(k.txns[t].tx, tx))
  }

  lemma SettleKeepsSound(k: Tables, tx: Tx, height: int, pick: Option<OutPoint>, keyAdrs: seq<Script>,
                         rank: Txid -> nat)
    requires Sound(k, rank) && RankedTx(tx, rank) && (Moves(k, tx, height) ==> Admissible(k, tx, height))
    requires Pick(Debited(Credited(k, tx, height), tx, height), tx.id, height, pick)
    ensures Sound(Settled(k, tx, height, pick, keyAdrs), rank)
  {
    hide Settled, Credited, Debited, Relevant, OutputsSettled, RowSettled, RowsMatch, UnspentIsUnspent, ValuesExplained,
         NoLiveConflicts, Keyed, NoLiveChild, Held, RankedSpends, IsCredit, IsDebit, Moves;
    var e := Settled(k, tx, height, pick, keyAdrs);
    assert SpendsOthers(tx);
    RelevantIffMoves(k, tx, height, pick);
    SettledShape(k, tx, height, pick, keyAdrs);
    SettledKeyed(k, tx, height, pick, keyAdrs);
    if !Relevant(k, tx, height, pick) {
      NothingSettled(k, tx, height, e);
      SameKeepsSound(k, e, rank);
    } else {
      SettledConflicts(k, tx, height, pick, keyAdrs);
      if Live(k, tx.id) {
        AgainKeepsSound(k, tx, height, e, rank);
      } else {
        FreshKeepsSound(k, tx, height, e, rank);
      }
    }
  }

  lemma FreshKeepsSound(k: Tables, tx: Tx, height: int, e: Tables, rank: Txid -> nat)
    requires Sound(k, rank) && Fresh(k, tx, height, e, rank) && Keyed(e) && NoLiveConflicts(e)
    ensures Sound(e, rank)
  {
    hide Fresh, RowsMatch, UnspentIsUnspent, ValuesExplained, NoLiveConflicts, Keyed;
    assert ParentsLive(k) by { RowsParents(k); }
    FreshKeepsRows(k, tx, height, e, rank);
    FreshKeepsUnspent(k, tx, height, e, rank);
    FreshKeepsShape(k, tx, height, e, rank);
    FreshKeepsValues(k, tx, height, e, rank);
  }

  lemma RowsParents(k: Tables)
    requires RowsMatch(k)
    ensures ParentsLive(k)
  {
  }

  lemma NothingSettled(k: Tables, tx: Tx, height: int, e: Tables)
    requires SettledFrom(k, tx, height, e, false)
    ensures SameTables(k, e)
  {
    hide NewUtxo, Own;
    assert forall op :: !IsCredit(tx, k.adrs, op) && !IsDebit(k, tx, op);
    assert e.utxos == k.utxos;
  }

  lemma AddKeepsSound(s: Tables, event: Event, e: Tables, rank: Txid -> nat)
    requires event.Add? && Sound(s, rank) && Orderly(s, event, rank) && CreditedBefore(s, event) && Step(s, event, e)
    ensures Sound(e, rank)
  {
    hide Settled, Pick, Debited, Credited, Sound, Admissible, Moves, Step, Ignored, Conflicts, WithoutConflicts,
         Cleared;
    var k, pick := Process(s, event, e);
    if Processed(s, event) {
      ClearedExactly(s, event.tx, k, rank);
      ClearedIsSound(s, event.tx, rank);
      if Moves(k, event.tx, event.height) {
        KilledPremises(s, event, rank);
      }
      SettleKeepsSound(k, event.tx, event.height, pick, event.keyAdrs, rank);
    }
  }

  /** In a sound wallet conflicts are undone exactly. */
  lemma ClearedExactly(s: Tables, tx: Tx, k: Tables, rank: Txid -> nat)
    requires Sound(s, rank) && Cleared(s, Conflicts(s, tx), k)
    ensures k == WithoutConflicts(s, tx)
  {
    hide Conflicts, Kill, UnspentIsUnspent, ValuesExplained, RowsTrue, ParentsLive, NoLiveConflicts;
    SoundIsConsistent(s, rank);
    RankedIsAcyclic(s.stxos, rank);
  }

  /** What is settled on is sound, and conflicts with the transaction no more. */
  lemma ClearedIsSound(s: Tables, tx: Tx, rank: Txid -> nat)
    requires Sound(s, rank)
    ensures var k := WithoutConflicts(s, tx);
            Sound(k, rank) && forall t :: Live(k, t) && t != tx.id ==> !Shares(k.txns[t].tx, tx)
  {
    hide RowsMatch, UnspentIsUnspent, ValuesExplained, Shares, Keyed, RankedSpends, NoLiveConflicts;
    KillKeepsSound(s, Descendants(s.stxos, Conflicts(s, tx)), rank);
    var k := WithoutConflicts(s, tx);
    forall t | Live(k, t) && t != tx.id ensures !Shares(k.txns[t].tx, tx) {
      assert Live(s, t) && t !in Conflicts(s, tx);
    }
  }

  /** The caller's premises still hold once the conflicts are undone. */
  lemma KilledPremises(s: Tables, event: Event, rank: Txid -> nat)
    requires Touching(s, event) && Sound(s, rank) && Orderly(s, event, rank) && CreditedBefore(s, event)
    ensures Admissible(WithoutConflicts(s, event.tx), event.tx, event.height)
  {
    hide Shares, IsCredit, RowsMatch, UnspentIsUnspent, ValuesExplained, NetValue, Moves, Known;
    var tx, k := event.tx, WithoutConflicts(s, event.tx);
    ClearedIsSound(s, tx, rank);
    forall t, op | Live(k, t) && op in k.txns[t].tx.ins ensures !IsCredit(tx, k.adrs, op) {
      assert Live(s, t) && op in s.txns[t].tx.ins;
    }
    if Live(s, tx.id) {
      assert Conflicts(s, tx) == {} by { LiveHasNoConflicts(s, tx); }
      KillNothing(s);
    }
  }

  lemma SoundIsConsistent(s: Tables, rank: Txid -> nat)
    requires Sound(s, rank)
    ensures Consistent(s)
  {
    assert SpendersLive(s);
  }

  lemma LiveHasNoConflicts(s: Tables, tx: Tx)
    requires NoLiveConflicts(s) && Live(s, tx.id) && s.txns[tx.id].tx == tx
    ensures Conflicts(s, tx) == {}
  {
    forall t | t in Conflicts(s, tx) ensures false {
      assert Live(s, t);
    }
  }

  lemma FreezeKeepsSound(s: Tables, op: OutPoint, frozen: bool, rank: Txid -> nat)
    requires Sound(s, rank)
    ensures Sound(SetFrozen(s, op, frozen), rank)
  {
    hide RowsMatch, UnspentIsUnspent, ValuesExplained, NoLiveConflicts, Keyed;
    FreezeKeyed(s, op, frozen);
    SameRows(s, SetFrozen(s, op, frozen));
  }

  lemma FreezeKeyed(s: Tables, op: OutPoint, frozen: bool)
    requires Keyed(s)
    ensures Keyed(SetFrozen(s, op, frozen))
  {
  }

  lemma RestartKeepsSound(s: Tables, keyAdrs: seq<Script>, rank: Txid -> nat)
    requires Sound(s, rank)
    ensures Sound(Reopened(s, keyAdrs), rank)
  {
    hide RowsMatch, UnspentIsUnspent, ValuesExplained, NoLiveConflicts;
    SameRows(s, Reopened(s, keyAdrs));
  }

  lemma EmptyIsSound(adrs: seq<Script>, keepsFrozen: bool, rank: Txid -> nat)
    ensures Sound(Empty(adrs, keepsFrozen), rank)
  {
  }

  /** Over every orderly run the unspent outputs hold exactly what the live transactions brought in. */
  lemma {:induction false} Conserved(states: seq<Tables>, events: seq<Event>, rank: Txid -> nat)
    requires Run(states, events)
    requires forall i :: 0 <= i < |events| ==>
             Orderly(states[i], events[i], rank) && CreditedBefore(states[i], events[i])
    ensures Sound(states[|events|], rank) && Balanced(states[|events|])
    decreases |events|
  {
    hide Sound, Orderly, CreditedBefore, Balanced, Step;
    if events == [] {
      var adrs, keepsFrozen :| states[0] == Empty(adrs, keepsFrozen);
      EmptyIsSound(adrs, keepsFrozen, rank);
    } else {
      var n := |events| - 1;
      assert Run(states[..n + 1], events[..n]);
      Conserved(states[..n + 1], events[..n], rank);
      StepKeepsSound(states[n], events[n], states[n + 1], rank);
    }
    SoundIsBalanced(states[|events|], rank);
  }

  lemma StepKeepsSound(s: Tables, event: Event, e: Tables, rank: Txid -> nat)
    requires Sound(s, rank) && Orderly(s, event, rank) && CreditedBefore(s, event) && Step(s, event, e)
    ensures Sound(e, rank)
  {
    hide Sound, Orderly, CreditedBefore;
    match event
    case Add(_, _, _) => AddKeepsSound(s, event, e, rank);
    case Freeze(op) => FreezeKeepsSound(s, op, true, rank);
    case UnFreeze(op) => FreezeKeepsSound(s, op, false, rank);
    case Restart(keyAdrs) => RestartKeepsSound(s, keyAdrs, rank);
  }
}
