/** What adding one transaction does to the tables, apart from undoing its conflicts. */
module Adding {
  import opened Options
  import opened Ledger
  import opened Undo

  const MAX_SATOSHI: int := 21_000_000 * 100_000_000

  ghost predicate Distinct<T(!new)>(xs: seq<T>) {
    forall i, j :: 0 <= i < j < |xs| ==> xs[i] != xs[j]
  }

  ghost function Elements<T>(xs: seq<T>): set<T> {
    set x | x in xs
  }

  function TotalOut(outs: seq<TxOut>): int {
    if outs == [] then 0 else TotalOut(outs[..|outs| - 1]) + outs[|outs| - 1].value
  }

  /** The total of one output is its value, and totals add up. */
  lemma {:induction false} TotalAdds(a: seq<TxOut>, b: seq<TxOut>)
    ensures TotalOut(a + b) == TotalOut(a) + TotalOut(b)
    ensures |b| == 1 ==> TotalOut(b) == b[0].value
    decreases |b|
  {
    if b == [] {
      assert a + b == a;
    } else {
      var n := |b| - 1;
      assert (a + b)[..|a| + n] == a + b[..n] && b == b[..n] + [b[n]];
      TotalAdds(a, b[..n]);
    }
  }

  /** The context-free checks every transaction passes first. */
  ghost predicate Sane(tx: Tx) {
    && tx.ins != [] && tx.outs != []
    && Distinct(tx.ins)
    && (forall o :: o in tx.outs ==> 0 <= o.value <= MAX_SATOSHI)
    && TotalOut(tx.outs) <= MAX_SATOSHI
    && tx.otherChecks
  }

  /** Already processed up to its confirmed state, by the height cache. */
  predicate Known(s: Tables, tx: Tx, height: int) {
    tx.id in s.txids && (s.txids[tx.id] > 0 || (s.txids[tx.id] == 0 && height == 0))
  }

  predicate Shares(a: Tx, b: Tx) {
    exists op :: op in a.ins && op in b.ins
  }

  /** The stored live transactions, other than tx itself, that spend an outpoint tx spends. */
  ghost function Conflicts(s: Tables, tx: Tx): set<Txid> {
    set t | t in s.txns && s.txns[t].height >= 0 && t != tx.id && Shares(s.txns[t].tx, tx)
  }

  // ---------------------------------------------------------------------------
  // Outputs
  // ---------------------------------------------------------------------------

  predicate Own(tx: Tx, adrs: seq<Script>, i: nat) {
    i < |tx.outs| && tx.outs[i].script in adrs
  }

  function NewUtxo(tx: Tx, i: nat, height: int): Utxo
    requires i < |tx.outs|
  {
    Utxo(OutPoint(tx.id, i), height, tx.outs[i].value, tx.outs[i].script, false, false)
  }

  function Credits(tx: Tx, adrs: seq<Script>, height: int, n: nat): map<OutPoint, Utxo>
    requires n <= |tx.outs|
  {
    map i: nat | i < n && Own(tx, adrs, i) :: OutPoint(tx.id, i) := NewUtxo(tx, i, height)
  }

  function CreditValue(tx: Tx, adrs: seq<Script>, n: nat): int
    requires n <= |tx.outs|
  {
    if n == 0 then 0 else
      CreditValue(tx, adrs, n - 1) + if Own(tx, adrs, n - 1) then tx.outs[n - 1].value else 0
  }

  function CreditHits(tx: Tx, adrs: seq<Script>, n: nat): nat
    requires n <= |tx.outs|
  {
    if n == 0 then 0 else
      CreditHits(tx, adrs, n - 1) + if Own(tx, adrs, n - 1) then 1 else 0
  }

  function Credited(s: Tables, tx: Tx, height: int): Tables {
    s.(utxos := s.utxos + Credits(tx, s.adrs, height, |tx.outs|))
  }

  // ---------------------------------------------------------------------------
  // Inputs
  // ---------------------------------------------------------------------------

  function Spent(utxos: map<OutPoint, Utxo>, ins: seq<OutPoint>): set<OutPoint> {
    set op | op in ins && op in utxos
  }

  function Debits(s: Tables, ins: seq<OutPoint>, height: int, spender: Txid): map<OutPoint, Stxo> {
    map op | op in Spent(s.utxos, ins) :: Stxo(Filed(s, s.utxos[op]), height, spender)
  }

  function DebitValue(utxos: map<OutPoint, Utxo>, ins: seq<OutPoint>, n: nat): int
    requires n <= |ins|
  {
    if n == 0 then 0 else
      DebitValue(utxos, ins, n - 1)
      + if ins[n - 1] in utxos && !utxos[ins[n - 1]].watchOnly then utxos[ins[n - 1]].value else 0
  }

  function DebitHits(utxos: map<OutPoint, Utxo>, ins: seq<OutPoint>, n: nat): nat
    requires n <= |ins|
  {
    if n == 0 then 0 else
      DebitHits(utxos, ins, n - 1)
      + if ins[n - 1] in utxos && !utxos[ins[n - 1]].watchOnly then 1 else 0
  }

  function Debited(s: Tables, tx: Tx, height: int): Tables {
    s.(utxos := s.utxos - Spent(s.utxos, tx.ins), stxos := s.stxos + Debits(s, tx.ins, height, tx.id))
  }

  // ---------------------------------------------------------------------------
  // The spend height and the stored row
  // ---------------------------------------------------------------------------

  /** The first spend of tx in table order gets its height; which one that is, is up to the table. */
  ghost predicate Pick(s: Tables, t: Txid, height: int, pick: Option<OutPoint>) {
    match pick
    case None => height <= 0 || forall op :: op in s.stxos ==> s.stxos[op].spendTxid != t
    case Some(op) => height > 0 && op in s.stxos && s.stxos[op].spendTxid == t
  }

  function Reheighted(s: Tables, pick: Option<OutPoint>, height: int): Tables
    requires pick.Some? ==> pick.value in s.stxos
  {
    match pick
    case None => s
    case Some(op) => s.(stxos := s.stxos[op := s.stxos[op].(spendHeight := height)])
  }

  function PickHits(s: Tables, pick: Option<OutPoint>): nat
    requires pick.Some? ==> pick.value in s.stxos
  {
    if pick.Some? && !s.stxos[pick.value].utxo.watchOnly then 1 else 0
  }

  function Heights(txns: map<Txid, Txn>): map<Txid, int> {
    map t | t in txns :: txns[t].height
  }

  /** The own scripts and the height cache read back from the stores. */
  function Populated(s: Tables, keyAdrs: seq<Script>): Tables {
    s.(adrs := keyAdrs, txids := s.txids + Heights(s.txns))
  }

  function Recorded(s: Tables, tx: Tx, value: int, height: int, watchOnly: bool): Tables {
    if tx.id !in s.txns then
      s.(txns := s.txns[tx.id := Txn(tx, value, height, watchOnly)], txids := s.txids[tx.id := height])
    else if s.txns[tx.id].height <= 0 then
      s.(txns := WithHeight(s.txns, tx.id, height), txids := s.txids[tx.id := height])
    else s
  }

  /** The net value of tx for the wallet, were it processed on the tables s. */
  function NetValue(s: Tables, tx: Tx, height: int): int {
    CreditValue(tx, s.adrs, |tx.outs|) - DebitValue(Credited(s, tx, height).utxos, tx.ins, |tx.ins|)
  }

  function Hits(s: Tables, tx: Tx, height: int, pick: Option<OutPoint>): nat
    requires pick.Some? ==> pick.value in Debited(Credited(s, tx, height), tx, height).stxos
  {
    CreditHits(tx, s.adrs, |tx.outs|) + DebitHits(Credited(s, tx, height).utxos, tx.ins, |tx.ins|)
    + PickHits(Debited(Credited(s, tx, height), tx, height), pick)
  }

  /** Whether tx touches the wallet at all. */
  predicate Relevant(s: Tables, tx: Tx, height: int, pick: Option<OutPoint>) {
    || (exists i: nat :: i < |tx.outs| && Own(tx, s.adrs, i))
    || Spent(Credited(s, tx, height).utxos, tx.ins) != {}
    || pick.Some?
  }

  /** The tables after outputs, inputs, spend height and row of tx have been processed. */
  function Settled(s: Tables, tx: Tx, height: int, pick: Option<OutPoint>, keyAdrs: seq<Script>): Tables
    requires pick.Some? ==> pick.value in Debited(Credited(s, tx, height), tx, height).stxos
  {
    var e := Reheighted(Debited(Credited(s, tx, height), tx, height), pick, height);
    if Relevant(s, tx, height, pick) then
      Populated(Recorded(e, tx, NetValue(s, tx, height), height, Hits(s, tx, height, pick) == 0), keyAdrs)
    else e
  }

  /** The conflicts have been undone: exactly, where undoing is exact. */
  ghost predicate Cleared(s: Tables, conflicts: set<Txid>, k: Tables) {
    && Shrinks(s, k)
    && (SpendersStored(s) ==> forall t :: t in conflicts && t in k.txns ==> k.txns[t].height == -1)
    && (Exact(s) ==> k == Kill(s, Descendants(s.stxos, conflicts)))
  }

  ghost predicate Settles(k: Tables, tx: Tx, height: int, keyAdrs: seq<Script>, e: Tables, hits: nat) {
    exists pick ::
      && Pick(Debited(Credited(k, tx, height), tx, height), tx.id, height, pick)
      && e == Settled(k, tx, height, pick, keyAdrs)
      && hits == Hits(k, tx, height, pick) + if Relevant(k, tx, height, pick) then 1 else 0
  }

  /** The calls that leave every table as it is: insane, known, or losing to a first-seen spend. */
  ghost predicate Ignored(s: Tables, tx: Tx, height: int) {
    !Sane(tx) || Known(s, tx, height) || (height == 0 && Conflicts(s, tx) != {})
  }

  /** One call of AddTransaction and the number of hits it reports. */
  ghost predicate Added(s: Tables, tx: Tx, height: int, keyAdrs: seq<Script>, e: Tables, hits: nat) {
    if Ignored(s, tx, height) then e == s && hits == if Sane(tx) && Known(s, tx, height) then 1 else 0
    else exists k :: Cleared(s, Conflicts(s, tx), k) && Settles(k, tx, height, keyAdrs, e, hits)
  }

  // ---------------------------------------------------------------------------
  // Steps of the loops
  // ---------------------------------------------------------------------------

  lemma CreditsStart(was: map<OutPoint, Utxo>, tx: Tx, adrs: seq<Script>, height: int)
    ensures was + Credits(tx, adrs, height, 0) == was
    ensures CreditValue(tx, adrs, 0) == 0 && CreditHits(tx, adrs, 0) == 0
  {
  }

  lemma CreditsStep(was: map<OutPoint, Utxo>, tx: Tx, adrs: seq<Script>, height: int, i: nat)
    requires i < |tx.outs|
    ensures var a, b := was + Credits(tx, adrs, height, i), was + Credits(tx, adrs, height, i + 1);
            b == if tx.outs[i].script in adrs then a[OutPoint(tx.id, i) := NewUtxo(tx, i, height)] else a
  {
    CreditsGrow(tx, adrs, height, i);
    hide Credits, NewUtxo;
  }

  lemma CreditsGrow(tx: Tx, adrs: seq<Script>, height: int, i: nat)
    requires i < |tx.outs|
    ensures var a, b := Credits(tx, adrs, height, i), Credits(tx, adrs, height, i + 1);
            b == if Own(tx, adrs, i) then a[OutPoint(tx.id, i) := NewUtxo(tx, i, height)] else a
  {
    var a, b := Credits(tx, adrs, height, i), Credits(tx, adrs, height, i + 1);
    hide Own, NewUtxo;
    forall op: OutPoint | op != OutPoint(tx.id, i) ensures op in a <==> op in b {}
    assert b == if Own(tx, adrs, i) then a[OutPoint(tx.id, i) := NewUtxo(tx, i, height)] else a;
  }

  lemma OwnOutputs(tx: Tx, adrs: seq<Script>, n: nat)
    requires n <= |tx.outs|
    ensures CreditHits(tx, adrs, n) > 0 <==> exists i: nat :: i < n && Own(tx, adrs, i)
  {
    if n > 0 && Own(tx, adrs, n - 1) {
      assert exists i: nat :: i < n && Own(tx, adrs, i);
    }
  }

  lemma SpentStart(s: Tables, ins: seq<OutPoint>, height: int, spender: Txid)
    ensures Spent(s.utxos, ins[..0]) == {} && s.utxos - Spent(s.utxos, ins[..0]) == s.utxos
    ensures s.stxos + Debits(s, ins[..0], height, spender) == s.stxos
    ensures DebitValue(s.utxos, ins, 0) == 0 && DebitHits(s.utxos, ins, 0) == 0
  {
  }

  lemma SpentStep(utxos: map<OutPoint, Utxo>, ins: seq<OutPoint>, i: nat)
    requires i < |ins| && Distinct(ins)
    ensures var op, a, b := ins[i], ins[..i], ins[..i + 1];
            && op !in Spent(utxos, a)
            && Spent(utxos, b) == (if op in utxos then Spent(utxos, a) + {op} else Spent(utxos, a))
            && utxos - Spent(utxos, b)
               == (if op in utxos then utxos - Spent(utxos, a) - {op} else utxos - Spent(utxos, a))
  {
    var op, a, b := ins[i], ins[..i], ins[..i + 1];
    assert b == a + [op];
    assert Spent(utxos, b) == if op in utxos then Spent(utxos, a) + {op} else Spent(utxos, a);
  }

  lemma DebitsStep(s: Tables, ins: seq<OutPoint>, i: nat, height: int, spender: Txid)
    requires i < |ins| && Distinct(ins)
    ensures var op, x, y := ins[i], Debits(s, ins[..i], height, spender), Debits(s, ins[..i + 1], height, spender);
            s.stxos + y == if op in s.utxos then (s.stxos + x)[op := Stxo(Filed(s, s.utxos[op]), height, spender)]
                           else s.stxos + x
  {
    DebitsGrow(s, ins, i, height, spender);
    hide Debits, Filed;
  }

  lemma DebitsGrow(s: Tables, ins: seq<OutPoint>, i: nat, height: int, spender: Txid)
    requires i < |ins| && Distinct(ins)
    ensures var op, x, y := ins[i], Debits(s, ins[..i], height, spender), Debits(s, ins[..i + 1], height, spender);
            y == if op in s.utxos then x[op := Stxo(Filed(s, s.utxos[op]), height, spender)] else x
  {
    SpentStep(s.utxos, ins, i);
    hide Spent, Filed, Distinct;
  }

  lemma NothingCleared(s: Tables)
    ensures Cleared(s, {}, s)
  {
    KillNothing(s);
  }

  /** Undoing one more conflict. */
  lemma ClearOne(s: Tables, dead: set<Txid>, c: Tables, t: Txid, e: Tables)
    requires Keyed(s) && Cleared(s, dead, c)
    requires exists ok :: Undoes(c, t, e, ok)
    requires Exact(c) ==> e == Kill(c, Descendants(c.stxos, {t}))
    ensures Keyed(e) && Cleared(s, dead + {t}, e)
  {
    WalkedOn(s, t, {}, c, e);
    if Exact(s) {
      AcyclicSub(c.stxos, s.stxos);
      KillCompose(s, dead, t);
    }
  }

  lemma CreditedKeyed(s: Tables, tx: Tx, height: int)
    requires Keyed(s)
    ensures Keyed(Credited(s, tx, height))
  {
  }

  lemma DebitedKeyed(s: Tables, tx: Tx, height: int)
    requires Keyed(s)
    ensures Keyed(Debited(s, tx, height))
  {
  }

  lemma ReheightedKeyed(s: Tables, pick: Option<OutPoint>, height: int)
    requires Keyed(s) && (pick.Some? ==> pick.value in s.stxos)
    ensures Keyed(Reheighted(s, pick, height))
  {
  }

  lemma HeightKeyed(txns: map<Txid, Txn>, t: Txid, height: int)
    requires KeyedTxns(txns)
    ensures KeyedTxns(WithHeight(txns, t, height))
  {
  }

  lemma PutKeyed(txns: map<Txid, Txn>, row: Txn)
    requires KeyedTxns(txns)
    ensures KeyedTxns(txns[row.tx.id := row])
  {
  }

  lemma RecordedKeyed(s: Tables, tx: Tx, value: int, height: int, watchOnly: bool, keyAdrs: seq<Script>)
    requires Keyed(s)
    ensures Keyed(Populated(Recorded(s, tx, value, height, watchOnly), keyAdrs))
  {
    HeightKeyed(s.txns, tx.id, height);
    PutKeyed(s.txns, Txn(tx, value, height, watchOnly));
    hide Heights, WithHeight, KeyedTxns;
  }

  lemma SettledKeyed(k: Tables, tx: Tx, height: int, pick: Option<OutPoint>, keyAdrs: seq<Script>)
    requires Keyed(k) && Pick(Debited(Credited(k, tx, height), tx, height), tx.id, height, pick)
    ensures Keyed(Settled(k, tx, height, pick, keyAdrs))
  {
    hide Keyed, Credited, Debited, Relevant, NetValue, Hits, Recorded, Populated, Reheighted;
    CreditedKeyed(k, tx, height);
    DebitedKeyed(Credited(k, tx, height), tx, height);
    var d := Debited(Credited(k, tx, height), tx, height);
    ReheightedKeyed(d, pick, height);
    RecordedKeyed(Reheighted(d, pick, height), tx, NetValue(k, tx, height), height, Hits(k, tx, height, pick) == 0,
      keyAdrs);
  }

  lemma AddedKeyed(s: Tables, tx: Tx, k: Tables, height: int, keyAdrs: seq<Script>, e: Tables, hits: nat)
    requires Keyed(s) && !Ignored(s, tx, height)
    requires Cleared(s, Conflicts(s, tx), k) && Settles(k, tx, height, keyAdrs, e, hits)
    ensures Added(s, tx, height, keyAdrs, e, hits) && Keyed(e)
  {
    hide Settled, Exact, Debited, Credited;
    var pick :| Pick(Debited(Credited(k, tx, height), tx, height), tx.id, height, pick)
      && e == Settled(k, tx, height, pick, keyAdrs);
    SettledKeyed(k, tx, height, pick, keyAdrs);
  }
}
