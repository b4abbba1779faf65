/** The wallet tables and the values their operations compute. */
module Ledger {
  import KeyTables

  /** A transaction hash; only equality matters. */
  datatype Txid = Txid(number: nat)
  /** An output script: one that pays a key address, or some other. */
  datatype Script = PayTo(address: KeyTables.Address) | Other(number: nat)

  datatype OutPoint = OutPoint(hash: Txid, index: nat)

  datatype Utxo = Utxo(op: OutPoint, atHeight: int, value: int, script: Script, watchOnly: bool, frozen: bool)

  datatype Stxo = Stxo(utxo: Utxo, spendHeight: int, spendTxid: Txid)

  datatype TxOut = TxOut(value: int, script: Script)

  /** otherChecks tells whether the sanity checks that the ledger does not rely on pass. */
  datatype Tx = Tx(id: Txid, ins: seq<OutPoint>, outs: seq<TxOut>, otherChecks: bool)

  /** A stored transaction; tx is the decoded raw bytes. A height below 0 means dead. */
  datatype Txn = Txn(tx: Tx, value: int, height: int, watchOnly: bool)

  /** The tables, keyed as both databases key them, with the height cache and the own scripts;
      keepsFrozen tells whether the table of spent outputs has a column for the frozen mark. */
  datatype Tables = Tables(
    utxos: map<OutPoint, Utxo>,
    stxos: map<OutPoint, Stxo>,
    txns: map<Txid, Txn>,
    txids: map<Txid, int>,
    adrs: seq<Script>,
    keepsFrozen: bool)

  /** An output as the table of spent outputs keeps it. */
  function Filed(s: Tables, u: Utxo): Utxo {
    if s.keepsFrozen then u else u.(frozen := false)
  }

  /** Every row sits under the key its own columns give. */
  ghost predicate Keyed(s: Tables) {
    && (forall op :: op in s.utxos ==> s.utxos[op].op == op)
    && (forall op :: op in s.stxos ==> s.stxos[op].utxo.op == op)
    && KeyedTxns(s.txns)
  }

  ghost predicate KeyedTxns(txns: map<Txid, Txn>) {
    forall t :: t in txns ==> txns[t].tx.id == t
  }

  predicate Live(s: Tables, t: Txid) {
    t in s.txns && s.txns[t].height >= 0
  }

  ghost predicate SpendersStored(s: Tables) {
    forall op :: op in s.stxos ==> s.stxos[op].spendTxid in s.txns
  }

  // ---------------------------------------------------------------------------
  // Descendants along the recorded spends
  // ---------------------------------------------------------------------------

  /** Closed under "spends an output of": the txid that spent an output of a member is a member. */
  ghost predicate Closed(stxos: map<OutPoint, Stxo>, e: set<Txid>) {
    forall op :: op in stxos && op.hash in e ==> stxos[op].spendTxid in e
  }

  ghost function Spenders(stxos: map<OutPoint, Stxo>): set<Txid> {
    set op | op in stxos :: stxos[op].spendTxid
  }

  /** The least closed set holding the roots. */
  ghost function Descendants(stxos: map<OutPoint, Stxo>, roots: set<Txid>): (d: set<Txid>)
    ensures roots <= d && Closed(stxos, d)
    ensures forall e :: Closed(stxos, e) && roots <= e ==> d <= e
  {
    var d := set x | x in roots + Spenders(stxos) && forall e :: Closed(stxos, e) && roots <= e ==> x in e;
    assert Closed(stxos, d) by {
      forall op | op in stxos && op.hash in d ensures stxos[op].spendTxid in d {
        assert stxos[op].spendTxid in Spenders(stxos);
      }
    }
    d
  }

  /** No recorded spend lies on a cycle. */
  ghost predicate Acyclic(stxos: map<OutPoint, Stxo>) {
    forall op :: op in stxos ==> op.hash !in Descendants(stxos, {stxos[op].spendTxid})
  }

  ghost predicate SubTable<K(!new), V(!new)>(a: map<K, V>, b: map<K, V>) {
    a.Keys <= b.Keys && forall k :: k in a ==> a[k] == b[k]
  }

  lemma DescendantsMonotone(a: map<OutPoint, Stxo>, b: map<OutPoint, Stxo>, r: set<Txid>, q: set<Txid>)
    requires SubTable(a, b) && r <= q
    ensures Descendants(a, r) <= Descendants(b, q)
  {
    assert Closed(a, Descendants(b, q));
  }

  lemma AcyclicSub(a: map<OutPoint, Stxo>, b: map<OutPoint, Stxo>)
    requires SubTable(a, b) && Acyclic(b)
    ensures Acyclic(a)
  {
    forall op | op in a ensures op.hash !in Descendants(a, {a[op].spendTxid}) {
      DescendantsMonotone(a, b, {a[op].spendTxid}, {b[op].spendTxid});
    }
  }

  /** Transactions ordered by a rank that grows along every spend have no cycles. */
  lemma RankedIsAcyclic(stxos: map<OutPoint, Stxo>, rank: Txid -> nat)
    requires forall op :: op in stxos ==> rank(op.hash) < rank(stxos[op].spendTxid)
    ensures Acyclic(stxos)
  {
    forall op | op in stxos ensures op.hash !in Descendants(stxos, {stxos[op].spendTxid}) {
      var c := stxos[op].spendTxid;
      var above := set x | x in {c} + Spenders(stxos) && rank(x) >= rank(c);
      assert Closed(stxos, above) by {
        forall o | o in stxos && o.hash in above ensures stxos[o].spendTxid in above {
          assert stxos[o].spendTxid in Spenders(stxos);
        }
      }
    }
  }

  // ---------------------------------------------------------------------------
  // Undoing a closed set of transactions
  // ---------------------------------------------------------------------------

  ghost function KilledUtxos(s: Tables, d: set<Txid>): map<OutPoint, Utxo> {
    map op | op in s.utxos.Keys + s.stxos.Keys && op.hash !in d && (op in s.utxos || s.stxos[op].spendTxid in d) ::
      if op in s.stxos && s.stxos[op].spendTxid in d then s.stxos[op].utxo else s.utxos[op]
  }

  ghost function KilledStxos(s: Tables, d: set<Txid>): map<OutPoint, Stxo> {
    map op | op in s.stxos && s.stxos[op].spendTxid !in d :: s.stxos[op]
  }

  ghost function KilledTxns(s: Tables, d: set<Txid>): map<Txid, Txn> {
    map t | t in s.txns :: if t in d then s.txns[t].(height := -1) else s.txns[t]
  }

  /** The tables with the transactions of d undone: their outputs are gone, the outputs they
      spent are unspent again unless created in d, their stored heights are -1. */
  ghost function Kill(s: Tables, d: set<Txid>): Tables {
    s.(utxos := KilledUtxos(s, d), stxos := KilledStxos(s, d), txns := KilledTxns(s, d))
  }

  lemma KillKeyed(s: Tables, d: set<Txid>)
    requires Keyed(s)
    ensures Keyed(Kill(s, d))
  {
  }

  /** Undoing r after d is undoing everything below both at once. */
  lemma KillCompose(s: Tables, roots: set<Txid>, r: Txid)
    ensures var k := Kill(s, Descendants(s.stxos, roots));
            Kill(k, Descendants(k.stxos, {r})) == Kill(s, Descendants(s.stxos, roots + {r}))
  {
    var d := Descendants(s.stxos, roots);
    var rest := KilledStxos(s, d);
    DescendantsCompose(s.stxos, rest, roots, r);
    KillTwice(s, d, Descendants(rest, {r}));
  }

  lemma DescendantsCompose(stxos: map<OutPoint, Stxo>, rest: map<OutPoint, Stxo>, roots: set<Txid>, r: Txid)
    requires SubTable(rest, stxos)
    requires forall op :: op in stxos && op !in rest ==> stxos[op].spendTxid in Descendants(stxos, roots)
    ensures Descendants(stxos, roots) + Descendants(rest, {r}) == Descendants(stxos, roots + {r})
  {
    DescendantsMonotone(stxos, stxos, roots, roots + {r});
    DescendantsMonotone(rest, stxos, {r}, roots + {r});
    assert Closed(stxos, Descendants(stxos, roots) + Descendants(rest, {r}));
  }

  lemma KillTwice(s: Tables, d: set<Txid>, e: set<Txid>)
    requires Closed(s.stxos, d)
    ensures Kill(Kill(s, d), e) == Kill(s, d + e)
  {
    var k := Kill(s, d);
    assert KilledStxos(k, e) == KilledStxos(s, d + e);
    assert KilledTxns(k, e) == KilledTxns(s, d + e);
    KillUtxosTwice(s, d, e);
  }

  lemma KillUtxosTwice(s: Tables, d: set<Txid>, e: set<Txid>)
    requires Closed(s.stxos, d)
    ensures KilledUtxos(Kill(s, d), e) == KilledUtxos(s, d + e)
  {
    hide KilledTxns;
    forall op ensures op in KilledUtxos(Kill(s, d), e) <==> op in KilledUtxos(s, d + e) {
      if op in s.stxos && op.hash in d { assert s.stxos[op].spendTxid in d; }
    }
  }

  lemma KillNothing(s: Tables)
    ensures Descendants(s.stxos, {}) == {} && Kill(s, {}) == s
  {
    assert Closed(s.stxos, {});
    assert KilledUtxos(s, {}) == s.utxos;
    assert KilledStxos(s, {}) == s.stxos;
    assert KilledTxns(s, {}) == s.txns;
  }
}
