/** The transaction store: the tables changed in place. */
module TxStores {
  import opened Adding
  import opened Ledger
  import opened Options
  import opened Undo
  import Keys
  import KeyTables

  /** The addresses that the first n outputs of tx pay, as far as they are ours. */
  function PaidTo(tx: Tx, adrs: seq<Script>, n: nat): seq<KeyTables.Address>
    requires n <= |tx.outs|
  {
    if n == 0 then []
    else if Own(tx, adrs, n - 1) && tx.outs[n - 1].script.PayTo? then
      PaidTo(tx, adrs, n - 1) + [tx.outs[n - 1].script.address]
    else PaidTo(tx, adrs, n - 1)
  }

  lemma {:induction false} PaidIff(tx: Tx, adrs: seq<Script>, n: nat, a: KeyTables.Address)
    requires n <= |tx.outs|
    ensures a in PaidTo(tx, adrs, n) <==> exists i :: 0 <= i < n && tx.outs[i].script == PayTo(a) && PayTo(a) in adrs
  {
    if n > 0 {
      PaidIff(tx, adrs, n - 1, a);
    }
  }

  /** Adding a transaction uses the keys that its own outputs pay, and no other key stored before. */
  lemma PaidKeysAreUsed(kind: KeyTables.Kind, derive: KeyTables.Derivation, rows: seq<KeyTables.KeyRec>, tx: Tx,
                        adrs: seq<Script>, after: seq<KeyTables.KeyRec>, a: KeyTables.Address)
    requires KeyTables.MarkedInTurn(kind, derive, rows, PaidTo(tx, adrs, |tx.outs|), after) && KeyTables.Known(rows, a)
    ensures KeyTables.UsedKey(after, a) <==>
            || KeyTables.UsedKey(rows, a)
            || exists i :: 0 <= i < |tx.outs| && tx.outs[i].script == PayTo(a) && PayTo(a) in adrs
  {
    hide PaidTo, KeyTables.UsedKey, KeyTables.MarkedInTurn;
    PaidIff(tx, adrs, |tx.outs|, a);
    KeyTables.TurnUses(kind, derive, rows, PaidTo(tx, adrs, |tx.outs|), after, a);
  }

  /** The scripts that pay the keys of the table. */
  ghost predicate AllScripts(adrs: seq<Script>, rows: seq<KeyTables.KeyRec>) {
    forall x :: x in adrs <==> x.PayTo? && KeyTables.Known(rows, x.address)
  }

  ghost predicate OnlyKeys(adrs: seq<Script>, rows: seq<KeyTables.KeyRec>) {
    forall x :: x in adrs ==> x.PayTo? && KeyTables.Known(rows, x.address)
  }

  lemma OneMoreMark(km: Keys.KeyManager, was: seq<KeyTables.KeyRec>, marks: seq<KeyTables.Address>,
                    mid: seq<KeyTables.KeyRec>, a: KeyTables.Address, after: seq<KeyTables.KeyRec>)
    requires KeyTables.MarkedInTurn(km.store.kind, km.derive, was, marks, mid)
    requires KeyTables.MarkStep(km.store.kind, km.derive, mid, a, after)
    ensures KeyTables.MarkedInTurn(km.store.kind, km.derive, was, marks + [a], after)
  {
    hide KeyTables.MarkStep;
    assert (marks + [a])[..|marks|] == marks;
  }

  lemma FewerRows<K, V>(a: map<K, V>, b: map<K, V>, k: K)
    requires a.Keys <= b.Keys && k in b && k !in a
    ensures |a| < |b|
  {
    SmallerSet(a.Keys, b.Keys - {k});
  }

  lemma {:induction false} SmallerSet<K>(a: set<K>, b: set<K>)
    requires a <= b
    ensures |a| <= |b|
    decreases |a|
  {
    if a != {} {
      var x :| x in a;
      SmallerSet(a - {x}, b - {x});
    }
  }

  class TxStore {
    var utxos: map<OutPoint, Utxo>
    var stxos: map<OutPoint, Stxo>
    var txns: map<Txid, Txn>
    var txids: map<Txid, int>
    var adrs: seq<Script>
    const km: Keys.KeyManager

    /** bolt keeps the frozen mark of a spent output, sqlite has no column for it. */
    ghost function State(): Tables
      reads this
    {
      Tables(utxos, stxos, txns, txids, adrs, km.store.kind.Bolt?)
    }

    /** The own scripts pay keys that the key store holds. */
    ghost predicate Valid()
      reads this, km.store
    {
      km.Valid() && OnlyKeys(adrs, km.store.rows)
    }

    /** Opens over the tables of a database, and reads the own scripts and the heights. */
    constructor (km: Keys.KeyManager, utxos: map<OutPoint, Utxo>, stxos: map<OutPoint, Stxo>, txns: map<Txid, Txn>)
      requires km.Valid()
      ensures this.km == km && Valid() && AllScripts(adrs, km.store.rows)
      ensures State() == Populated(Tables(utxos, stxos, txns, map[], [], km.store.kind.Bolt?), adrs)
    {
      this.km, this.utxos, this.stxos, this.txns, txids, adrs := km, utxos, stxos, txns, map[], [];
      new;
      PopulateAdrs();
    }

    function Filing(u: Utxo): (r: Utxo)
      reads this
      ensures r == Filed(State(), u)
    {
      if km.store.kind.Bolt? then u else u.(frozen := false)
    }

    /** bolt fails on a missing row, sqlite updates none. */
    method UpdateHeight(txid: Txid, height: int) returns (ok: bool)
      modifies this`txns
      ensures ok <==> txid in txns || km.store.kind.Sqlite?
      ensures txns == WithHeight(old(txns), txid, height)
    {
      ok := txid in txns || km.store.kind.Sqlite?;
      if txid in txns {
        txns := txns[txid := txns[txid].(height := height)];
      }
    }

    method MarkStxoAsDead(s: Stxo) returns (ok: bool)
      modifies this`stxos, this`txns
      ensures ok <==> s.spendTxid in txns || km.store.kind.Sqlite?
      ensures State() == DropStxo(old(State()), s)
    {
      stxos := stxos - {s.utxo.op};
      ok := UpdateHeight(s.spendTxid, -1);
    }

    /** Undoes txid and everything that spends from it. The loop walks a snapshot of the spends
        while the recursive calls delete rows; each recursive call finds fewer rows stored. */
    method MarkAsDead(txid: Txid) returns (ok: bool)
      requires Keyed(State())
      modifies this`utxos, this`stxos, this`txns
      decreases |stxos|, 2
      ensures Undoes(old(State()), txid, State(), ok)
      ensures Exact(old(State())) ==> State() == Kill(old(State()), Descendants(old(stxos), {txid}))
    {
      hide Walked, Mid, Acyclic, Shrinks, OnlyDeaths, SpendersStored, Kill, Descendants, Finishes, SubTable;
      ghost var s := State();
      ghost var d := Descendants(stxos, {txid});
      ghost var p: set<Txid> := {};
      var snapshot := stxos;
      var todo := snapshot.Keys;
      ghost var done: set<OutPoint> := {};
      WalkStart(s, txid, d);
      while todo != {}
        invariant todo + done == s.stxos.Keys && snapshot == s.stxos
        invariant Going(s, txid, d, p, done, State())
      {
        var op :| op in todo;
        todo := todo - {op};
        ok, p := VisitRow(txid, snapshot[op], s, d, p, done);
        if !ok {
          return;
        }
        done := done + {op};
      }
      ghost var c := State();
      assert Keyed(c) by { WalkedKeyed(s, txid, done, c); }
      Bury(txid);
      ok := true;
      WalkEnd(s, txid, done, c, State());
      if Exact(s) {
        MidEnd(s, txid, d, p, done, c, State());
      }
    }

    /** The outputs of txid go, and its own height. */
    method Bury(txid: Txid)
      requires Keyed(State())
      modifies this`utxos, this`txns
      ensures Finishes(old(State()), txid, State())
    {
      DeleteOutputsOf(txid);
      var _ := UpdateHeight(txid, -1);
    }

    /** One turn of the loop. The row may be stale: a nested call may have deleted it already. */
    method VisitRow(txid: Txid, row: Stxo, ghost s: Tables, ghost d: set<Txid>, ghost p: set<Txid>,
                    ghost done: set<OutPoint>)
      returns (ok: bool, ghost q: set<Txid>)
      requires Keyed(s) && row.utxo.op in s.stxos && s.stxos[row.utxo.op] == row
      requires d == Descendants(s.stxos, {txid})
      requires Going(s, txid, d, p, done, State())
      modifies this`utxos, this`stxos, this`txns
      decreases |s.stxos|, 1
      ensures Shrinks(s, State())
      ensures ok ==> Going(s, txid, d, q, done + {row.utxo.op}, State())
      ensures SpendersStored(s) ==> ok
    {
      hide Mid, Acyclic, Descendants, Walked, Shrinks, Keyed;
      ghost var c := State();
      WalkedShrinks(s, txid, done, c);
      q := p;
      ok := true;
      if row.spendTxid == txid {
        ok := RestoreInput(txid, row, s, d, p, done);
        if !ok {
          return;
        }
        WalkedLess(s, txid, done, row.utxo.op, State());
        if Exact(s) {
          NotBelow(s, txid, row);
        }
      }
      if row.utxo.op.hash == txid {
        ok, q := KillChild(txid, row, s, d, p, done);
      } else if row.spendTxid != txid {
        WalkSkip(s, txid, done, c, row);
        if Exact(s) {
          MidSkip(s, txid, d, p, done, c, row.utxo.op);
        }
      }
    }

    /** An input of the dying transaction: the output it spent is unspent again. */
    method RestoreInput(txid: Txid, row: Stxo, ghost s: Tables, ghost d: set<Txid>, ghost p: set<Txid>,
                        ghost done: set<OutPoint>)
      returns (ok: bool)
      requires Keyed(s) && row.utxo.op in s.stxos && s.stxos[row.utxo.op] == row && row.spendTxid == txid
      requires d == Descendants(s.stxos, {txid})
      requires Going(s, txid, d, p, done, State())
      modifies this`utxos, this`stxos, this`txns
      ensures Shrinks(s, State())
      ensures ok ==> Going(s, txid, d, p, done + {row.utxo.op}, State())
      ensures SpendersStored(s) ==> ok
    {
      hide Mid, Acyclic, Descendants, Walked, Shrinks, Keyed;
      ghost var c := State();
      VisitShrinks(s, txid, done, c, row);
      ok := MarkStxoAsDead(row);
      if !ok {
        return;
      }
      utxos := utxos[row.utxo.op := row.utxo];
      assert State() == Restore(c, row);
      if Exact(s) {
        NotBelow(s, txid, row);
        MidRestore(s, txid, d, p, done, c, row);
      }
    }

    /** An output of the dying transaction: its spender dies too, with everything below it. */
    method KillChild(txid: Txid, row: Stxo, ghost s: Tables, ghost d: set<Txid>, ghost p: set<Txid>,
                     ghost done: set<OutPoint>)
      returns (ok: bool, ghost q: set<Txid>)
      requires Keyed(s) && row.utxo.op in s.stxos && s.stxos[row.utxo.op] == row && row.utxo.op.hash == txid
      requires d == Descendants(s.stxos, {txid}) && Walked(s, txid, done, State())
      requires Exact(s) ==> Mid(s, txid, d, p, done, State())
      modifies this`utxos, this`stxos, this`txns
      decreases |s.stxos|, 0
      ensures Shrinks(s, State())
      ensures ok ==> Going(s, txid, d, q, done + {row.utxo.op}, State())
      ensures SpendersStored(s) ==> ok
    {
      hide Mid, Acyclic, Descendants, Walked, Shrinks, Keyed;
      q := p;
      ghost var c := State();
      VisitShrinks(s, txid, done, c, row);
      ghost var e := DropStxo(c, row);
      ok := MarkStxoAsDead(row);
      if !ok {
        return;
      }
      assert State() == e;
      FewerRows(stxos, s.stxos, row.utxo.op);
      if Exact(s) {
        MidChild(s, txid, d, p, done, c, row);
        q := p + Descendants(stxos, {row.spendTxid});
      }
      ok := MarkAsDead(row.spendTxid);
      UndoesShrinks(e, row.spendTxid, State(), ok);
      WalkedOn(s, txid, done + {row.utxo.op}, e, State());
    }

    method DeleteOutputsOf(txid: Txid)
      modifies this`utxos
      ensures SubTable(utxos, old(utxos))
      ensures forall op :: op in utxos <==> op in old(utxos) && op.hash != txid
    {
      var snapshot := utxos;
      var todo := snapshot.Keys;
      while todo != {}
        invariant todo <= snapshot.Keys && SubTable(utxos, snapshot)
        invariant forall op :: op in snapshot ==> (op in utxos <==> op in todo || op.hash != txid)
      {
        var op :| op in todo;
        todo := todo - {op};
        if op.hash == txid {
          utxos := utxos - {op};
        }
      }
    }

    /** Every live stored transaction that spends an input of tx, once per shared input. */
    method CheckDoubleSpends(tx: Tx) returns (doubles: seq<Txid>)
      requires Keyed(State())
      ensures Elements(doubles) == Conflicts(State(), tx)
    {
      doubles := [];
      ghost var seen: set<Txid> := {};
      var todo := txns.Keys;
      while todo != {}
        invariant todo + seen == txns.Keys && todo !! seen
        invariant forall t :: t in doubles <==> t in seen && t in Conflicts(State(), tx)
      {
        var t :| t in todo;
        todo := todo - {t};
        if txns[t].height >= 0 {
          var comp := txns[t].tx;
          for i := 0 to |tx.ins|
            invariant forall x :: x in doubles <==>
                        || (x in seen && x in Conflicts(State(), tx))
                        || (x == t && t != tx.id && exists j :: 0 <= j < i && tx.ins[j] in comp.ins)
          {
            for j := 0 to |comp.ins|
              invariant tx.ins[i] !in comp.ins[..j] || t == tx.id
              invariant forall x :: x in doubles <==>
                          || (x in seen && x in Conflicts(State(), tx))
                          || (x == t && t != tx.id && exists j :: 0 <= j < i && tx.ins[j] in comp.ins)
            {
              if tx.ins[i] == comp.ins[j] && comp.id != tx.id {
                doubles := doubles + [comp.id];
                break;
              }
            }
          }
        }
        seen := seen + {t};
      }
    }

    method KillConflicts(doubles: seq<Txid>)
      requires Keyed(State())
      modifies this`utxos, this`stxos, this`txns
      ensures Cleared(old(State()), Elements(doubles), State())
    {
      hide Acyclic, Keyed, SpendersStored;
      ghost var s := State();
      ghost var dead: set<Txid> := {};
      KillNothing(s);
      NothingCleared(s);
      for i := 0 to |doubles|
        invariant dead == Elements(doubles[..i])
        invariant Keyed(State()) && Cleared(s, dead, State())
      {
        ghost var c := State();
        var _ := MarkAsDead(doubles[i]);
        ClearOne(s, dead, c, doubles[i], State());
        assert doubles[..i + 1] == doubles[..i] + [doubles[i]];
        dead := dead + {doubles[i]};
      }
      assert doubles[..|doubles|] == doubles;
    }

    /** Puts every output that pays an own script, and marks the key it pays as used. */
    method PutOutputs(tx: Tx, height: int) returns (value: int, hits: nat)
      requires Valid()
      modifies this`utxos, km.store
      ensures km.Valid()
      ensures State() == Credited(old(State()), tx, height)
      ensures value == CreditValue(tx, adrs, |tx.outs|) && hits == CreditHits(tx, adrs, |tx.outs|)
      ensures KeyTables.MarkedInTurn(km.store.kind, km.derive, old(km.store.rows), PaidTo(tx, adrs, |tx.outs|),
              km.store.rows)
    {
      hide Credits, CreditValue, CreditHits, KeyTables.MarkedInTurn, KeyTables.MarkStep, KeyTables.TableOk,
           KeyTables.Injective, KeyTables.Unbounded;
      ghost var was, rows := utxos, km.store.rows;
      value, hits := 0, 0;
      NoMarks(km, rows);
      CreditsStart(was, tx, adrs, height);
      for i := 0 to |tx.outs|
        invariant km.Valid() && utxos == was + Credits(tx, adrs, height, i)
        invariant value == CreditValue(tx, adrs, i) && hits == CreditHits(tx, adrs, i)
        invariant KeyTables.MarkedInTurn(km.store.kind, km.derive, rows, PaidTo(tx, adrs, i), km.store.rows)
      {
        CreditsStep(was, tx, adrs, height, i);
        CreditedStep(tx, adrs, i);
        for j := 0 to |adrs|
          invariant tx.outs[i].script !in adrs[..j]
          invariant km.Valid() && utxos == was + Credits(tx, adrs, height, i)
          invariant value == CreditValue(tx, adrs, i) && hits == CreditHits(tx, adrs, i)
          invariant KeyTables.MarkedInTurn(km.store.kind, km.derive, rows, PaidTo(tx, adrs, i), km.store.rows)
        {
          if tx.outs[i].script == adrs[j] {
            var scriptAddress := adrs[j].address;
            ghost var mid := km.store.rows;
            var _ := km.MarkKeyAsUsed(scriptAddress);
            OneMoreMark(km, rows, PaidTo(tx, adrs, i), mid, scriptAddress, km.store.rows);
            var u := NewUtxo(tx, i, height);
            value := value + u.value;
            utxos := utxos[u.op := u];
            hits := hits + 1;
            break;
          }
        }
      }
    }

    /** Moves every unspent output that tx spends to the spent ones. */
    method SpendInputs(tx: Tx, height: int) returns (value: int, hits: nat, watch: bool)
      requires Distinct(tx.ins)
      modifies this`utxos, this`stxos
      ensures State() == Debited(old(State()), tx, height)
      ensures value == DebitValue(old(utxos), tx.ins, |tx.ins|) && hits == DebitHits(old(utxos), tx.ins, |tx.ins|)
      ensures hits > 0 || watch <==> Spent(old(utxos), tx.ins) != {}
    {
      hide Spent, Debits, Distinct;
      ghost var s := State();
      ghost var u := utxos;
      var list := utxos;
      value, hits, watch := 0, 0, false;
      SpentStart(s, tx.ins, height, tx.id);
      for i := 0 to |tx.ins|
        invariant list == utxos == u - Spent(u, tx.ins[..i])
        invariant stxos == s.stxos + Debits(s, tx.ins[..i], height, tx.id)
        invariant value == DebitValue(u, tx.ins, i) && hits == DebitHits(u, tx.ins, i)
        invariant hits > 0 || watch <==> Spent(u, tx.ins[..i]) != {}
      {
        var op := tx.ins[i];
        SpentStep(u, tx.ins, i);
        DebitsStep(s, tx.ins, i, height, tx.id);
        if op in list {
          stxos := stxos[op := Stxo(Filing(list[op]), height, tx.id)];
          utxos := utxos - {op};
          if !list[op].watchOnly {
            value := value + list[op].value;
            hits := hits + 1;
          } else {
            watch := true;
          }
          list := list - {op};
        }
      }
      assert tx.ins[..|tx.ins|] == tx.ins;
    }

    /** Gives one spend of the transaction its confirmed height. */
    method UpdateSpendHeight(t: Txid, height: int) returns (pick: Option<OutPoint>)
      modifies this`stxos
      ensures Pick(old(State()), t, height, pick)
      ensures State() == Reheighted(old(State()), pick, height)
    {
      pick := None;
      if height > 0 {
        var todo := stxos.Keys;
        while todo != {}
          invariant todo <= stxos.Keys && stxos == old(stxos)
          invariant forall op :: op in stxos && op !in todo ==> stxos[op].spendTxid != t
        {
          var op :| op in todo;
          todo := todo - {op};
          if stxos[op].spendTxid == t {
            stxos := stxos[op := stxos[op].(spendHeight := height)];
            pick := Some(op);
            return;
          }
        }
      }
    }

    method StoreTxn(tx: Tx, value: int, height: int, watchOnly: bool)
      modifies this`txns, this`txids
      ensures State() == Recorded(old(State()), tx, value, height, watchOnly)
    {
      if tx.id !in txns {
        txns := txns[tx.id := Txn(tx, value, height, watchOnly)];
        txids := txids[tx.id := height];
      } else if txns[tx.id].height <= 0 {
        var _ := UpdateHeight(tx.id, height);
        txids := txids[tx.id := height];
      }
    }

    /** Reads the own scripts back from the key store, and the heights. */
    method PopulateAdrs()
      requires km.Valid()
      modifies this`adrs, this`txids
      ensures Valid() && AllScripts(adrs, km.store.rows)
      ensures State() == Populated(old(State()), adrs)
    {
      hide Keys.KeyManager.Valid;
      var keys := km.GetKeys();
      adrs := [];
      for i := 0 to |keys|
        invariant forall x :: x in adrs <==> x.PayTo? && x.address in keys[..i]
        invariant State() == old(State()).(adrs := adrs)
      {
        adrs := adrs + [PayTo(keys[i])];
        assert keys[..i + 1] == keys[..i] + [keys[i]];
      }
      assert keys[..|keys|] == keys;
      ghost var keyAdrs := adrs;
      var todo := txns.Keys;
      ghost var done: set<Txid> := {};
      ghost var was := txids;
      while todo != {}
        invariant todo + done == txns.Keys && todo !! done && adrs == keyAdrs
        invariant txids.Keys == was.Keys + done
        invariant forall t :: t in txids ==> txids[t] == if t in done then txns[t].height else was[t]
      {
        var t :| t in todo;
        todo := todo - {t};
        txids := txids[t := txns[t].height];
        done := done + {t};
      }
      assert txids == was + Heights(txns);
    }

    /** Outputs, inputs, spend height and row of tx, once its conflicts are out of the way. */
    method Settle(tx: Tx, height: int) returns (hits: nat, ghost keyAdrs: seq<Script>)
      requires Valid() && Distinct(tx.ins)
      modifies this`utxos, this`stxos, this`txns, this`txids, this`adrs, km.store
      ensures Valid() && AllScripts(keyAdrs, km.store.rows)
      ensures Settles(old(State()), tx, height, keyAdrs, State(), hits)
      ensures forall x :: x in old(adrs) ==> x in adrs
      ensures KeyTables.MarkedInTurn(km.store.kind, km.derive, old(km.store.rows), PaidTo(tx, old(adrs), |tx.outs|),
              km.store.rows)
    {
      hide Credited, Debited, DebitValue, DebitHits, CreditValue, CreditHits, Recorded, Populated, Reheighted,
           Relevant, Hits, Spent, Pick, KeyTables.MarkedInTurn, Keys.KeyManager.Valid, AllScripts, OnlyKeys, PaidTo;
      ghost var k, rows := State(), km.store.rows;
      var credit, creditHits := PutOutputs(tx, height);
      var debit, debitHits, watch := SpendInputs(tx, height);
      ghost var d := State();
      var pick := UpdateSpendHeight(tx.id, height);
      PickReheighted(d, tx.id, height, pick);
      RelevantIs(k, tx, height, pick, creditHits, debitHits, watch);
      hits := creditHits + debitHits;
      if pick.Some? {
        if stxos[pick.value].utxo.watchOnly {
          watch := true;
        } else {
          hits := hits + 1;
        }
      }
      StillKeys(km, rows, PaidTo(tx, adrs, |tx.outs|), km.store.rows, adrs);
      if hits > 0 || watch {
        StoreTxn(tx, credit - debit, height, hits == 0);
        PopulateAdrs();
        keyAdrs := adrs;
        KeysAmongAll(k.adrs, adrs, km.store.rows);
        hits := hits + 1;
      } else {
        keyAdrs := ScriptsOf(km.store.rows);
      }
      assert State() == Settled(k, tx, height, pick, keyAdrs);
    }

    method CheckOutputs(outs: seq<TxOut>) returns (sane: bool)
      ensures sane <==> (forall o :: o in outs ==> 0 <= o.value <= MAX_SATOSHI) && TotalOut(outs) <= MAX_SATOSHI
    {
      sane := true;
      var total := 0;
      for i := 0 to |outs|
        invariant sane <==> forall o :: o in outs[..i] ==> 0 <= o.value <= MAX_SATOSHI
        invariant total == TotalOut(outs[..i])
      {
        assert outs[..i + 1] == outs[..i] + [outs[i]];
        sane := sane && 0 <= outs[i].value <= MAX_SATOSHI;
        total := total + outs[i].value;
      }
      assert outs[..|outs|] == outs;
      sane := sane && total <= MAX_SATOSHI;
    }

    method CheckInputs(ins: seq<OutPoint>) returns (sane: bool)
      ensures sane <==> Distinct(ins)
    {
      sane := true;
      var seen: set<OutPoint> := {};
      for i := 0 to |ins|
        invariant seen == set op | op in ins[..i]
        invariant sane <==> Distinct(ins[..i])
      {
        sane := sane && ins[i] !in seen;
        seen := seen + {ins[i]};
      }
      assert ins[..|ins|] == ins;
    }

    method CheckSanity(tx: Tx) returns (sane: bool)
      ensures sane <==> Sane(tx)
      ensures sane <==>
              && |tx.ins| > 0 && |tx.outs| > 0 && tx.otherChecks
              && (forall i, j :: 0 <= i < j < |tx.ins| ==> tx.ins[i] != tx.ins[j])
              && (forall i :: 0 <= i < |tx.outs| ==> 0 <= tx.outs[i].value <= 2_100_000_000_000_000)
              && TotalOut(tx.outs) <= 2_100_000_000_000_000
    {
      var outsSane := CheckOutputs(tx.outs);
      var insSane := CheckInputs(tx.ins);
      sane := tx.ins != [] && tx.outs != [] && outsSane && insSane && tx.otherChecks;
    }

    /** Puts a transaction into the wallet; keyAdrs are the scripts of the keys stored afterwards. */
    method AddTransaction(tx: Tx, height: int) returns (hits: nat, ok: bool, ghost keyAdrs: seq<Script>)
      requires Valid() && Keyed(State())
      modifies this`utxos, this`stxos, this`txns, this`txids, this`adrs, km.store
      ensures Valid() && Keyed(State()) && AllScripts(keyAdrs, km.store.rows)
      ensures Added(old(State()), tx, height, keyAdrs, State(), hits)
      ensures forall x :: x in old(adrs) ==> x in adrs
      ensures ok <==> Sane(tx)
      ensures KeyTables.MarkedInTurn(km.store.kind, km.derive, old(km.store.rows),
                                     if old(Ignored(State(), tx, height)) then [] else PaidTo(tx, old(adrs), |tx.outs|),
                                     km.store.rows)
    {
      hide Keyed, Cleared, Settled, Pick, Hits, Relevant, KeyTables.MarkedInTurn, AllScripts, OnlyKeys,
           Keys.KeyManager.Valid, PaidTo;
      ghost var s := State();
      keyAdrs := ScriptsOf(km.store.rows);
      NoMarks(km, km.store.rows);
      var sane := CheckSanity(tx);
      if !sane {
        return 0, false, keyAdrs;
      }
      if tx.id in txids && (txids[tx.id] > 0 || (txids[tx.id] == 0 && height == 0)) {
        return 1, true, keyAdrs;
      }
      var doubles := CheckDoubleSpends(tx);
      if |doubles| > 0 {
        assert doubles[0] in Conflicts(s, tx);
        if height == 0 {
          return 0, true, keyAdrs;
        }
        KillConflicts(doubles);
      } else {
        KillNothing(s);
        NothingCleared(s);
        assert Conflicts(s, tx) == {};
      }
      ghost var k := State();
      hits, keyAdrs := Settle(tx, height);
      ok := true;
      AddedKeyed(s, tx, k, height, keyAdrs, State(), hits);
    }
  }

  lemma NoMarks(km: Keys.KeyManager, rows: seq<KeyTables.KeyRec>)
    ensures KeyTables.MarkedInTurn(km.store.kind, km.derive, rows, [], rows)
  {
  }

  lemma CreditedStep(tx: Tx, adrs: seq<Script>, i: nat)
    requires i < |tx.outs|
    ensures var own := tx.outs[i].script in adrs;
            && CreditValue(tx, adrs, i + 1) == CreditValue(tx, adrs, i) + (if own then tx.outs[i].value else 0)
            && CreditHits(tx, adrs, i + 1) == CreditHits(tx, adrs, i) + (if own then 1 else 0)
  {
  }

  /** The loops' counts tell whether the wallet is touched. */
  lemma RelevantIs(k: Tables, tx: Tx, height: int, pick: Option<OutPoint>, creditHits: nat, debitHits: nat, watch: bool)
    requires pick.Some? ==> pick.value in Debited(Credited(k, tx, height), tx, height).stxos
    requires creditHits == CreditHits(tx, k.adrs, |tx.outs|)
    requires debitHits == DebitHits(Credited(k, tx, height).utxos, tx.ins, |tx.ins|)
    requires debitHits > 0 || watch <==> Spent(Credited(k, tx, height).utxos, tx.ins) != {}
    ensures Relevant(k, tx, height, pick) <==> creditHits + debitHits > 0 || watch || pick.Some?
    ensures Hits(k, tx, height, pick) == creditHits + debitHits
            + PickHits(Debited(Credited(k, tx, height), tx, height), pick)
  {
    hide Spent, Own, Credited, Debited, DebitHits;
    OwnOutputs(tx, k.adrs, |tx.outs|);
  }

  lemma PickReheighted(d: Tables, t: Txid, height: int, pick: Option<OutPoint>)
    requires Pick(d, t, height, pick)
    ensures pick.Some? ==> pick.value in d.stxos && pick.value in Reheighted(d, pick, height).stxos
    ensures pick.Some? ==> Reheighted(d, pick, height).stxos[pick.value].utxo == d.stxos[pick.value].utxo
  {
  }

  ghost function ScriptsOf(rows: seq<KeyTables.KeyRec>): (s: seq<Script>)
    ensures AllScripts(s, rows)
  {
    var s := seq(|rows|, i requires 0 <= i < |rows| => PayTo(rows[i].address));
    assert forall i :: 0 <= i < |rows| ==> s[i] == PayTo(rows[i].address);
    s
  }

  lemma KeysAmongAll(some: seq<Script>, every: seq<Script>, rows: seq<KeyTables.KeyRec>)
    requires OnlyKeys(some, rows) && AllScripts(every, rows)
    ensures forall x :: x in some ==> x in every
  {
  }

  lemma StillKeys(km: Keys.KeyManager, rows: seq<KeyTables.KeyRec>, marks: seq<KeyTables.Address>,
                  after: seq<KeyTables.KeyRec>, adrs: seq<Script>)
    requires KeyTables.MarkedInTurn(km.store.kind, km.derive, rows, marks, after) && OnlyKeys(adrs, rows)
    ensures OnlyKeys(adrs, after)
  {
    KeyTables.InTurnKeeps(km.store.kind, km.derive, rows, marks, after);
  }
}
