/** What one call of markAsDead has done at each point of its loop. */
module Undo {
  import opened Ledger

  /** What no undoing touches. */
  predicate SameRest(s: Tables, c: Tables) {
    c.txids == s.txids && c.adrs == s.adrs && c.keepsFrozen == s.keepsFrozen
  }

  /** What every call does on every table, cyclic or not. */
  ghost predicate Undoes(s: Tables, t: Txid, c: Tables, ok: bool) {
    && Shrinks(s, c)
    && (ok ==> forall op :: op in c.stxos ==> op.hash != t && c.stxos[op].spendTxid != t)
    && (ok && t in c.txns ==> c.txns[t].height == -1)
    && (SpendersStored(s) ==> ok)
  }

  /** Spends are only deleted, and the other changes are deaths. */
  ghost predicate Shrinks(s: Tables, c: Tables) {
    && (Keyed(s) ==> Keyed(c))
    && SubTable(c.stxos, s.stxos) && OnlyDeaths(s, c)
    && SameRest(s, c)
  }

  /** The same transactions are stored; a height that changed became -1. */
  ghost predicate OnlyDeaths(s: Tables, c: Tables) {
    && c.txns.Keys == s.txns.Keys
    && forall x :: x in s.txns ==> c.txns[x] == s.txns[x] || c.txns[x] == s.txns[x].(height := -1)
  }

  /** The txns table after updating one height; a missing row stays missing. */
  function WithHeight(txns: map<Txid, Txn>, t: Txid, height: int): map<Txid, Txn> {
    if t in txns then txns[t := txns[t].(height := height)] else txns
  }

  /** The tables after one spend record is deleted and its spender marked dead. */
  function DropStxo(c: Tables, row: Stxo): Tables {
    c.(stxos := c.stxos - {row.utxo.op}, txns := WithHeight(c.txns, row.spendTxid, -1))
  }

  /** The same, with the output unspent again. */
  function Restore(c: Tables, row: Stxo): Tables {
    var e := DropStxo(c, row);
    e.(utxos := e.utxos[row.utxo.op := row.utxo])
  }

  /** When the undoing is exact: no cycle of spends, and every spender is stored. */
  ghost predicate Exact(s: Tables) {
    Acyclic(s.stxos) && SpendersStored(s)
  }

  /** The snapshot rows in done have been visited by markAsDead(t) entered with the tables s. */
  ghost predicate Walked(s: Tables, t: Txid, done: set<OutPoint>, c: Tables) {
    && Shrinks(s, c)
    && forall op :: op in c.stxos && op in done ==> op.hash != t && c.stxos[op].spendTxid != t
  }

  /** What holds each time round the loop. */
  ghost predicate Going(s: Tables, t: Txid, d: set<Txid>, p: set<Txid>, done: set<OutPoint>, c: Tables) {
    Walked(s, t, done, c) && (Exact(s) ==> Mid(s, t, d, p, done, c))
  }

  /** A nested call keeps the visited rows visited. */
  lemma WalkedOn(s: Tables, t: Txid, done: set<OutPoint>, c: Tables, e: Tables)
    requires Walked(s, t, done, c) && Shrinks(c, e)
    ensures Walked(s, t, done, e) && Shrinks(s, e)
  {
  }

  lemma WalkedShrinks(s: Tables, t: Txid, done: set<OutPoint>, c: Tables)
    requires Walked(s, t, done, c)
    ensures Shrinks(s, c)
  {
  }

  lemma WalkedKeyed(s: Tables, t: Txid, done: set<OutPoint>, c: Tables)
    requires Walked(s, t, done, c) && Keyed(s)
    ensures Keyed(c)
  {
  }

  lemma WalkedLess(s: Tables, t: Txid, done: set<OutPoint>, op: OutPoint, c: Tables)
    requires Walked(s, t, done + {op}, c)
    ensures Walked(s, t, done, c)
  {
    hide Shrinks;
  }

  lemma UndoesShrinks(s: Tables, t: Txid, c: Tables, ok: bool)
    requires Undoes(s, t, c, ok)
    ensures Shrinks(s, c)
  {
  }

  lemma WalkSkip(s: Tables, t: Txid, done: set<OutPoint>, c: Tables, row: Stxo)
    requires Walked(s, t, done, c) && row.utxo.op in s.stxos && s.stxos[row.utxo.op] == row
    requires row.spendTxid != t && row.utxo.op.hash != t
    ensures Walked(s, t, done + {row.utxo.op}, c) && Shrinks(s, c)
  {
  }

  /** The outputs of t are deleted and its own height updated. */
  ghost predicate Finishes(c: Tables, t: Txid, e: Tables) {
    && e.stxos == c.stxos && SubTable(e.utxos, c.utxos)
    && (forall op :: op in e.utxos <==> op in c.utxos && op.hash != t)
    && e.txns == WithHeight(c.txns, t, -1)
    && SameRest(c, e)
  }

  lemma WalkEnd(s: Tables, t: Txid, done: set<OutPoint>, c: Tables, e: Tables)
    requires Keyed(s) && Walked(s, t, done, c) && s.stxos.Keys <= done && Finishes(c, t, e)
    ensures Undoes(s, t, e, true)
  {
  }

  lemma DropShrinks(c: Tables, row: Stxo)
    ensures Shrinks(c, DropStxo(c, row))
  {
  }

  lemma DropKeepsSpenders(c: Tables, row: Stxo)
    requires SpendersStored(c)
    ensures SpendersStored(DropStxo(c, row))
  {
  }

  lemma RestoreShrinks(c: Tables, row: Stxo)
    ensures Shrinks(c, Restore(c, row))
  {
    DropShrinks(c, row);
    hide DropStxo, SubTable;
    var e := DropStxo(c, row);
    assert Keyed(e) ==> Keyed(Restore(c, row));
  }

  lemma DroppedIsWalked(s: Tables, t: Txid, done: set<OutPoint>, c: Tables, op: OutPoint)
    requires Walked(s, t, done, c) && op !in c.stxos
    ensures Walked(s, t, done + {op}, c)
  {
    hide Shrinks;
  }

  /** Both ways of visiting a row leave its spend deleted and the rest walked. */
  lemma VisitShrinks(s: Tables, t: Txid, done: set<OutPoint>, c: Tables, row: Stxo)
    requires Keyed(s) && Walked(s, t, done, c) && row.utxo.op in s.stxos && s.stxos[row.utxo.op] == row
    ensures var e := DropStxo(c, row);
            Keyed(e) && Walked(s, t, done + {row.utxo.op}, e) && Shrinks(s, e) && e.stxos.Keys <= s.stxos.Keys
            && (SpendersStored(s) ==> row.spendTxid in c.txns && SpendersStored(e))
    ensures Walked(s, t, done + {row.utxo.op}, Restore(c, row)) && Shrinks(s, Restore(c, row))
  {
    var op, e := row.utxo.op, DropStxo(c, row);
    DropShrinks(c, row);
    RestoreShrinks(c, row);
    hide Keyed, OnlyDeaths, WithHeight;
    WalkedOn(s, t, done, c, e);
    WalkedOn(s, t, done, c, Restore(c, row));
    hide Walked;
    assert op !in e.stxos;
    DroppedIsWalked(s, t, done, e, op);
    DroppedIsWalked(s, t, done, Restore(c, row), op);
    if SpendersStored(s) {
      ShrunkSpenders(s, c, row);
    }
  }

  lemma ShrunkSpenders(s: Tables, c: Tables, row: Stxo)
    requires Shrinks(s, c) && SpendersStored(s) && row.utxo.op in s.stxos && s.stxos[row.utxo.op] == row
    ensures row.spendTxid in c.txns && SpendersStored(DropStxo(c, row))
  {
    hide Keyed;
    assert SpendersStored(c);
    DropKeepsSpenders(c, row);
  }

  /** The spend recorded at op has been undone: its spender is in p, or is t and op was visited. */
  ghost predicate Undone(s: Tables, t: Txid, p: set<Txid>, done: set<OutPoint>, op: OutPoint) {
    op in s.stxos && (s.stxos[op].spendTxid in p || (s.stxos[op].spendTxid == t && op in done))
  }

  /** The tables c in the middle of markAsDead(t) entered with the tables s: done are the
      snapshot rows visited, p the descendants of t whose undoing is finished, all within d. */
  ghost predicate Mid(s: Tables, t: Txid, d: set<Txid>, p: set<Txid>, done: set<OutPoint>, c: Tables) {
    && t !in p && p <= d && Closed(s.stxos, p)
    && (forall op :: op in done && op in s.stxos && op.hash == t ==> s.stxos[op].spendTxid in p)
    && SubTable(c.stxos, s.stxos)
    && (forall op :: op in s.stxos ==> (op in c.stxos <==> !Undone(s, t, p, done, op)))
    && MidUtxos(s, t, p, done, c.utxos)
    && MidTxns(s, t, p, c)
  }

  /** Outputs of t itself are deleted last, so nothing is said of them. */
  ghost predicate MidUtxos(s: Tables, t: Txid, p: set<Txid>, done: set<OutPoint>, utxos: map<OutPoint, Utxo>) {
    forall op: OutPoint :: op.hash != t ==>
      && (op in utxos <==> op.hash !in p && (op in s.utxos || Undone(s, t, p, done, op)))
      && (op in utxos ==> utxos[op] == if Undone(s, t, p, done, op) then s.stxos[op].utxo else s.utxos[op])
  }

  ghost predicate MidTxns(s: Tables, t: Txid, p: set<Txid>, c: Tables) {
    && OnlyDeaths(s, c)
    && (forall x :: x in s.txns && x != t ==> c.txns[x] == if x in p then s.txns[x].(height := -1) else s.txns[x])
    && SameRest(s, c)
  }

  lemma WalkStart(s: Tables, t: Txid, d: set<Txid>)
    ensures Going(s, t, d, {}, {}, s)
  {
  }

  /** Visiting a row that concerns neither an input nor an output of t. */
  lemma MidSkip(s: Tables, t: Txid, d: set<Txid>, p: set<Txid>, done: set<OutPoint>, c: Tables, op: OutPoint)
    requires Mid(s, t, d, p, done, c) && op in s.stxos
    requires s.stxos[op].spendTxid != t && op.hash != t
    ensures Mid(s, t, d, p, done + {op}, c)
  {
    forall o ensures Undone(s, t, p, done + {op}, o) <==> Undone(s, t, p, done, o) {}
  }

  /** A transaction never spends an output of its own descendants. */
  lemma NotBelow(s: Tables, t: Txid, row: Stxo)
    requires Exact(s) && row.utxo.op in s.stxos && s.stxos[row.utxo.op] == row && row.spendTxid == t
    ensures row.utxo.op.hash !in Descendants(s.stxos, {t})
    ensures row.utxo.op.hash != t
  {
  }

  /** Visiting an input of t: the output it spent becomes unspent. */
  lemma MidRestore(s: Tables, t: Txid, d: set<Txid>, p: set<Txid>, done: set<OutPoint>, c: Tables, row: Stxo)
    requires Mid(s, t, d, p, done, c) && row.utxo.op in s.stxos && s.stxos[row.utxo.op] == row
    requires row.spendTxid == t && row.utxo.op.hash != t && row.utxo.op.hash !in d
    ensures Mid(s, t, d, p, done + {row.utxo.op}, Restore(c, row))
  {
    var op := row.utxo.op;
    forall o ensures Undone(s, t, p, done + {op}, o) <==> o == op || Undone(s, t, p, done, o) {}
    hide Undone;
    RestoreUtxos(s, t, p, done, c.utxos, row);
    MidRestoreTxns(s, t, p, c, row);
    hide MidUtxos, MidTxns, WithHeight;
  }

  lemma RestoreUtxos(s: Tables, t: Txid, p: set<Txid>, done: set<OutPoint>, utxos: map<OutPoint, Utxo>, row: Stxo)
    requires MidUtxos(s, t, p, done, utxos) && row.utxo.op in s.stxos && s.stxos[row.utxo.op] == row
    requires row.utxo.op.hash != t && row.utxo.op.hash !in p
    requires forall o :: Undone(s, t, p, done + {row.utxo.op}, o) <==> o == row.utxo.op || Undone(s, t, p, done, o)
    ensures MidUtxos(s, t, p, done + {row.utxo.op}, utxos[row.utxo.op := row.utxo])
  {
    hide Undone;
  }

  lemma MidRestoreTxns(s: Tables, t: Txid, p: set<Txid>, c: Tables, row: Stxo)
    requires MidTxns(s, t, p, c) && row.spendTxid == t
    ensures MidTxns(s, t, p, Restore(c, row))
  {
  }

  /** Visiting an output of t: its spender is undone, with everything below it. */
  lemma MidChild(s: Tables, t: Txid, d: set<Txid>, p: set<Txid>, done: set<OutPoint>, c: Tables, row: Stxo)
    requires Exact(s) && d == Descendants(s.stxos, {t})
    requires Mid(s, t, d, p, done, c) && row.utxo.op in s.stxos && s.stxos[row.utxo.op] == row
    requires row.utxo.op.hash == t
    ensures var e := DropStxo(c, row);
            var below := Descendants(e.stxos, {row.spendTxid});
            Exact(e) && Mid(s, t, d, p + below, done + {row.utxo.op}, Kill(e, below))
  {
    var e := DropStxo(c, row);
    AcyclicSub(e.stxos, s.stxos);
    ChildDescendants(s, t, d, p, done, c, row.utxo.op, e.stxos);
    MidChildKill(s, t, d, p, done, c, row, Descendants(e.stxos, {row.spendTxid}));
  }

  lemma MidChildKill(s: Tables, t: Txid, d: set<Txid>, p: set<Txid>, done: set<OutPoint>, c: Tables, row: Stxo,
                     below: set<Txid>)
    requires Mid(s, t, d, p, done, c) && row.utxo.op in s.stxos && s.stxos[row.utxo.op] == row
    requires row.utxo.op.hash == t
    requires row.spendTxid in below && t !in below && below <= d && Closed(s.stxos, p + below)
    ensures Mid(s, t, d, p + below, done + {row.utxo.op}, Kill(DropStxo(c, row), below))
  {
    var op := row.utxo.op;
    var e := DropStxo(c, row);
    MidChildStxos(s, t, p, done, c, row, below);
    MidChildUtxos(s, t, p, done, c, op, e, below);
    MidChildTxns(s, t, p, c, row, below);
    hide MidUtxos, MidTxns, Undone;
    forall o | o in done + {op} && o in s.stxos && o.hash == t ensures s.stxos[o].spendTxid in p + below {}
  }

  lemma MidChildStxos(s: Tables, t: Txid, p: set<Txid>, done: set<OutPoint>, c: Tables, row: Stxo, below: set<Txid>)
    requires row.utxo.op in s.stxos && s.stxos[row.utxo.op] == row && row.utxo.op.hash == t
    requires SubTable(c.stxos, s.stxos) && row.spendTxid in below && t !in below
    requires forall o :: o in s.stxos ==> (o in c.stxos <==> !Undone(s, t, p, done, o))
    ensures var k := Kill(DropStxo(c, row), below);
            SubTable(k.stxos, s.stxos)
            && forall o :: o in s.stxos ==> (o in k.stxos <==> !Undone(s, t, p + below, done + {row.utxo.op}, o))
  {
  }

  lemma MidChildTxns(s: Tables, t: Txid, p: set<Txid>, c: Tables, row: Stxo, below: set<Txid>)
    requires MidTxns(s, t, p, c) && row.spendTxid in below && t !in below
    ensures MidTxns(s, t, p + below, Kill(DropStxo(c, row), below))
  {
  }

  lemma MidChildUtxos(s: Tables, t: Txid, p: set<Txid>, done: set<OutPoint>, c: Tables, op: OutPoint, e: Tables,
                      below: set<Txid>)
    requires Closed(s.stxos, p) && MidUtxos(s, t, p, done, c.utxos) && t !in p
    requires SubTable(c.stxos, s.stxos)
    requires forall o :: o in s.stxos ==> (o in c.stxos <==> !Undone(s, t, p, done, o))
    requires op.hash == t && t !in below
    requires e.stxos == c.stxos - {op} && e.utxos == c.utxos
    ensures MidUtxos(s, t, p + below, done + {op}, KilledUtxos(e, below))
  {
    var q, visited, utxos := p + below, done + {op}, KilledUtxos(e, below);
    forall o: OutPoint | o.hash != t
      ensures o in utxos <==> o.hash !in q && (o in s.utxos || Undone(s, t, q, visited, o))
      ensures o in utxos ==> utxos[o] == if Undone(s, t, q, visited, o) then s.stxos[o].utxo else s.utxos[o]
    {
      if o in s.stxos && o.hash in p { assert s.stxos[o].spendTxid in p; }
      assert Undone(s, t, q, visited, o)
             <==> Undone(s, t, p, done, o) || (o in s.stxos && s.stxos[o].spendTxid in below);
    }
  }

  /** The descendants of a child as the loop finds them, with those already undone, are closed. */
  lemma ChildDescendants(s: Tables, t: Txid, d: set<Txid>, p: set<Txid>, done: set<OutPoint>, c: Tables, op: OutPoint,
                         rest: map<OutPoint, Stxo>)
    requires Mid(s, t, d, p, done, c) && op in s.stxos && Acyclic(s.stxos)
    requires op.hash == t && t in d && Closed(s.stxos, d)
    requires rest == c.stxos - {op}
    ensures var below := Descendants(rest, {s.stxos[op].spendTxid});
            t !in below && below <= d && Closed(s.stxos, p + below)
  {
    var child := s.stxos[op].spendTxid;
    var all := Descendants(s.stxos, {child});
    assert t !in all && all <= d;
    DescendantsMonotone(rest, s.stxos, {child}, {child});
    ChildClosed(s, t, p, done, c, op, rest, Descendants(rest, {child}), all);
  }

  lemma ChildClosed(s: Tables, t: Txid, p: set<Txid>, done: set<OutPoint>, c: Tables, op: OutPoint,
                    rest: map<OutPoint, Stxo>,
                    below: set<Txid>, all: set<Txid>)
    requires Closed(s.stxos, p) && Closed(rest, below) && below <= all && Closed(s.stxos, all) && t !in all
    requires SubTable(rest, s.stxos) && op.hash == t && rest == c.stxos - {op}
    requires forall o :: o in s.stxos ==> (o in c.stxos <==> !Undone(s, t, p, done, o))
    ensures Closed(s.stxos, p + below)
  {
    forall o | o in s.stxos && o.hash in p + below ensures s.stxos[o].spendTxid in p + below {
      if o.hash !in p && o !in rest {
        assert s.stxos[o].spendTxid in all;
      }
    }
  }

  /** After the last row, deleting the outputs of t completes the undoing of its descendants. */
  lemma MidEnd(s: Tables, t: Txid, d: set<Txid>, p: set<Txid>, done: set<OutPoint>, c: Tables, e: Tables)
    requires Mid(s, t, d, p, done, c) && s.stxos.Keys <= done && Finishes(c, t, e)
    requires t in d && forall q :: Closed(s.stxos, q) && {t} <= q ==> d <= q
    ensures e == Kill(s, d)
  {
    assert Closed(s.stxos, p + {t});
    assert d == p + {t};
    MidEndTxns(s, t, p, c, e);
    MidEndOutputs(s, t, d, p, done, c, e);
  }

  lemma MidEndTxns(s: Tables, t: Txid, p: set<Txid>, c: Tables, e: Tables)
    requires MidTxns(s, t, p, c) && e.txns == WithHeight(c.txns, t, -1)
    ensures e.txns == KilledTxns(s, p + {t})
  {
  }

  /** After the whole walk a spend is undone exactly if its spender is in d. */
  lemma AllUndone(s: Tables, t: Txid, d: set<Txid>, p: set<Txid>, done: set<OutPoint>)
    requires s.stxos.Keys <= done && d == p + {t}
    ensures forall op :: Undone(s, t, p, done, op) <==> op in s.stxos && s.stxos[op].spendTxid in d
  {
  }

  lemma MidEndOutputs(s: Tables, t: Txid, d: set<Txid>, p: set<Txid>, done: set<OutPoint>, c: Tables, e: Tables)
    requires Mid(s, t, d, p, done, c) && s.stxos.Keys <= done && Finishes(c, t, e) && d == p + {t}
    ensures e.stxos == KilledStxos(s, d) && e.utxos == KilledUtxos(s, d)
  {
    AllUndone(s, t, d, p, done);
    hide MidTxns, WithHeight, Undone;
    assert e.stxos == KilledStxos(s, d) by { hide MidUtxos; }
    MidEndUtxos(s, t, d, p, done, c.utxos, e.utxos);
  }

  lemma MidEndUtxos(s: Tables, t: Txid, d: set<Txid>, p: set<Txid>, done: set<OutPoint>,
                    before: map<OutPoint, Utxo>, after: map<OutPoint, Utxo>)
    requires MidUtxos(s, t, p, done, before) && d == p + {t}
    requires forall op :: Undone(s, t, p, done, op) <==> op in s.stxos && s.stxos[op].spendTxid in d
    requires SubTable(after, before) && forall op :: op in after <==> op in before && op.hash != t
    ensures after == KilledUtxos(s, d)
  {
    hide Undone;
    forall op ensures op in after <==> op in KilledUtxos(s, d) {}
  }
}
