/** The balance report, the coins on offer and the freezing of outputs. */
module Wallets {
  import opened Conservation
  import opened Ledger
  import opened LedgerRuns
  import opened Sums
  import opened TxStores

  datatype Coin = Coin(op: OutPoint, value: int, numConfs: int, script: Script)

  /** The list holds every row once, in whatever order the table gives. */
  ghost predicate Lists<V(!new)>(list: seq<V>, rows: map<OutPoint, V>, key: V -> OutPoint) {
    && (forall i :: 0 <= i < |list| ==> key(list[i]) in rows && rows[key(list[i])] == list[i])
    && (forall op :: op in rows ==> rows[op] in list)
    && (forall i, j :: 0 <= i < j < |list| ==> key(list[i]) != key(list[j]))
  }

  method GetAll<V(!new)>(rows: map<OutPoint, V>, ghost key: V -> OutPoint) returns (list: seq<V>)
    requires forall op :: op in rows ==> key(rows[op]) == op
    ensures Lists(list, rows, key)
  {
    list := [];
    var todo := rows.Keys;
    while todo != {}
      invariant todo <= rows.Keys
      invariant forall i :: 0 <= i < |list| ==>
                key(list[i]) in rows && key(list[i]) !in todo && rows[key(list[i])] == list[i]
      invariant forall op :: op in rows && op !in todo ==> rows[op] in list
      invariant forall i, j :: 0 <= i < j < |list| ==> key(list[i]) != key(list[j])
    {
      var op :| op in todo;
      todo := todo - {op};
      list := list + [rows[op]];
    }
  }

  // ---------------------------------------------------------------------------
  // What is counted where
  // ---------------------------------------------------------------------------

  ghost function FrozenOps(s: Tables): set<OutPoint> {
    set op | op in Spendable(s) && s.utxos[op].frozen
  }

  ghost function ConfirmedOps(s: Tables): set<OutPoint> {
    set op | op in Spendable(s) && s.utxos[op].atHeight > 0
  }

  /** The outputs offered for a new transaction. */
  ghost function Offered(s: Tables, excludeUnconfirmed: bool): set<OutPoint> {
    set op | op in Spendable(s) && !s.utxos[op].frozen && (excludeUnconfirmed ==> s.utxos[op].atHeight > 0)
  }

  /** Some confirmed transaction is recorded as spending from the wallet under the hash of op. */
  ghost predicate MadeByConfirmedSpend(s: Tables, op: OutPoint) {
    exists x :: x in s.stxos && s.stxos[x].spendTxid == op.hash && s.stxos[x].spendHeight > 0
      && !s.stxos[x].utxo.watchOnly
  }

  /** Recorded spends leave no doubt that op is change of a confirmed one. */
  ghost predicate SurelyConfirmed(s: Tables, op: OutPoint) {
    && op !in s.stxos && MadeByConfirmedSpend(s, op)
    && forall x :: x in s.stxos && s.stxos[x].spendTxid == op.hash && !s.stxos[x].utxo.watchOnly ==>
       s.stxos[x].spendHeight > 0
  }

  ghost predicate NonNegative(s: Tables) {
    forall op :: op in s.utxos ==> s.utxos[op].value >= 0
  }

  lemma SumInsert<T(!new)>(s: set<T>, f: T -> int, x: T)
    requires x !in s
    ensures Sum(s + {x}, f) == Sum(s, f) + f(x)
  {
    SumRemove(s + {x}, f, x);
    assert s + {x} - {x} == s;
  }

  /** What is offered and what is locked make up the whole. */
  lemma OfferedPlusLocked(s: Tables)
    ensures Sum(Offered(s, false), Amount(s)) + Sum(FrozenOps(s), Amount(s)) == UtxoValue(s)
  {
    SumUnion(Offered(s, false), FrozenOps(s), Amount(s));
    assert Offered(s, false) + FrozenOps(s) == Spendable(s);
  }

  /** No more is offered from confirmed outputs than is reported confirmed. */
  lemma OfferedConfirmed(s: Tables, confirmed: set<OutPoint>)
    requires NonNegative(s) && ConfirmedOps(s) <= confirmed <= Spendable(s)
    ensures Sum(Offered(s, true), Amount(s)) <= Sum(confirmed, Amount(s))
  {
    var rest := confirmed - Offered(s, true);
    SumUnion(Offered(s, true), rest, Amount(s));
    assert Offered(s, true) + rest == confirmed;
    SumNonNegative(rest, Amount(s));
  }

  function CoinTotal(coins: seq<Coin>): int {
    if coins == [] then 0 else CoinTotal(coins[..|coins| - 1]) + coins[|coins| - 1].value
  }

  /** The coin shows an unspent output, with its own value and script and its depth below the tip. */
  ghost predicate Shows(c: Coin, utxos: map<OutPoint, Utxo>, tip: int) {
    && c.op in utxos
    && c.value == utxos[c.op].value && c.script == utxos[c.op].script
    && c.numConfs == if utxos[c.op].atHeight > 0 then tip - utxos[c.op].atHeight else 0
  }

  /** The coins show exactly the outputs ops, once each. */
  ghost predicate Describe(coins: seq<Coin>, ops: set<OutPoint>, utxos: map<OutPoint, Utxo>, tip: int) {
    && (forall c :: c in coins ==> c.op in ops && Shows(c, utxos, tip))
    && (forall op :: op in ops ==> exists c :: c in coins && c.op == op)
    && |coins| == |ops|
  }

  /** Every coin is an output on offer with its own value and script; the confirmations and the height of a confirmed
      one add up to the tip, an unconfirmed one has none. */
  lemma CoinsAreOutputs(coins: seq<Coin>, s: Tables, excludeUnconfirmed: bool, tip: int, c: Coin)
    requires Describe(coins, Offered(s, excludeUnconfirmed), s.utxos, tip) && c in coins
    ensures c.op in s.utxos && !s.utxos[c.op].frozen && !s.utxos[c.op].watchOnly
    ensures c.value == s.utxos[c.op].value && c.script == s.utxos[c.op].script
    ensures s.utxos[c.op].atHeight > 0 ==> c.numConfs + s.utxos[c.op].atHeight == tip
    ensures s.utxos[c.op].atHeight <= 0 ==> c.numConfs == 0 && !excludeUnconfirmed
  {
    assert c.op in Offered(s, excludeUnconfirmed) && Shows(c, s.utxos, tip);
  }

  lemma DescribeNone(utxos: map<OutPoint, Utxo>, tip: int)
    ensures Describe([], {}, utxos, tip) && CoinTotal([]) == 0
  {
  }

  lemma DescribeOne(coins: seq<Coin>, ops: set<OutPoint>, utxos: map<OutPoint, Utxo>, tip: int, c: Coin)
    requires Describe(coins, ops, utxos, tip) && c.op !in ops && Shows(c, utxos, tip)
    ensures Describe(coins + [c], ops + {c.op}, utxos, tip) && CoinTotal(coins + [c]) == CoinTotal(coins) + c.value
  {
    hide Shows;
    var more := coins + [c];
    assert more[..|more| - 1] == coins;
    forall op | op in ops + {c.op} ensures exists x :: x in more && x.op == op {
      if op == c.op {
        assert c in more;
      } else {
        var x :| x in coins && x.op == op;
        assert x in more;
      }
    }
  }

  /** What the recorded spends, in this order, say of an unspent output: the first that concerns it decides. */
  function Says(order: seq<Stxo>, u: Utxo): bool {
    if order == [] then false
    else
      var x := order[0];
      if x.utxo.watchOnly then Says(order[1..], u)
      else if x.spendTxid == u.op.hash then x.spendHeight > 0
      else if SameUtxo(x.utxo, u) then x.utxo.atHeight > 0
      else Says(order[1..], u)
  }

  /** Equal but for the marks. */
  predicate SameUtxo(a: Utxo, b: Utxo) {
    a.op == b.op && a.atHeight == b.atHeight && a.value == b.value && a.script == b.script
  }

  /** The recorded spend has something to say of the output: its transaction made the output, or it is of an output
      equal to it. */
  predicate Concerns(x: Stxo, u: Utxo) {
    !x.utxo.watchOnly && (x.spendTxid == u.op.hash || SameUtxo(x.utxo, u))
  }

  /** The first spend in the list that concerns the output decides: by the height of the spend where its transaction
      made the output, else by the height of the equal output; without one the answer is no. */
  lemma {:induction false} SaysIff(order: seq<Stxo>, u: Utxo)
    ensures Says(order, u)
        <==> exists i ::
               && 0 <= i < |order| && Concerns(order[i], u) && (forall j :: 0 <= j < i ==> !Concerns(order[j], u))
               && (if order[i].spendTxid == u.op.hash then order[i].spendHeight > 0 else order[i].utxo.atHeight > 0)
  {
    if order != [] && !Concerns(order[0], u) {
      SaysIff(order[1..], u);
      if Says(order, u) {
        var i :|
          && 0 <= i < |order[1..]| && Concerns(order[1..][i], u)
          && (forall j :: 0 <= j < i ==> !Concerns(order[1..][j], u))
          && (if order[1..][i].spendTxid == u.op.hash then order[1..][i].spendHeight > 0
              else order[1..][i].utxo.atHeight > 0);
        assert forall j :: 0 <= j < i + 1 ==> !Concerns(order[j], u) by {
          forall j | 0 <= j < i + 1 ensures !Concerns(order[j], u) {
            if j > 0 { assert order[1..][j - 1] == order[j]; }
          }
        }
        assert order[i + 1] == order[1..][i];
      } else {
        forall i | 0 <= i < |order| && Concerns(order[i], u) && (forall j :: 0 <= j < i ==> !Concerns(order[j], u))
          ensures !(if order[i].spendTxid == u.op.hash then order[i].spendHeight > 0 else order[i].utxo.atHeight > 0)
        {
          assert order[1..][i - 1] == order[i];
          forall j | 0 <= j < i - 1 ensures !Concerns(order[1..][j], u) { assert order[1..][j] == order[j + 1]; }
        }
      }
    }
  }

  function StxoKey(): Stxo -> OutPoint {
    (x: Stxo) => x.utxo.op
  }

  /** The outputs counted as confirmed where the database lists the spends in this order. */
  ghost function CountedBy(s: Tables, order: seq<Stxo>): set<OutPoint> {
    set op | op in Spendable(s) && (s.utxos[op].atHeight > 0 || Says(order, s.utxos[op]))
  }

  lemma {:induction false} SaysConfirmed(order: seq<Stxo>, u: Utxo)
    requires u.atHeight <= 0 && Says(order, u)
    ensures exists x :: x in order && x.spendTxid == u.op.hash && x.spendHeight > 0 && !x.utxo.watchOnly
  {
    var x := order[0];
    if x.utxo.watchOnly || (x.spendTxid != u.op.hash && !SameUtxo(x.utxo, u)) {
      SaysConfirmed(order[1..], u);
    } else {
      assert x in order;
    }
  }

  lemma {:induction false} SaysSurely(order: seq<Stxo>, u: Utxo, x: Stxo)
    requires x in order && x.spendTxid == u.op.hash && !x.utxo.watchOnly
    requires forall y :: y in order ==> y.utxo.op != u.op
    requires forall y :: y in order && y.spendTxid == u.op.hash && !y.utxo.watchOnly ==> y.spendHeight > 0
    ensures Says(order, u)
  {
    assert order[0] in order;
    if order[0].utxo.watchOnly || order[0].spendTxid != u.op.hash {
      assert x in order[1..];
      SaysSurely(order[1..], u, x);
    }
  }

  /** In whatever order the spends are listed: all confirmed outputs are counted, beyond them only change of confirmed
      spends, and of that all where no recorded spend is in doubt. */
  lemma CountedBounds(s: Tables, order: seq<Stxo>)
    requires Keyed(s) && Lists(order, s.stxos, StxoKey())
    ensures ConfirmedOps(s) <= CountedBy(s, order) <= Spendable(s)
    ensures forall op :: op in CountedBy(s, order) && op !in ConfirmedOps(s) ==> MadeByConfirmedSpend(s, op)
    ensures forall op :: op in Spendable(s) && SurelyConfirmed(s, op) ==> op in CountedBy(s, order)
  {
    assert forall i :: 0 <= i < |order| ==> StxoKey()(order[i]) == order[i].utxo.op;
    forall op | op in CountedBy(s, order) && op !in ConfirmedOps(s) ensures MadeByConfirmedSpend(s, op) {
      SaysConfirmed(order, s.utxos[op]);
      var x :| x in order && x.spendTxid == s.utxos[op].op.hash && x.spendHeight > 0 && !x.utxo.watchOnly;
      assert s.stxos[x.utxo.op] == x;
    }
    forall op | op in Spendable(s) && SurelyConfirmed(s, op) ensures op in CountedBy(s, order) {
      var o :| o in s.stxos && s.stxos[o].spendTxid == op.hash && s.stxos[o].spendHeight > 0
        && !s.stxos[o].utxo.watchOnly;
      assert s.stxos[o] in order;
      SaysSurely(order, s.utxos[op], s.stxos[o]);
    }
  }

  lemma SumOneMore<T(!new)>(a: set<T>, done: set<T>, f: T -> int, x: T)
    requires x !in done
    ensures Sum(a * (done + {x}), f) == if x in a then Sum(a * done, f) + f(x) else Sum(a * done, f)
  {
    if x in a {
      assert a * (done + {x}) == a * done + {x};
      SumInsert(a * done, f, x);
    } else {
      assert a * (done + {x}) == a * done;
    }
  }

  lemma Whole(s: Tables, a: set<OutPoint>)
    requires a <= Spendable(s)
    ensures Sum(a, Amount(s)) + Sum(Spendable(s) - a, Amount(s)) == UtxoValue(s)
  {
    SumUnion(a, Spendable(s) - a, Amount(s));
    assert a + (Spendable(s) - a) == Spendable(s);
  }

  lemma WithinDone(a: set<OutPoint>, done: set<OutPoint>)
    requires a <= done
    ensures a * done == a
  {
  }

  /** A walk over a complete list has visited every row. */
  lemma Complete(s: Tables, list: seq<Utxo>, done: set<OutPoint>)
    requires Keyed(s) && Lists(list, s.utxos, (u: Utxo) => u.op)
    requires forall j :: 0 <= j < |list| ==> list[j].op in done
    ensures s.utxos.Keys <= done
  {
    forall op | op in s.utxos ensures op in done {
      assert s.utxos[op] in list;
    }
  }

  lemma Membership(s: Tables, order: seq<Stxo>, op: OutPoint)
    requires op in s.utxos
    ensures var u := s.utxos[op];
            && Amount(s)(op) == u.value && (op in Spendable(s) <==> !u.watchOnly)
            && (op in FrozenOps(s) <==> !u.watchOnly && u.frozen)
            && (op in CountedBy(s, order) <==> !u.watchOnly && (u.atHeight > 0 || Says(order, u)))
  {
    hide Says;
  }

  lemma Bounds(s: Tables, order: seq<Stxo>)
    ensures CountedBy(s, order) <= Spendable(s) <= s.utxos.Keys && FrozenOps(s) <= Spendable(s)
  {
    hide Says;
  }

  lemma OfferOne(s: Tables, excludeUnconfirmed: bool, done: set<OutPoint>, op: OutPoint)
    requires op in s.utxos
    ensures var u, offered := s.utxos[op], Offered(s, excludeUnconfirmed);
            offered * (done + {op}) ==
            if u.watchOnly || u.frozen || (excludeUnconfirmed && u.atHeight <= 0) then offered * done
              else offered * done + {op}
  {
  }

  lemma OfferAll(s: Tables, excludeUnconfirmed: bool, done: set<OutPoint>)
    requires s.utxos.Keys <= done
    ensures Offered(s, excludeUnconfirmed) * done == Offered(s, excludeUnconfirmed)
  {
  }

  // ---------------------------------------------------------------------------
  // Freezing
  // ---------------------------------------------------------------------------

  /** Freezing takes an output off the offer and locks it, and moves nothing else. */
  lemma FreezeLocks(s: Tables, op: OutPoint, e: Tables)
    requires op in Spendable(s) && Step(s, Freeze(op), e)
    ensures FrozenOps(e) == FrozenOps(s) + {op} && Spendable(e) == Spendable(s) && ConfirmedOps(e) == ConfirmedOps(s)
    ensures forall x: bool :: Offered(e, x) == Offered(s, x) - {op}
    ensures forall p :: p in s.utxos ==> p in e.utxos && e.utxos[p].value == s.utxos[p].value
    ensures e.stxos == s.stxos && e.txns == s.txns
  {
  }

  /** Thawing puts it back on offer, unless it is unconfirmed and those are excluded. */
  lemma UnFreezeOffers(s: Tables, op: OutPoint, e: Tables)
    requires op in Spendable(s) && Step(s, UnFreeze(op), e)
    ensures FrozenOps(e) == FrozenOps(s) - {op} && Spendable(e) == Spendable(s) && ConfirmedOps(e) == ConfirmedOps(s)
    ensures Offered(e, false) == Offered(s, false) + {op}
    ensures Offered(e, true) == Offered(s, true) + if s.utxos[op].atHeight > 0 then {op} else {}
    ensures forall p :: p in s.utxos ==> p in e.utxos && e.utxos[p].value == s.utxos[p].value
    ensures e.stxos == s.stxos && e.txns == s.txns
  {
  }

  /** What is not there is neither frozen nor thawed. */
  lemma NothingToFreeze(s: Tables, op: OutPoint, e: Tables)
    requires op !in s.utxos && (Step(s, Freeze(op), e) || Step(s, UnFreeze(op), e))
    ensures e == s
  {
  }

  class Wallet {
    const txstore: TxStore
    var blockchainTip: int

    constructor (txstore: TxStore)
      ensures this.txstore == txstore && blockchainTip == 0
    {
      this.txstore := txstore;
      blockchainTip := 0;
    }

    method UpdateTip(newTip: int)
      modifies this
      ensures blockchainTip == newTip
    {
      blockchainTip := newTip;
    }

    /** The first spend in list order that concerns the output decides. */
    method IsStxoConfirmed(utxo: Utxo, stxos: seq<Stxo>) returns (yes: bool)
      ensures yes == Says(stxos, utxo)
    {
      for i := 0 to |stxos|
        invariant Says(stxos, utxo) == Says(stxos[i..], utxo)
      {
        assert stxos[i..][1..] == stxos[i + 1..];
        var stxo := stxos[i];
        if stxo.utxo.watchOnly {
          continue;
        }
        if stxo.spendTxid == utxo.op.hash {
          return stxo.spendHeight > 0;
        }
        if SameUtxo(stxo.utxo, utxo) {
          return stxo.utxo.atHeight > 0;
        }
      }
      yes := false;
    }

    method ListUtxos() returns (list: seq<Utxo>)
      requires Keyed(txstore.State())
      ensures Lists(list, txstore.utxos, (u: Utxo) => u.op)
      ensures forall i :: 0 <= i < |list| ==> list[i].op in txstore.utxos && txstore.utxos[list[i].op] == list[i]
      ensures forall i, j :: 0 <= i < j < |list| ==> list[i].op != list[j].op
    {
      ghost var key := (u: Utxo) => u.op;
      list := GetAll(txstore.utxos, key);
      assert forall i :: 0 <= i < |list| ==> key(list[i]) == list[i].op;
    }

    method ListStxos() returns (list: seq<Stxo>)
      requires Keyed(txstore.State())
      ensures Lists(list, txstore.stxos, StxoKey())
    {
      list := GetAll(txstore.stxos, StxoKey());
    }

    /** Every output that is not watch-only is counted once, as confirmed or as unconfirmed; the frozen ones are counted
        as locked besides. order is the order in which the database lists the spends. */
    method Balance() returns (confirmed: int, unconfirmed: int, locked: int, ghost order: seq<Stxo>)
      requires Keyed(txstore.State())
      ensures confirmed + unconfirmed == UtxoValue(txstore.State())
      ensures Balanced(txstore.State()) ==> confirmed + unconfirmed == LiveValue(txstore.State())
      ensures locked == Sum(FrozenOps(txstore.State()), Amount(txstore.State()))
      ensures Lists(order, txstore.stxos, StxoKey())
      ensures confirmed == Sum(CountedBy(txstore.State(), order), Amount(txstore.State()))
    {
      hide Sum, Keyed, UtxoValue, LiveValue, Lists, CountedBy, FrozenOps, Spendable, Says, Amount;
      ghost var s := txstore.State();
      ghost var f, whole, frozen := Amount(s), Spendable(s), FrozenOps(s);
      var utxos := ListUtxos();
      var stxos := ListStxos();
      order := stxos;
      ghost var counted := CountedBy(s, order);
      ghost var later := whole - counted;
      ghost var done: set<OutPoint> := {};
      confirmed, unconfirmed, locked := 0, 0, 0;
      SumEmpty(f);
      assert counted * done == later * done == frozen * done == {};
      for i := 0 to |utxos|
        invariant forall j :: i <= j < |utxos| ==> utxos[j].op !in done
        invariant forall j :: 0 <= j < i ==> utxos[j].op in done
        invariant confirmed == Sum(counted * done, f) && unconfirmed == Sum(later * done, f)
                  && locked == Sum(frozen * done, f)
      {
        var utxo := utxos[i];
        Membership(s, order, utxo.op);
        SumOneMore(counted, done, f, utxo.op);
        SumOneMore(later, done, f, utxo.op);
        SumOneMore(frozen, done, f, utxo.op);
        done := done + {utxo.op};
        if !utxo.watchOnly {
          if utxo.frozen {
            locked := locked + utxo.value;
          }
          var certain := utxo.atHeight > 0;
          if !certain {
            certain := IsStxoConfirmed(utxo, stxos);
          }
          if certain {
            confirmed := confirmed + utxo.value;
          } else {
            unconfirmed := unconfirmed + utxo.value;
          }
        }
      }
      Complete(s, utxos, done);
      Bounds(s, order);
      WithinDone(counted, done);
      WithinDone(later, done);
      WithinDone(frozen, done);
      Whole(s, counted);
    }

    /** The coins on offer, once each, with the confirmations counted from the tip. */
    method GatherCoins(excludeUnconfirmed: bool) returns (coins: seq<Coin>)
      requires Keyed(txstore.State())
      ensures Describe(coins, Offered(txstore.State(), excludeUnconfirmed), txstore.utxos, blockchainTip)
      ensures CoinTotal(coins) == Sum(Offered(txstore.State(), excludeUnconfirmed), Amount(txstore.State()))
    {
      hide Sum, Keyed, Describe, CoinTotal, Offered, Spendable;
      ghost var s := txstore.State();
      ghost var f := Amount(s);
      var utxos := ListUtxos();
      ghost var done: set<OutPoint>, gathered: set<OutPoint> := {}, {};
      DescribeNone(s.utxos, blockchainTip);
      coins := [];
      SumEmpty(f);
      assert Offered(s, excludeUnconfirmed) * done == {};
      for i := 0 to |utxos|
        invariant forall j :: i <= j < |utxos| ==> utxos[j].op !in done
        invariant forall j :: 0 <= j < i ==> utxos[j].op in done
        invariant gathered == Offered(s, excludeUnconfirmed) * done
        invariant Describe(coins, gathered, s.utxos, blockchainTip)
        invariant CoinTotal(coins) == Sum(gathered, f)
      {
        var u := utxos[i];
        OfferOne(s, excludeUnconfirmed, done, u.op);
        done := done + {u.op};
        if u.watchOnly || u.frozen || (excludeUnconfirmed && u.atHeight <= 0) {
          continue;
        }
        var confirmations := if u.atHeight > 0 then blockchainTip - u.atHeight else 0;
        var coin := Coin(u.op, u.value, confirmations, u.script);
        DescribeOne(coins, gathered, s.utxos, blockchainTip, coin);
        SumInsert(gathered, f, u.op);
        gathered := gathered + {u.op};
        coins := coins + [coin];
      }
      Complete(s, utxos, done);
      OfferAll(s, excludeUnconfirmed, done);
    }

    method FreezeUTXO(op: OutPoint) returns (ok: bool)
      modifies txstore
      ensures ok <==> op in old(txstore.utxos)
      ensures txstore.State() == SetFrozen(old(txstore.State()), op, true)
    {
      ok := op in txstore.utxos;
      if ok {
        txstore.utxos := txstore.utxos[op := txstore.utxos[op].(frozen := true)];
      }
    }

    method UnFreezeUTXO(op: OutPoint) returns (ok: bool)
      modifies txstore
      ensures ok <==> op in old(txstore.utxos)
      ensures txstore.State() == SetFrozen(old(txstore.State()), op, false)
    {
      ok := op in txstore.utxos;
      if ok {
        txstore.utxos := txstore.utxos[op := txstore.utxos[op].(frozen := false)];
      }
    }
  }
}
