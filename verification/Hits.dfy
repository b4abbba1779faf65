/** What one call reports, and that no row is ever watch-only. */
module Hits {
  import opened Adding
  import opened Conservation
  import opened Disjointness
  import opened ExactAdding
  import opened Ledger
  import opened LedgerRuns
  import opened Options
  import opened Overlap
  import opened RowContents
  import opened Undo

  ghost predicate NoneWatchOnly(s: Tables) {
    && (forall op :: op in s.utxos ==> !s.utxos[op].watchOnly)
    && (forall op :: op in s.stxos ==> !s.stxos[op].utxo.watchOnly)
    && (forall t :: t in s.txns ==> !s.txns[t].watchOnly)
  }

  // ---------------------------------------------------------------------------
  // Hits
  // ---------------------------------------------------------------------------

  lemma {:induction false} CreditHitsCount(tx: Tx, adrs: seq<Script>, n: nat)
    requires n <= |tx.outs|
    ensures CreditHits(tx, adrs, n) == |CreditSet(tx, adrs, n)|
  {
    if n > 0 {
      CreditHitsCount(tx, adrs, n - 1);
      var op := OutPoint(tx.id, n - 1);
      assert op !in CreditSet(tx, adrs, n - 1);
      if Own(tx, adrs, n - 1) {
        assert CreditSet(tx, adrs, n) == CreditSet(tx, adrs, n - 1) + {op};
      } else {
        assert CreditSet(tx, adrs, n) == CreditSet(tx, adrs, n - 1);
      }
    }
  }

  lemma {:induction false} DebitHitsCount(utxos: map<OutPoint, Utxo>, ins: seq<OutPoint>, n: nat)
    requires n <= |ins| && Distinct(ins) && forall op :: op in utxos ==> !utxos[op].watchOnly
    ensures DebitHits(utxos, ins, n) == |Spent(utxos, ins[..n])|
  {
    if n > 0 {
      DebitHitsCount(utxos, ins, n - 1);
      SpentStep(utxos, ins, n - 1);
    }
  }

  lemma SpendsNotWatched(k: Tables, tx: Tx, height: int)
    requires NoneWatchOnly(k)
    ensures var c := Credited(k, tx, height);
            && (forall op :: op in c.utxos ==> !c.utxos[op].watchOnly)
            && forall op :: op in Debited(c, tx, height).stxos ==> !Debited(c, tx, height).stxos[op].utxo.watchOnly
  {
    hide Debited, Own;
    var c := Credited(k, tx, height);
    assert c.stxos == k.stxos && forall op :: op in c.utxos ==> !c.utxos[op].watchOnly;
    hide Credited;
    DebitedRows(c, tx, height);
  }

  /** A call hits once for each own output, each input spent from the wallet, and once more where a spend gets its
      height. */
  lemma HitsCount(k: Tables, tx: Tx, height: int, pick: Option<OutPoint>)
    requires NoneWatchOnly(k) && SpendsOthers(tx) && Distinct(tx.ins)
    requires Pick(Debited(Credited(k, tx, height), tx, height), tx.id, height, pick)
    ensures Hits(k, tx, height, pick)
         == |CreditSet(tx, k.adrs, |tx.outs|)| + |DebitSet(k, tx)| + if pick.Some? then 1 else 0
  {
    hide Credited, Debited, CreditHits, DebitHits, CreditSet, NoneWatchOnly;
    CreditHitsCount(tx, k.adrs, |tx.outs|);
    SpendsNotWatched(k, tx, height);
    var c := Credited(k, tx, height);
    DebitHitsCount(c.utxos, tx.ins, |tx.ins|);
    assert tx.ins[..|tx.ins|] == tx.ins;
    CreditedOutputs(k, tx, height);
    assert Spent(c.utxos, tx.ins) == DebitSet(k, tx);
  }

  lemma HitsIffRelevant(k: Tables, tx: Tx, height: int, pick: Option<OutPoint>)
    requires NoneWatchOnly(k) && SpendsOthers(tx) && Distinct(tx.ins)
    requires Pick(Debited(Credited(k, tx, height), tx, height), tx.id, height, pick)
    ensures Hits(k, tx, height, pick) > 0 <==> Relevant(k, tx, height, pick)
  {
    HitsCount(k, tx, height, pick);
    hide Hits, Pick, Debited, Credited;
    RelevantSets(k, tx, height, pick);
  }

  lemma RelevantSets(k: Tables, tx: Tx, height: int, pick: Option<OutPoint>)
    requires SpendsOthers(tx)
    ensures Relevant(k, tx, height, pick)
        <==> CreditSet(tx, k.adrs, |tx.outs|) != {} || DebitSet(k, tx) != {} || pick.Some?
  {
    CreditedOutputs(k, tx, height);
    assert Spent(Credited(k, tx, height).utxos, tx.ins) == DebitSet(k, tx);
    if i: nat :| i < |tx.outs| && Own(tx, k.adrs, i) {
      assert OutPoint(tx.id, i) in CreditSet(tx, k.adrs, |tx.outs|);
    }
  }

  /** What one call reports: nothing for a call that is ignored, but one for what is known already; otherwise one for
      each own output, each input spent, a spend that gets its height, and the row stored, which is when any of these
      is there. */
  lemma CallReports(s: Tables, tx: Tx, height: int, keyAdrs: seq<Script>, e: Tables, hits: nat, rank: Txid -> nat)
    requires Ranked(s, rank) && NoneWatchOnly(s) && Added(s, tx, height, keyAdrs, e, hits)
    requires !Ignored(s, tx, height) ==> RankedTx(tx, rank)
    ensures Ignored(s, tx, height) ==>
              e == s && hits == if Sane(tx) && tx.id in s.txids && (s.txids[tx.id] > 0 || s.txids[tx.id] == 0 == height)
                                then 1 else 0
    ensures !Ignored(s, tx, height) ==>
              var k := WithoutConflicts(s, tx);
              var moved := |CreditSet(tx, s.adrs, |tx.outs|)| + |DebitSet(k, tx)|
                           + if height > 0 && (exists op :: SpendOf(e, tx.id, op)) then 1 else 0;
              hits == if moved > 0 then moved + 1 else 0
  {
    if !Ignored(s, tx, height) {
      CallHits(s, tx, height, keyAdrs, e, hits, rank);
    }
  }

  lemma CallHits(s: Tables, tx: Tx, height: int, keyAdrs: seq<Script>, e: Tables, hits: nat, rank: Txid -> nat)
    requires Ranked(s, rank) && NoneWatchOnly(s) && Added(s, tx, height, keyAdrs, e, hits)
    requires !Ignored(s, tx, height) && RankedTx(tx, rank)
    ensures var k := WithoutConflicts(s, tx);
            var moved := |CreditSet(tx, s.adrs, |tx.outs|)| + |DebitSet(k, tx)|
                         + if height > 0 && (exists op :: SpendOf(e, tx.id, op)) then 1 else 0;
            hits == if moved > 0 then moved + 1 else 0
  {
    RankedIsExact(s, rank);
    assert SpendsOthers(tx) && Distinct(tx.ins);
    var k := WithoutConflicts(s, tx);
    assert NoneWatchOnly(k) by { KilledNotWatched(s, Descendants(s.stxos, Conflicts(s, tx))); }
    assert k.adrs == s.adrs && Settles(k, tx, height, keyAdrs, e, hits);
    hide Added, Ignored, Ranked, RankedTx, Conflicts, WithoutConflicts, NoneWatchOnly, Exact;
    SettleHits(k, tx, height, keyAdrs, e, hits);
  }

  lemma SettleHits(k: Tables, tx: Tx, height: int, keyAdrs: seq<Script>, e: Tables, hits: nat)
    requires NoneWatchOnly(k) && SpendsOthers(tx) && Distinct(tx.ins) && Settles(k, tx, height, keyAdrs, e, hits)
    ensures var moved := |CreditSet(tx, k.adrs, |tx.outs|)| + |DebitSet(k, tx)|
                         + if height > 0 && (exists op :: SpendOf(e, tx.id, op)) then 1 else 0;
            hits == if moved > 0 then moved + 1 else 0
  {
    var pick :|
      && Pick(Debited(Credited(k, tx, height), tx, height), tx.id, height, pick)
      && e == Settled(k, tx, height, pick, keyAdrs)
      && hits == Hits(k, tx, height, pick) + if Relevant(k, tx, height, pick) then 1 else 0;
    hide Settles, Settled, Relevant, Debited, Credited, CreditSet, DebitSet, Hits, Pick, SameSpends, SpendOf,
         NoneWatchOnly, RowSettled, Distinct, SpendsOthers;
    HitsCount(k, tx, height, pick);
    HitsIffRelevant(k, tx, height, pick);
    SettledFields(k, tx, height, pick, keyAdrs);
    PickedSpend(Debited(Credited(k, tx, height), tx, height), tx.id, height, pick, e);
  }

  /** Another stored transaction that is not dead spends the same output. */
  ghost predicate Beaten(s: Tables, tx: Tx, t: Txid, op: OutPoint) {
    t != tx.id && t in s.txns && s.txns[t].height >= 0 && op in tx.ins && op in s.txns[t].tx.ins
  }

  /** The calls that leave the tables alone: malformed ones; those that say nothing new by the height cache, as what is
      confirmed stays confirmed and what is pending is not pending twice; and pending ones that come second. */
  lemma LeftAlone(s: Tables, tx: Tx, height: int, keyAdrs: seq<Script>, e: Tables, hits: nat)
    requires Added(s, tx, height, keyAdrs, e, hits)
    ensures tx.ins == [] || tx.outs == [] || !tx.otherChecks ==> e == s && hits == 0
    ensures (exists i, j :: 0 <= i < j < |tx.ins| && tx.ins[i] == tx.ins[j]) ==> e == s && hits == 0
    ensures (exists o :: o in tx.outs && !(0 <= o.value <= 2_100_000_000_000_000)) ==> e == s && hits == 0
    ensures TotalOut(tx.outs) > 2_100_000_000_000_000 ==> e == s && hits == 0
    ensures tx.id in s.txids && s.txids[tx.id] > 0 ==> e == s
    ensures tx.id in s.txids && s.txids[tx.id] == 0 == height ==> e == s
    ensures height == 0 && (exists t, op :: Beaten(s, tx, t, op)) ==> e == s
  {
    if height == 0 {
      if t, op :| Beaten(s, tx, t, op) {
        assert t in Conflicts(s, tx);
      }
    }
    hide Cleared, Settles, TotalOut, Conflicts;
  }

  /** No other call is ignored. */
  lemma OthersAreProcessed(s: Tables, tx: Tx, height: int)
    requires Ignored(s, tx, height)
    ensures || tx.ins == [] || tx.outs == [] || !tx.otherChecks || TotalOut(tx.outs) > 2_100_000_000_000_000
            || (exists i, j :: 0 <= i < j < |tx.ins| && tx.ins[i] == tx.ins[j])
            || (exists o :: o in tx.outs && !(0 <= o.value <= 2_100_000_000_000_000))
            || (tx.id in s.txids && (s.txids[tx.id] > 0 || s.txids[tx.id] == 0 == height))
            || (height == 0 && exists t, op :: Beaten(s, tx, t, op))
  {
    hide TotalOut;
    if height == 0 && Conflicts(s, tx) != {} {
      var t :| t in Conflicts(s, tx);
      var op :| op in s.txns[t].tx.ins && op in tx.ins;
      assert Beaten(s, tx, t, op);
    }
  }

  // ---------------------------------------------------------------------------
  // Nothing is ever watch-only
  // ---------------------------------------------------------------------------

  lemma KilledNotWatched(s: Tables, d: set<Txid>)
    requires NoneWatchOnly(s)
    ensures NoneWatchOnly(Kill(s, d))
  {
  }

  lemma SettledNotWatched(k: Tables, tx: Tx, height: int, pick: Option<OutPoint>, keyAdrs: seq<Script>)
    requires NoneWatchOnly(k) && SpendsOthers(tx) && Distinct(tx.ins)
    requires Pick(Debited(Credited(k, tx, height), tx, height), tx.id, height, pick)
    ensures NoneWatchOnly(Settled(k, tx, height, pick, keyAdrs))
  {
    var e := Settled(k, tx, height, pick, keyAdrs);
    RowNotWatched(k, tx, height, pick, keyAdrs);
    hide Settled, Credited, Debited, Relevant, Hits, NetValue, Pick, RowSettled;
    SpendsNotWatched(k, tx, height);
    SettledFields(k, tx, height, pick, keyAdrs);
    DebitedRows(Credited(k, tx, height), tx, height);
  }

  lemma RowNotWatched(k: Tables, tx: Tx, height: int, pick: Option<OutPoint>, keyAdrs: seq<Script>)
    requires NoneWatchOnly(k) && SpendsOthers(tx) && Distinct(tx.ins)
    requires Pick(Debited(Credited(k, tx, height), tx, height), tx.id, height, pick)
    ensures var e := Settled(k, tx, height, pick, keyAdrs); forall t :: t in e.txns ==> !e.txns[t].watchOnly
  {
    var d := Debited(Credited(k, tx, height), tx, height);
    var r, value, hits := Reheighted(d, pick, height), NetValue(k, tx, height), Hits(k, tx, height, pick);
    assert forall t :: t in k.txns ==> !k.txns[t].watchOnly;
    hide Credited, Debited, Relevant, Hits, NetValue, NoneWatchOnly, Pick, Recorded, Heights, SpendsOthers, Distinct,
         Reheighted, SameSpends;
    HitsIffRelevant(k, tx, height, pick);
    DebitedFields(k, tx, height);
    ReheightedFields(d, tx, height, pick);
    RecordedWatch(r, tx, value, height, hits == 0);
  }

  lemma RecordedWatch(r: Tables, tx: Tx, value: int, height: int, watchOnly: bool)
    requires forall t :: t in r.txns ==> !r.txns[t].watchOnly
    ensures !watchOnly ==>
              var e := Recorded(r, tx, value, height, watchOnly); forall t :: t in e.txns ==> !e.txns[t].watchOnly
  {
  }

  lemma StepKeepsNotWatched(s: Tables, event: Event, e: Tables, rank: Txid -> nat)
    requires Ranked(s, rank) && NoneWatchOnly(s) && (Processed(s, event) ==> RankedTx(event.tx, rank))
    requires Step(s, event, e)
    ensures NoneWatchOnly(e)
  {
    if event.Add? {
      hide NoneWatchOnly, Ranked, Step, RankedTx, Ignored, Conflicts;
      if Processed(s, event) {
        AddKeepsNotWatched(s, event, e, rank);
      } else {
        var _, _ := Process(s, event, e);
      }
    }
  }

  lemma AddKeepsNotWatched(s: Tables, event: Event, e: Tables, rank: Txid -> nat)
    requires Processed(s, event) && Ranked(s, rank) && NoneWatchOnly(s) && RankedTx(event.tx, rank) && Step(s, event, e)
    ensures NoneWatchOnly(e)
  {
    assert SpendsOthers(event.tx) && Distinct(event.tx.ins);
    RankedIsExact(s, rank);
    KilledNotWatched(s, Descendants(s.stxos, Conflicts(s, event.tx)));
    hide NoneWatchOnly, Ranked, Step, RankedTx, Ignored, Conflicts, Kill, Settled, Pick, Relevant, SettledFrom, Exact,
         Distinct, SpendsOthers, Descendants;
    var pick := ExactAdd(s, event, e);
    SettledNotWatched(WithoutConflicts(s, event.tx), event.tx, event.height, pick, event.keyAdrs);
  }

  /** Over every run no output and no transaction is watch-only. */
  lemma {:induction false} NeverWatchOnly(states: seq<Tables>, events: seq<Event>, rank: Txid -> nat, n: nat)
    requires Run(states, events) && RankedEvents(states, events, rank) && n <= |events|
    ensures NoneWatchOnly(states[n])
    decreases n
  {
    hide Step, Ranked, RankedTx, Processed;
    if n > 0 {
      hide NoneWatchOnly;
      NeverWatchOnly(states, events, rank, n - 1);
      RunIsRanked(states, events, rank, n - 1);
      assert Step(states[n - 1], events[n - 1], states[n]);
      StepKeepsNotWatched(states[n - 1], events[n - 1], states[n], rank);
    }
  }
}
