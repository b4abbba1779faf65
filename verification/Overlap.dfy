/** When an outpoint comes to be listed both as unspent and as spent. */
module Overlap {
  import opened Adding
  import opened Conservation
  import opened Disjointness
  import opened ExactAdding
  import opened Ledger
  import opened LedgerRuns
  import opened Undo

  ghost predicate Disjoint(s: Tables) {
    s.utxos.Keys !! s.stxos.Keys
  }

  /** What undoing needs to be exact, and what every run keeps. */
  ghost predicate Ranked(s: Tables, rank: Txid -> nat) {
    Keyed(s) && SpendersStored(s) && RankedSpends(s, rank)
  }

  /** No own output of tx is recorded as spent, but by what adding tx undoes. */
  ghost predicate OwnNotSpent(s: Tables, tx: Tx) {
    forall op :: IsCredit(tx, s.adrs, op) && op in s.stxos ==>
      s.stxos[op].spendTxid in Descendants(s.stxos, Conflicts(s, tx))
  }

  lemma RankedIsExact(s: Tables, rank: Txid -> nat)
    requires Ranked(s, rank)
    ensures Exact(s)
  {
    RankedIsAcyclic(s.stxos, rank);
  }

  /** A processed call keeps unspent and spent outputs apart exactly when none of its own outputs stays recorded as
      spent. */
  lemma StaysDisjointIff(s: Tables, event: Event, e: Tables, rank: Txid -> nat)
    requires Processed(s, event) && Ranked(s, rank) && RankedTx(event.tx, rank) && Disjoint(s) && Step(s, event, e)
    ensures Disjoint(e) <==> OwnNotSpent(s, event.tx)
  {
    var tx, k := event.tx, WithoutConflicts(s, event.tx);
    assert SpendsOthers(tx);
    RankedIsExact(s, rank);
    KilledDisjoint(s, Descendants(s.stxos, Conflicts(s, tx)));
    assert k.adrs == s.adrs;
    hide Exact, Ranked, Processed, RankedTx, Settled, Pick, Relevant, Step, IsCredit, Kill, Conflicts, Descendants,
         WithoutConflicts;
    var pick := ExactAdd(s, event, e);
    OverlapSettled(k, tx, event.height, e);
  }

  lemma KilledDisjoint(s: Tables, d: set<Txid>)
    requires Disjoint(s)
    ensures Disjoint(Kill(s, d))
    ensures forall op :: op in Kill(s, d).stxos <==> op in s.stxos && s.stxos[op].spendTxid !in d
  {
  }

  lemma OverlapSettled(k: Tables, tx: Tx, height: int, e: Tables)
    requires Disjoint(k) && SpendsOthers(tx) && OutputsSettled(k, tx, height, e)
    ensures Disjoint(e) <==> forall op :: IsCredit(tx, k.adrs, op) ==> op !in k.stxos
  {
    hide NewUtxo, Own, Filed;
    if op :| IsCredit(tx, k.adrs, op) && op in k.stxos {
      assert op in e.utxos && op in e.stxos;
    } else {
      forall op | op in e.utxos ensures op !in e.stxos {}
    }
  }

  /** In a sound wallet: exactly when the transaction is not live already with an own output spent. */
  lemma SoundStaysDisjointIff(s: Tables, event: Event, e: Tables, rank: Txid -> nat)
    requires Processed(s, event) && Sound(s, rank) && RankedTx(event.tx, rank) && HashBinds(s, event)
    requires Step(s, event, e)
    ensures Disjoint(e)
        <==> (Live(s, event.tx.id) ==> forall op :: IsCredit(event.tx, s.adrs, op) ==> op !in s.stxos)
  {
    var tx := event.tx;
    SoundIsConsistent(s, rank);
    assert Ranked(s, rank) && Disjoint(s);
    assert ParentsLive(s);
    StaysDisjointIff(s, event, e, rank);
    hide Sound, Ranked, Processed, Disjoint;
    if Live(s, tx.id) {
      SoundLive(s, tx, rank);
      KillNothing(s);
    } else {
      forall op | IsCredit(tx, s.adrs, op) ensures op !in s.stxos {
        assert op in s.stxos ==> op in Held(s);
      }
    }
  }

  // ---------------------------------------------------------------------------
  // Runs
  // ---------------------------------------------------------------------------

  /** Spends come after what they spend; hashes see to that. */
  ghost predicate RankedEvents(states: seq<Tables>, events: seq<Event>, rank: Txid -> nat)
    requires |states| == |events| + 1
  {
    forall i :: 0 <= i < |events| && Processed(states[i], events[i]) ==> RankedTx(events[i].tx, rank)
  }

  lemma StepKeepsRanked(s: Tables, event: Event, e: Tables, rank: Txid -> nat)
    requires Ranked(s, rank) && (Processed(s, event) ==> RankedTx(event.tx, rank)) && Step(s, event, e)
    ensures Ranked(e, rank)
  {
    if event.Add? {
      hide Ranked, Processed, RankedTx, Step;
      if Processed(s, event) {
        AddKeepsRanked(s, event, e, rank);
      } else {
        hide Conflicts;
        var _, _ := Process(s, event, e);
      }
    }
  }

  lemma AddKeepsRanked(s: Tables, event: Event, e: Tables, rank: Txid -> nat)
    requires Processed(s, event) && Ranked(s, rank) && RankedTx(event.tx, rank) && Step(s, event, e)
    ensures Ranked(e, rank)
  {
    var tx, k := event.tx, WithoutConflicts(s, event.tx);
    var d := Descendants(s.stxos, Conflicts(s, tx));
    assert SpendsOthers(tx);
    RankedIsExact(s, rank);
    KilledRanked(s, d, rank);
    hide Exact, Processed, Settled, Pick, Relevant, Step, IsCredit, Kill, Conflicts, Descendants, Keyed,
         SpendersStored, RankedSpends, Debited, Credited, OutputsSettled, RowSettled;
    var pick := ExactAdd(s, event, e);
    SettledKeyed(k, tx, event.height, pick, event.keyAdrs);
    SettledSpenders(k, tx, event.height, pick, event.keyAdrs);
    RankedSettled(k, tx, event.height, e, rank);
  }

  lemma KilledRanked(s: Tables, d: set<Txid>, rank: Txid -> nat)
    requires Ranked(s, rank)
    ensures Ranked(Kill(s, d), rank)
  {
    KillKeyed(s, d);
    hide Keyed;
  }

  lemma RankedSettled(k: Tables, tx: Tx, height: int, e: Tables, rank: Txid -> nat)
    requires RankedSpends(k, rank) && RankedTx(tx, rank) && OutputsSettled(k, tx, height, e)
    ensures RankedSpends(e, rank)
  {
    hide IsCredit, NewUtxo, Filed;
  }

  lemma {:induction false} RunIsRanked(states: seq<Tables>, events: seq<Event>, rank: Txid -> nat, n: nat)
    requires Run(states, events) && RankedEvents(states, events, rank) && n <= |events|
    ensures Ranked(states[n], rank)
    decreases n
  {
    hide Step, Ranked, RankedTx, Processed;
    if n == 0 {
      var adrs, keepsFrozen :| states[0] == Empty(adrs, keepsFrozen);
      EmptyIsRanked(adrs, keepsFrozen, rank);
    } else {
      RunIsRanked(states, events, rank, n - 1);
      assert Step(states[n - 1], events[n - 1], states[n]);
      StepKeepsRanked(states[n - 1], events[n - 1], states[n], rank);
    }
  }

  lemma EmptyIsRanked(adrs: seq<Script>, keepsFrozen: bool, rank: Txid -> nat)
    ensures Ranked(Empty(adrs, keepsFrozen), rank) && Disjoint(Empty(adrs, keepsFrozen))
  {
  }

  /** What each call must respect for the tables to stay apart. */
  ghost predicate NoneRevived(states: seq<Tables>, events: seq<Event>, n: nat)
    requires |states| == |events| + 1 && n <= |events|
  {
    forall i :: 0 <= i < n && Processed(states[i], events[i]) ==> OwnNotSpent(states[i], events[i].tx)
  }

  /** Over every run: no outpoint was ever both unspent and spent exactly when no processed call added a transaction
      with an own output recorded as spent. */
  lemma {:induction false} NeverBothIff(states: seq<Tables>, events: seq<Event>, rank: Txid -> nat, n: nat)
    requires Run(states, events) && RankedEvents(states, events, rank) && n <= |events|
    ensures (forall i :: 0 <= i <= n ==> Disjoint(states[i])) <==> NoneRevived(states, events, n)
    decreases n
  {
    hide Step, Ranked, RankedTx, Processed, OwnNotSpent, Disjoint;
    if n == 0 {
      var adrs, keepsFrozen :| states[0] == Empty(adrs, keepsFrozen);
      EmptyIsRanked(adrs, keepsFrozen, rank);
    } else {
      NeverBothIff(states, events, rank, n - 1);
      RunIsRanked(states, events, rank, n - 1);
      var s, event, e := states[n - 1], events[n - 1], states[n];
      assert Step(s, event, e);
      if Disjoint(s) {
        if Processed(s, event) {
          StaysDisjointIff(s, event, e, rank);
        } else {
          OthersStayDisjoint(s, event, e);
        }
      }
    }
  }

  lemma OthersStayDisjoint(s: Tables, event: Event, e: Tables)
    requires Disjoint(s) && !Processed(s, event) && Step(s, event, e)
    ensures Disjoint(e)
  {
    if event.Add? {
      hide Conflicts, Sane, Known;
    }
  }
}
