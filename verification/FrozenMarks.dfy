/** What becomes of the frozen mark of an output. */
module FrozenMarks {
  import opened Adding
  import opened Conservation
  import opened Disjointness
  import opened ExactAdding
  import opened Ledger
  import opened LedgerRuns
  import opened Overlap
  import opened Undo

  /** The tables with the conflicts undone, and the outputs settled on them. */
  lemma Rows(s: Tables, event: Event, e: Tables, rank: Txid -> nat) returns (k: Tables)
    requires Processed(s, event) && Ranked(s, rank) && RankedTx(event.tx, rank) && Step(s, event, e)
    ensures k == Kill(s, Descendants(s.stxos, Conflicts(s, event.tx))) && k.adrs == s.adrs
    ensures OutputsSettled(k, event.tx, event.height, e) && SpendsOthers(event.tx)
    ensures k.keepsFrozen == s.keepsFrozen == e.keepsFrozen
  {
    k := WithoutConflicts(s, event.tx);
    assert k == Kill(s, Descendants(s.stxos, Conflicts(s, event.tx)));
    assert k.keepsFrozen == s.keepsFrozen && k.adrs == s.adrs;
    assert SpendsOthers(event.tx);
    RankedIsExact(s, rank);
    hide Exact, Processed, Settled, Pick, Relevant, Step, IsCredit, Kill, Conflicts, Descendants, WithoutConflicts,
         OutputsSettled, RowSettled, Debited, Credited, Ranked;
    var pick := ExactAdd(s, event, e);
    SettledFields(k, event.tx, event.height, pick, event.keyAdrs);
  }

  /** A row that survives an undoing, and an output that it lists again. */
  lemma KilledRow(s: Tables, d: set<Txid>, op: OutPoint)
    ensures var k := Kill(s, d);
            && (op in k.stxos ==> op in s.stxos && k.stxos[op] == s.stxos[op])
            && (op in k.utxos && op !in s.stxos ==> op in s.utxos && k.utxos[op] == s.utxos[op])
            && (op in k.utxos && op !in s.utxos ==> op in s.stxos && k.utxos[op] == s.stxos[op].utxo)
            && (op in k.utxos && op in k.stxos ==> op in s.utxos && op in s.stxos)
  {
  }

  /** A call keeps an unspent output frozen exactly when it neither pays it again, nor spends it, nor undoes its
      transaction. An output that is paid again and stays unspent is not frozen any more. */
  lemma StaysFrozenIff(s: Tables, event: Event, e: Tables, rank: Txid -> nat, op: OutPoint)
    requires Processed(s, event) && Ranked(s, rank) && RankedTx(event.tx, rank) && Step(s, event, e)
    requires op in s.utxos && op !in s.stxos && s.utxos[op].frozen
    ensures op in e.utxos && e.utxos[op].frozen
        <==> && !IsCredit(event.tx, s.adrs, op) && op !in event.tx.ins
             && op.hash !in Descendants(s.stxos, Conflicts(s, event.tx))
    ensures op in e.utxos ==> (e.utxos[op].frozen <==> !IsCredit(event.tx, s.adrs, op))
  {
    hide Step, Conflicts, Descendants, Ranked, Processed, RankedTx, Own;
    var k := Rows(s, event, e, rank);
  }

  // ---------------------------------------------------------------------------
  // A spend that is undone
  // ---------------------------------------------------------------------------

  ghost predicate OnlyUnspent(s: Tables, op: OutPoint) {
    op in s.utxos && op !in s.stxos
  }

  ghost predicate OnlySpent(s: Tables, op: OutPoint) {
    op in s.stxos && op !in s.utxos
  }

  /** The call pays op. */
  ghost predicate Pays(s: Tables, event: Event, op: OutPoint) {
    event.Add? && IsCredit(event.tx, s.adrs, op)
  }

  lemma SpentIsFiled(s: Tables, event: Event, e: Tables, rank: Txid -> nat, op: OutPoint)
    requires Ranked(s, rank) && (Processed(s, event) ==> RankedTx(event.tx, rank)) && Step(s, event, e)
    requires OnlyUnspent(s, op) && OnlySpent(e, op)
    ensures e.stxos[op].utxo == Filed(s, s.utxos[op]) && e.keepsFrozen == s.keepsFrozen
  {
    hide Conflicts, Descendants, Ranked, Sane, Known, RankedTx, Own, NewUtxo, Filed, Kill;
    if Processed(s, event) {
      var k := Rows(s, event, e, rank);
      KilledRow(s, Descendants(s.stxos, Conflicts(s, event.tx)), op);
      assert forall u :: Filed(k, u) == Filed(s, u) by { SameFiling(k, s); }
    }
  }

  lemma SameFiling(k: Tables, s: Tables)
    requires k.keepsFrozen == s.keepsFrozen
    ensures forall u :: Filed(k, u) == Filed(s, u)
  {
  }

  /** While it is recorded as spent nothing touches it. */
  lemma SpentStays(s: Tables, event: Event, e: Tables, rank: Txid -> nat, op: OutPoint)
    requires Ranked(s, rank) && (Processed(s, event) ==> RankedTx(event.tx, rank)) && Step(s, event, e)
    requires OnlySpent(s, op) && OnlySpent(e, op) && Filed(s, s.stxos[op].utxo) == s.stxos[op].utxo
    ensures e.stxos[op].utxo == s.stxos[op].utxo && e.keepsFrozen == s.keepsFrozen
  {
    hide Conflicts, Descendants, Ranked, Sane, Known, RankedTx, Own, NewUtxo, Filed, Kill;
    if Processed(s, event) {
      var k := Rows(s, event, e, rank);
      KilledRow(s, Descendants(s.stxos, Conflicts(s, event.tx)), op);
      assert forall u :: Filed(k, u) == Filed(s, u) by { SameFiling(k, s); }
    }
  }

  lemma UndoneIsBack(s: Tables, event: Event, e: Tables, rank: Txid -> nat, op: OutPoint)
    requires Ranked(s, rank) && (Processed(s, event) ==> RankedTx(event.tx, rank)) && Step(s, event, e)
    requires OnlySpent(s, op) && OnlyUnspent(e, op) && !Pays(s, event, op)
    ensures e.utxos[op] == s.stxos[op].utxo
  {
    hide Conflicts, Descendants, Ranked, Sane, Known, RankedTx, Own, NewUtxo, Filed, Kill;
    if Processed(s, event) {
      var k := Rows(s, event, e, rank);
      KilledRow(s, Descendants(s.stxos, Conflicts(s, event.tx)), op);
    }
  }

  /** From state i to state j of a run op is spent, and only then unspent again. */
  ghost predicate SpentBetween(states: seq<Tables>, i: nat, j: nat, op: OutPoint) {
    && i + 1 < j < |states|
    && OnlyUnspent(states[i], op) && OnlyUnspent(states[j], op)
    && forall m :: i < m < j ==> OnlySpent(states[m], op)
  }

  lemma {:induction false} KeptWhileSpent(states: seq<Tables>, events: seq<Event>, rank: Txid -> nat, i: nat, j: nat,
                                          m: nat, op: OutPoint)
    requires Run(states, events) && RankedEvents(states, events, rank)
    requires SpentBetween(states, i, j, op) && i < m < j
    ensures states[m].stxos[op].utxo == Filed(states[i], states[i].utxos[op])
    ensures states[m].keepsFrozen == states[i].keepsFrozen
    decreases m
  {
    hide Step, Ranked, RankedTx, Processed, Filed;
    RunIsRanked(states, events, rank, m - 1);
    assert Step(states[m - 1], events[m - 1], states[m]);
    if m - 1 == i {
      SpentIsFiled(states[i], events[i], states[m], rank, op);
    } else {
      KeptWhileSpent(states, events, rank, i, j, m - 1, op);
      SameFiling(states[m - 1], states[i]);
      assert Filed(states[i], Filed(states[i], states[i].utxos[op])) == Filed(states[i], states[i].utxos[op]) by {
        FiledTwice(states[i], states[i].utxos[op]);
      }
      SpentStays(states[m - 1], events[m - 1], states[m], rank, op);
    }
  }

  lemma FiledTwice(s: Tables, u: Utxo)
    ensures Filed(s, Filed(s, u)) == Filed(s, u)
  {
  }

  /** An output whose spend is undone comes back as it was exactly when the database keeps the mark or it had none. */
  lemma UndoneAsItWasIff(states: seq<Tables>, events: seq<Event>, rank: Txid -> nat, i: nat, j: nat, op: OutPoint)
    requires Run(states, events) && RankedEvents(states, events, rank)
    requires SpentBetween(states, i, j, op) && !Pays(states[j - 1], events[j - 1], op)
    ensures states[j].utxos[op] == states[i].utxos[op].(frozen := states[j].utxos[op].frozen)
    ensures states[j].utxos[op] == states[i].utxos[op] <==> states[i].keepsFrozen || !states[i].utxos[op].frozen
  {
    hide Step, Ranked, RankedTx, Processed;
    KeptWhileSpent(states, events, rank, i, j, j - 1, op);
    RunIsRanked(states, events, rank, j - 1);
    assert Step(states[j - 1], events[j - 1], states[j]);
    UndoneIsBack(states[j - 1], events[j - 1], states[j], rank, op);
  }

  lemma StepKeepsDatabase(s: Tables, event: Event, e: Tables)
    requires Step(s, event, e)
    ensures e.keepsFrozen == s.keepsFrozen
  {
    if event.Add? {
      hide Step, Settled, Debited, Credited, Pick, Conflicts, Exact, Descendants, Relevant;
      var k, pick := Process(s, event, e);
      if Processed(s, event) {
        SettledFields(k, event.tx, event.height, pick, event.keyAdrs);
      }
    }
  }

  lemma {:induction false} SameDatabase(states: seq<Tables>, events: seq<Event>, n: nat)
    requires Run(states, events) && n <= |events|
    ensures states[n].keepsFrozen == states[0].keepsFrozen
    decreases n
  {
    hide Step;
    if n > 0 {
      SameDatabase(states, events, n - 1);
      assert Step(states[n - 1], events[n - 1], states[n]);
      StepKeepsDatabase(states[n - 1], events[n - 1], states[n]);
    }
  }
}
