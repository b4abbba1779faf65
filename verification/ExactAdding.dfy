/** Adding a transaction where undoing is exact. */
module ExactAdding {
  import opened Adding
  import opened Conservation
  import opened Disjointness
  import opened Ledger
  import opened LedgerRuns
  import opened Options
  import opened Undo

  lemma ExactlyKilled(s: Tables, rank: Txid -> nat)
    requires Sound(s, rank)
    ensures Exact(s) && Keyed(s)
  {
    SoundIsConsistent(s, rank);
    RankedIsAcyclic(s.stxos, rank);
  }

  /** Where undoing is exact, adding settles the transaction on the tables with the descendants of its conflicts
      undone. */
  lemma ExactAdd(s: Tables, event: Event, e: Tables) returns (pick: Option<OutPoint>)
    requires Processed(s, event) && Exact(s) && SpendsOthers(event.tx) && Step(s, event, e)
    ensures var k, tx, height := WithoutConflicts(s, event.tx), event.tx, event.height;
            && Pick(Debited(Credited(k, tx, height), tx, height), tx.id, height, pick)
            && e == Settled(k, tx, height, pick, event.keyAdrs)
            && SettledFrom(k, tx, height, e, Relevant(k, tx, height, pick))
            && e.adrs == if Relevant(k, tx, height, pick) then event.keyAdrs else k.adrs
  {
    hide Settled, Pick, Debited, Credited, Acyclic, Relevant, SettledFrom, Kill, Conflicts, Step, Ignored;
    var k;
    k, pick := Process(s, event, e);
    SettledShape(k, event.tx, event.height, pick, event.keyAdrs);
  }

  lemma SoundAdd(s: Tables, event: Event, e: Tables, rank: Txid -> nat) returns (pick: Option<OutPoint>)
    requires Processed(s, event) && Sound(s, rank) && RankedTx(event.tx, rank) && Step(s, event, e)
    ensures var k, tx, height := WithoutConflicts(s, event.tx), event.tx, event.height;
            && Pick(Debited(Credited(k, tx, height), tx, height), tx.id, height, pick)
            && e == Settled(k, tx, height, pick, event.keyAdrs)
            && SettledFrom(k, tx, height, e, Relevant(k, tx, height, pick))
            && e.adrs == if Relevant(k, tx, height, pick) then event.keyAdrs else k.adrs
  {
    ExactlyKilled(s, rank);
    hide Sound, Exact, Processed, Pick, Settled, SettledFrom, Relevant, WithoutConflicts;
    pick := ExactAdd(s, event, e);
  }

  /** Adding without conflicts settles the transaction on the tables as they are. */
  lemma PlainAdd(s: Tables, event: Event, e: Tables, rank: Txid -> nat) returns (relevant: bool)
    requires Processed(s, event) && Sound(s, rank) && RankedTx(event.tx, rank) && Step(s, event, e)
    requires Conflicts(s, event.tx) == {}
    ensures SettledFrom(s, event.tx, event.height, e, relevant)
    ensures e.adrs == if relevant then event.keyAdrs else s.adrs
  {
    assert event.Add?;
    NothingToClear(s, event.tx);
    hide Settled, Credited, Debited, Pick, Relevant, SettledFrom, Sound, WithoutConflicts, Processed;
    var pick := SoundAdd(s, event, e, rank);
    relevant := Relevant(s, event.tx, event.height, pick);
  }

  lemma NothingToClear(s: Tables, tx: Tx)
    requires Conflicts(s, tx) == {}
    ensures WithoutConflicts(s, tx) == s
  {
    KillNothing(s);
  }

  lemma SoundLive(s: Tables, tx: Tx, rank: Txid -> nat)
    requires Sound(s, rank) && Live(s, tx.id) && s.txns[tx.id].tx == tx
    ensures Conflicts(s, tx) == {}
  {
    LiveHasNoConflicts(s, tx);
  }
}
