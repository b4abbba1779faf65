/** When the cache of heights goes stale, and what a stale cache makes the wallet miss. */
module HeightCache {
  import opened Adding
  import opened Conservation
  import opened ExactAdding
  import opened Ledger
  import opened LedgerRuns
  import opened Undo

  ghost predicate CacheExact(s: Tables) {
    forall t :: t in s.txns ==> t in s.txids && s.txids[t] == s.txns[t].height
  }

  /** With an exact cache, a call that is processed leaves it exact exactly when it changes something else besides
      undoing conflicts, or has none: the cache is read back only where the transaction is stored. */
  lemma CacheStaysExactIff(s: Tables, event: Event, e: Tables)
    requires Processed(s, event) && Exact(s) && CacheExact(s) && SpendsOthers(event.tx) && Step(s, event, e)
    ensures CacheExact(e)
        <==> Moves(WithoutConflicts(s, event.tx), event.tx, event.height) || Conflicts(s, event.tx) == {}
  {
    var tx, k := event.tx, WithoutConflicts(s, event.tx);
    hide Settled, Credited, Debited, Relevant, Pick, Exact, Moves, OutputsSettled, Processed, CacheExact,
         WithoutConflicts, Conflicts;
    var pick := ExactAdd(s, event, e);
    RelevantIffMoves(k, tx, event.height, pick);
    if Relevant(k, tx, event.height, pick) {
      StoredIsExact(k, tx, event.height, e);
    } else if Conflicts(s, tx) == {} {
      NothingToClear(s, tx);
      SameCache(s, e);
    } else {
      var t :| t in Conflicts(s, tx);
      ConflictIsLive(s, tx, t);
      ConflictGoesStale(s, tx, e, t);
    }
  }

  lemma StoredIsExact(k: Tables, tx: Tx, height: int, e: Tables)
    requires RowSettled(k, tx, height, e)
    ensures CacheExact(e)
  {
    hide RowPut;
  }

  lemma SameCache(s: Tables, e: Tables)
    requires CacheExact(s) && e.txns == s.txns && e.txids == s.txids
    ensures CacheExact(e)
  {
  }

  lemma ConflictIsLive(s: Tables, tx: Tx, t: Txid)
    requires t in Conflicts(s, tx)
    ensures Live(s, t) && t in Descendants(s.stxos, Conflicts(s, tx))
  {
    hide Shares;
  }

  lemma ConflictGoesStale(s: Tables, tx: Tx, e: Tables, t: Txid)
    requires CacheExact(s) && t in s.txns && s.txns[t].height >= 0 && t in Descendants(s.stxos, Conflicts(s, tx))
    requires e.txns == WithoutConflicts(s, tx).txns && e.txids == WithoutConflicts(s, tx).txids
    ensures t in e.txns && e.txns[t].height == -1 && t in e.txids && e.txids[t] == s.txns[t].height
    ensures !CacheExact(e)
  {
    hide Conflicts, Descendants;
  }

  /** A transaction that dies in a call that stores nothing, as a conflict or below one, still counts as known exactly
      when it was confirmed or is reported at no height again. Then the next call is ignored and it stays dead. */
  lemma DeadIsMissed(s: Tables, event: Event, e: Tables, t: Txid, again: Event, f: Tables)
    requires Processed(s, event) && Exact(s) && CacheExact(s) && SpendsOthers(event.tx) && Step(s, event, e)
    requires !Moves(WithoutConflicts(s, event.tx), event.tx, event.height)
    requires Live(s, t) && t in Descendants(s.stxos, Conflicts(s, event.tx))
    requires again.Add? && again.tx.id == t && Step(e, again, f)
    ensures Known(e, again.tx, again.height) <==> s.txns[t].height > 0 || again.height == 0
    ensures Known(e, again.tx, again.height) ==> f == e && !Live(f, t)
  {
    var tx, k := event.tx, WithoutConflicts(s, event.tx);
    hide Settled, Credited, Debited, Relevant, Pick, Exact, Moves, OutputsSettled, CacheExact, WithoutConflicts,
         Conflicts, Sane, Descendants;
    var pick := ExactAdd(s, event, e);
    RelevantIffMoves(k, tx, event.height, pick);
    ConflictGoesStale(s, tx, e, t);
    if Known(e, again.tx, again.height) {
      KnownIsIgnored(e, again, f);
    }
  }

  lemma KnownIsIgnored(s: Tables, event: Event, e: Tables)
    requires event.Add? && Known(s, event.tx, event.height) && Step(s, event, e)
    ensures e == s
  {
    hide Sane, Conflicts;
  }

  /** Opening the wallet again makes the cache exact, and no dead transaction is known any more. */
  lemma RestartHeals(s: Tables, keyAdrs: seq<Script>, tx: Tx, height: int)
    ensures CacheExact(Reopened(s, keyAdrs))
    ensures tx.id in s.txns && !Live(s, tx.id) ==> !Known(Reopened(s, keyAdrs), tx, height)
  {
  }
}
