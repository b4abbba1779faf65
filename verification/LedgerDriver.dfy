/** The store and the wallet worked through any series of calls: what happens is a run of the ledger. */
module LedgerDriver {
  import opened Adding
  import opened Ledger
  import opened LedgerRuns
  import opened TxStores
  import opened Wallets
  import Conservation
  import Keys

  datatype Call = AddTx(tx: Tx, height: int) | FreezeOp(op: OutPoint) | UnFreezeOp(op: OutPoint) | Reopen

  ghost predicate Matches(call: Call, event: Event) {
    match call
    case AddTx(tx, height) => event.Add? && event.tx == tx && event.height == height
    case FreezeOp(op) => event == Freeze(op)
    case UnFreezeOp(op) => event == UnFreeze(op)
    case Reopen => event.Restart?
  }

  lemma RunOneMore(states: seq<Tables>, events: seq<Event>, event: Event, next: Tables)
    requires Run(states, events) && Step(states[|events|], event, next)
    ensures Run(states + [next], events + [event])
  {
    hide Step;
    var more, last := states + [next], |events|;
    assert more[0] == states[0];
    forall i | 0 <= i < |events + [event]| ensures Step(more[i], (events + [event])[i], more[i + 1]) {
      if i < last {
        assert more[i] == states[i] && more[i + 1] == states[i + 1];
      }
    }
  }

  lemma ValidKeys(store: TxStore)
    requires store.Valid()
    ensures OnlyKeys(store.adrs, store.km.store.rows)
  {
    hide OnlyKeys;
  }

  /** One call on the store, or the store opened anew over the same database; own scripts only grow. */
  method Do(store: TxStore, call: Call) returns (next: TxStore, ghost event: Event)
    requires store.Valid() && Keyed(store.State())
    modifies store, store.km.store
    ensures next.km == store.km && next.Valid() && Keyed(next.State()) && (next == store || fresh(next))
    ensures Matches(call, event) && Step(old(store.State()), event, next.State())
    ensures forall x :: x in old(store.adrs) ==> x in next.adrs
  {
    hide Added, Populated, Keyed, AllScripts, OnlyKeys, Keys.KeyManager.Valid;
    ghost var s := store.State();
    next := store;
    match call
    case AddTx(tx, height) =>
      var hits, ok;
      ghost var keyAdrs;
      hits, ok, keyAdrs := store.AddTransaction(tx, height);
      event := Add(tx, height, keyAdrs);
    case FreezeOp(op) =>
      var w := new Wallet(store);
      var _ := w.FreezeUTXO(op);
      Conservation.FreezeKeyed(s, op, true);
      event := Freeze(op);
    case UnFreezeOp(op) =>
      var w := new Wallet(store);
      var _ := w.UnFreezeUTXO(op);
      Conservation.FreezeKeyed(s, op, false);
      event := UnFreeze(op);
    case Reopen =>
      next := new TxStore(store.km, store.utxos, store.stxos, store.txns);
      assert OnlyKeys(store.adrs, store.km.store.rows) by { ValidKeys(store); }
      KeysAmongAll(store.adrs, next.adrs, store.km.store.rows);
      ReopenKeyed(s, next.adrs);
      event := Restart(next.adrs);
  }

  lemma ReopenKeyed(s: Tables, keyAdrs: seq<Script>)
    requires Keyed(s)
    ensures Keyed(Reopened(s, keyAdrs))
  {
  }

  /** Any calls on a wallet over an empty database pass through the states of a run. */
  method Drive(km: Keys.KeyManager, calls: seq<Call>)
    returns (store: TxStore, ghost states: seq<Tables>, ghost events: seq<Event>)
    requires km.Valid()
    modifies km.store
    ensures |events| == |calls| && forall i :: 0 <= i < |calls| ==> Matches(calls[i], events[i])
    ensures Run(states, events) && states[|events|] == store.State()
  {
    hide Step, Populated, Keyed, Keys.KeyManager.Valid, OnlyKeys, AllScripts;
    store := new TxStore(km, map[], map[], map[]);
    states, events := [store.State()], [];
    EmptyRun(store.adrs, km.store.kind.Bolt?, store.State());
    for i := 0 to |calls|
      invariant fresh(store) && store.km == km && store.Valid() && Keyed(store.State())
      invariant |events| == i && forall k :: 0 <= k < i ==> Matches(calls[k], events[k])
      invariant Run(states, events) && states[i] == store.State()
    {
      ghost var event;
      store, event := Do(store, calls[i]);
      RunOneMore(states, events, event, store.State());
      states := states + [store.State()];
      events := events + [event];
    }
  }

  lemma EmptyRun(adrs: seq<Script>, keepsFrozen: bool, s: Tables)
    requires s == Populated(Tables(map[], map[], map[], map[], [], keepsFrozen), adrs)
    ensures Run([s], []) && Keyed(s)
  {
    assert s == Empty(adrs, keepsFrozen);
  }
}
