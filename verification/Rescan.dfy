/** Finding the used keys of a recreated wallet again. */
module Rescan {
  const GAP_LIMIT: nat := 10
  const HIGHEST_KEY_INDEX: nat := 100

  /** What is learnt of one key: nothing, where some step before the answer failed; no history; or a history, and
      whether the subscription could be added. */
  datatype Lookup = Unknown | NoHistory | History(subscribes: bool)

  /** The key at an index: change is 0 or 1. */
  datatype KeyPath = KeyPath(index: nat, change: nat)

  type Wallet = KeyPath -> Lookup

  predicate Used(w: Wallet, i: nat) {
    w(KeyPath(i, 0)).History? || w(KeyPath(i, 1)).History?
  }

  /** Index 0, and every used index at most eleven above one that is reached. */
  ghost predicate Reached(w: Wallet, i: nat) {
    i == 0 || (Used(w, i) && exists j :: 0 <= j < i && i - j <= GAP_LIMIT + 1 && Reached(w, j))
  }

  /** The largest reached index up to n. */
  ghost function Largest(w: Wallet, n: nat): (r: nat)
    ensures r <= n && Reached(w, r) && forall i :: r < i <= n ==> !Reached(w, i)
  {
    if n == 0 || Reached(w, n) then n else Largest(w, n - 1)
  }

  /** How far the scan goes. */
  ghost function Limit(w: Wallet): nat {
    var l := Largest(w, HIGHEST_KEY_INDEX);
    if l + GAP_LIMIT + 1 < HIGHEST_KEY_INDEX then l + GAP_LIMIT + 1 else HIGHEST_KEY_INDEX
  }

  predicate Before(a: KeyPath, b: KeyPath) {
    a.index < b.index || (a.index == b.index && a.change < b.change)
  }

  /** The keys up to (limit, change) whose subscription succeeded, in order. */
  ghost predicate Subscribed(w: Wallet, subs: seq<KeyPath>, upTo: KeyPath) {
    && (forall k: KeyPath :: k in subs <==> Before(k, upTo) && k.change < 2 && w(k) == History(true))
    && forall a, b :: 0 <= a < b < |subs| ==> Before(subs[a], subs[b])
  }

  /** Past an unused stretch as long as the gap limit nothing is reached. */
  lemma {:induction false} NothingBeyond(w: Wallet, h: nat, i: nat)
    requires forall k :: h < k <= h + GAP_LIMIT + 1 ==> !Reached(w, k)
    requires h < i
    ensures !Reached(w, i)
    decreases i
  {
    if i > h + GAP_LIMIT + 1 {
      forall j | 0 <= j < i && i - j <= GAP_LIMIT + 1 ensures !Reached(w, j) {
        NothingBeyond(w, h, j);
      }
    }
  }

  lemma LargestIs(w: Wallet, h: nat, n: nat)
    requires h <= n && Reached(w, h) && forall i :: h < i <= n ==> !Reached(w, i)
    ensures Largest(w, n) == h
  {
    var l := Largest(w, n);
    assert Reached(w, l);
  }

  /** Subscribes exactly the used keys with index up to min(100, L + 11), L being the largest used index reached from
      0 by hops of at most eleven, each once and in order. */
  method RescanWallet(w: Wallet) returns (subs: seq<KeyPath>)
    ensures Subscribed(w, subs, KeyPath(Limit(w) + 1, 0))
  {
    hide Subscribed, Limit, Largest, Reached;
    subs := [];
    NoneYet(w);
    var historyHitIndex, keyIndex := 0, 0;
    while keyIndex <= HIGHEST_KEY_INDEX
      invariant keyIndex <= HIGHEST_KEY_INDEX + 1 && keyIndex <= historyHitIndex + GAP_LIMIT + 1
      invariant keyIndex > 0 ==> historyHitIndex == Largest(w, keyIndex - 1)
      invariant keyIndex == 0 ==> historyHitIndex == 0
      invariant Subscribed(w, subs, KeyPath(keyIndex, 0))
    {
      ghost var hitBefore := historyHitIndex;
      for change := 0 to 2
        invariant Subscribed(w, subs, KeyPath(keyIndex, change))
        invariant historyHitIndex
               == if exists c :: 0 <= c < change && w(KeyPath(keyIndex, c)).History? then keyIndex else hitBefore
      {
        var path := KeyPath(keyIndex, change);
        var found := w(path);
        NextPath(w, subs, path);
        if !found.History? {
          continue;
        }
        historyHitIndex := keyIndex;
        if !found.subscribes {
          continue;
        }
        subs := subs + [path];
      }
      NextIndex(w, subs, keyIndex);
      HitMoves(w, keyIndex, hitBefore);
      if keyIndex > historyHitIndex + GAP_LIMIT {
        assert keyIndex == historyHitIndex + GAP_LIMIT + 1;
        StopsAt(w, historyHitIndex);
        return;
      }
      keyIndex := keyIndex + 1;
    }
    RunsToTheEnd(w);
  }

  lemma NoneYet(w: Wallet)
    ensures Subscribed(w, [], KeyPath(0, 0))
  {
  }

  lemma NextIndex(w: Wallet, subs: seq<KeyPath>, i: nat)
    requires Subscribed(w, subs, KeyPath(i, 2))
    ensures Subscribed(w, subs, KeyPath(i + 1, 0))
  {
  }

  lemma RunsToTheEnd(w: Wallet)
    requires HIGHEST_KEY_INDEX + 1 <= Largest(w, HIGHEST_KEY_INDEX) + GAP_LIMIT + 1
    ensures Limit(w) == HIGHEST_KEY_INDEX
  {
  }

  lemma NextPath(w: Wallet, subs: seq<KeyPath>, path: KeyPath)
    requires Subscribed(w, subs, path) && path.change < 2
    ensures Subscribed(w, if w(path) == History(true) then subs + [path] else subs, path.(change := path.change + 1))
  {
  }

  /** After index k the last hit is the largest index reached up to k. */
  lemma HitMoves(w: Wallet, k: nat, hit: nat)
    requires k <= hit + GAP_LIMIT + 1 && (if k == 0 then hit == 0 else hit == Largest(w, k - 1))
    ensures Largest(w, k) == if Used(w, k) then k else hit
  {
    if k > 0 && Used(w, k) {
      assert Reached(w, hit) && 0 <= hit < k && k - hit <= GAP_LIMIT + 1;
    }
  }

  lemma StopsAt(w: Wallet, hit: nat)
    requires hit + GAP_LIMIT + 1 <= HIGHEST_KEY_INDEX && Largest(w, hit + GAP_LIMIT + 1) == hit
    ensures Limit(w) == hit + GAP_LIMIT + 1
  {
    forall i | hit < i <= HIGHEST_KEY_INDEX ensures !Reached(w, i) {
      NothingBeyond(w, hit, i);
    }
    LargestIs(w, hit, HIGHEST_KEY_INDEX);
  }

  /** No used index is more than eleven above both 0 and the next used one below. */
  ghost predicate NoWideGap(w: Wallet) {
    forall i :: 0 < i <= HIGHEST_KEY_INDEX && Used(w, i) ==> Follows(w, i)
  }

  ghost predicate Follows(w: Wallet, i: nat) {
    exists j :: 0 <= j < i && i - j <= GAP_LIMIT + 1 && StartOrUsed(w, j)
  }

  predicate StartOrUsed(w: Wallet, i: nat) {
    i == 0 || Used(w, i)
  }

  lemma {:induction false} AllReached(w: Wallet, i: nat)
    requires NoWideGap(w) && i <= HIGHEST_KEY_INDEX && (i == 0 || Used(w, i))
    ensures Reached(w, i)
    decreases i
  {
    if i > 0 {
      assert Follows(w, i);
      var j :| 0 <= j < i && i - j <= GAP_LIMIT + 1 && StartOrUsed(w, j);
      AllReached(w, j);
    }
  }

  /** Every key with a history up to index 100 is found again exactly when the used indexes have no gap wider than the
      limit. */
  lemma FoundAgainIff(w: Wallet)
    ensures NoWideGap(w) <==> forall i :: 0 <= i <= HIGHEST_KEY_INDEX && Used(w, i) ==> i <= Limit(w)
  {
    if NoWideGap(w) {
      forall i | 0 <= i <= HIGHEST_KEY_INDEX && Used(w, i) ensures i <= Limit(w) {
        AllReached(w, i);
      }
    } else {
      var i :| 0 < i <= HIGHEST_KEY_INDEX && Used(w, i) && !Follows(w, i);
      WideGap(w, i);
    }
  }

  /** Below a wide gap the scan stops. */
  lemma WideGap(w: Wallet, i: nat)
    requires 0 < i <= HIGHEST_KEY_INDEX && !Follows(w, i)
    ensures Limit(w) < i
  {
    assert i > GAP_LIMIT + 1 by {
      assert StartOrUsed(w, 0);
    }
    var h, l := i - GAP_LIMIT - 2, Largest(w, HIGHEST_KEY_INDEX);
    forall k | h < k <= h + GAP_LIMIT + 1 ensures !Reached(w, k) {
      assert !StartOrUsed(w, k);
    }
    if l > h {
      NothingBeyond(w, h, l);
    }
  }

  /** A key at the index, in either branch, has a history. */
  ghost predicate Touched(w: Wallet, i: nat) {
    exists c: nat :: c < 2 && w(KeyPath(i, c)).History?
  }

  /** Below each touched index up to 100 there is, no more than eleven below, another one or 0. */
  ghost predicate ShortGaps(w: Wallet) {
    forall i :: 0 < i <= 100 && Touched(w, i) ==> exists j :: ShortGap(w, i, j)
  }

  ghost predicate ShortGap(w: Wallet, i: nat, j: nat) {
    j < i <= j + 11 && (j == 0 || Touched(w, j))
  }

  lemma TouchedIsUsed(w: Wallet, i: nat)
    ensures Touched(w, i) <==> Used(w, i)
  {
  }

  lemma ShortIff(w: Wallet)
    ensures ShortGaps(w) <==> NoWideGap(w)
  {
    hide Used, Touched;
    forall i: nat ensures Touched(w, i) <==> Used(w, i) { TouchedIsUsed(w, i); }
    forall i | 0 < i <= 100 && Used(w, i) ensures Follows(w, i) <==> exists j :: ShortGap(w, i, j) {
      if j :| 0 <= j < i && i - j <= GAP_LIMIT + 1 && StartOrUsed(w, j) {
        assert ShortGap(w, i, j);
      }
      if j :| ShortGap(w, i, j) {
        assert StartOrUsed(w, j);
      }
    }
  }

  lemma FoundPaths(w: Wallet, subs: seq<KeyPath>, limit: nat)
    requires Subscribed(w, subs, KeyPath(limit + 1, 0))
    requires forall k: KeyPath :: w(k).History? ==> w(k).subscribes
    ensures (forall i :: 0 <= i <= 100 && Used(w, i) ==> i <= limit)
            <==> forall k: KeyPath :: k.index <= 100 && k.change < 2 && w(k).History? ==> k in subs
  {
    forall k: KeyPath | k.change < 2 ensures w(k).History? ==> Used(w, k.index) {
      assert k == KeyPath(k.index, k.change);
    }
    if forall k: KeyPath :: k.index <= 100 && k.change < 2 && w(k).History? ==> k in subs {
      forall i | 0 <= i <= 100 && Used(w, i) ensures i <= limit {
        var c := if w(KeyPath(i, 0)).History? then 0 else 1;
        assert KeyPath(i, c) in subs;
      }
    }
  }

  /** Where every subscription succeeds, the scan finds every key with a history up to index 100 exactly if no gap is
      too wide. */
  lemma AllFoundIff(w: Wallet, subs: seq<KeyPath>)
    requires Subscribed(w, subs, KeyPath(Limit(w) + 1, 0))
    requires forall k: KeyPath :: w(k).History? ==> w(k).subscribes
    ensures ShortGaps(w) <==> forall k: KeyPath :: k.index <= 100 && k.change < 2 && w(k).History? ==> k in subs
  {
    hide Limit, Subscribed, ShortGaps, NoWideGap, Used;
    FoundPaths(w, subs, Limit(w));
    ShortIff(w);
    FoundAgainIff(w);
  }
}
