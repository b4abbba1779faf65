/** The peer list a network keeps, tick by tick. */
module Peers {
  import opened Options

  const UINT32: nat := 0x1_0000_0000

  datatype NodeServerAddr = NodeServerAddr(net: nat, addr: nat)

  /** A known server; onion servers need a proxy. */
  datatype ServerAddr = ServerAddr(at: NodeServerAddr, isOnion: bool)

  datatype PeerNode = PeerNode(id: nat, isLeader: bool, isTrusted: bool, netAddr: NodeServerAddr)

  /** The peers with the ids in gone left out, the others in their order. */
  function Without(peers: seq<PeerNode>, gone: set<nat>): seq<PeerNode> {
    if peers == [] then []
    else
      var n := |peers| - 1;
      if peers[n].id in gone then Without(peers[..n], gone) else Without(peers[..n], gone) + [peers[n]]
  }

  ghost predicate DistinctIds(peers: seq<PeerNode>) {
    forall i, j :: 0 <= i < j < |peers| ==> peers[i].id != peers[j].id
  }

  /** No two peers that are still alive are connected to the same server. */
  ghost predicate LiveApart(peers: seq<PeerNode>, dead: set<nat>) {
    forall i, j :: 0 <= i < j < |peers| && peers[i].id !in dead && peers[j].id !in dead ==>
      peers[i].netAddr != peers[j].netAddr
  }

  ghost predicate ListOk(peers: seq<PeerNode>, dead: set<nat>, nextId: nat, maxOnline: nat) {
    && DistinctIds(peers) && LiveApart(peers, dead) && |peers| <= maxOnline
    && forall i :: 0 <= i < |peers| ==> peers[i].id < nextId
  }

  /** A live peer at this address. */
  ghost predicate Taken(peers: seq<PeerNode>, dead: set<nat>, at: NodeServerAddr) {
    exists i :: 0 <= i < |peers| && peers[i].id !in dead && peers[i].netAddr == at
  }

  /** Nobody in the list was started as leader; a live leader that was not is in the list. */
  ghost predicate LeaderOk(peers: seq<PeerNode>, dead: set<nat>, leader: Option<PeerNode>) {
    && (forall p :: p in peers ==> !p.isLeader)
    && (leader.Some? && leader.value.id !in dead && !leader.value.isLeader ==> leader.value in peers)
  }

  /** A server that a new node may be dialled at: known, allowed for the purpose, and without a live peer. */
  ghost predicate Offerable(known: seq<ServerAddr>, peers: seq<PeerNode>, dead: set<nat>, forLeader: bool,
                            hasProxy: bool, s: ServerAddr) {
    s in known && (s.isOnion ==> !forLeader && hasProxy) && !Taken(peers, dead, s.at)
  }

  /** A leader that was promoted from the list is still in it, so its address is never offered. */
  lemma PromotedIsNeverOffered(known: seq<ServerAddr>, peers: seq<PeerNode>, dead: set<nat>, leader: PeerNode,
                               forLeader: bool, hasProxy: bool, s: ServerAddr)
    requires LeaderOk(peers, dead, Some(leader)) && leader.id !in dead && !leader.isLeader
    requires s.at == leader.netAddr
    ensures Taken(peers, dead, s.at) && !Offerable(known, peers, dead, forLeader, hasProxy, s)
  {
    var i :| 0 <= i < |peers| && peers[i] == leader;
  }

  /** The address of a live leader is offered for a further peer exactly when it was started as leader and no live peer
      is connected there: the list alone is searched, and a leader started as one is not in it. */
  lemma LeaderDialledAgainIff(known: seq<ServerAddr>, peers: seq<PeerNode>, dead: set<nat>, leader: PeerNode,
                              hasProxy: bool, s: ServerAddr)
    requires LeaderOk(peers, dead, Some(leader)) && leader.id !in dead
    requires s in known && s.at == leader.netAddr && (s.isOnion ==> hasProxy)
    ensures Offerable(known, peers, dead, false, hasProxy, s)
        <==> leader.isLeader && !Taken(peers, dead, leader.netAddr)
  {
    if !leader.isLeader {
      PromotedIsNeverOffered(known, peers, dead, leader, false, hasProxy, s);
    }
  }

  /** What is left are exactly the peers not gone. */
  lemma {:induction false} WithoutHas(peers: seq<PeerNode>, gone: set<nat>)
    ensures forall p :: p in Without(peers, gone) <==> p in peers && p.id !in gone
    ensures |Without(peers, gone)| <= |peers|
  {
    if peers != [] {
      WithoutHas(peers[..|peers| - 1], gone);
      assert peers == peers[..|peers| - 1] + [peers[|peers| - 1]];
    }
  }

  lemma ReapKeepsLeader(peers: seq<PeerNode>, gone: set<nat>, dead: set<nat>, leader: Option<PeerNode>)
    requires LeaderOk(peers, dead, leader) && gone <= dead
    ensures LeaderOk(Without(peers, gone), dead, leader)
  {
    WithoutHas(peers, gone);
  }

  lemma ShuffleKeepsLeader(a: seq<PeerNode>, b: seq<PeerNode>, dead: set<nat>, leader: Option<PeerNode>)
    requires Shuffled(a, b) && LeaderOk(b, dead, leader)
    ensures LeaderOk(a, dead, leader)
  {
    forall p | p in a ensures p in b {
      assert p in multiset(a);
    }
    forall p | p in b ensures p in a {
      assert p in multiset(b);
    }
  }

  lemma SameShuffled(a: seq<PeerNode>)
    ensures Shuffled(a, a)
  {
  }

  lemma SwapShuffles(a: seq<PeerNode>, i: nat, j: nat, b: seq<PeerNode>)
    requires i < |a| && j < |a| && Shuffled(a, b)
    ensures Shuffled(a[i := a[j]][j := a[i]], b)
  {
  }

  /** From one list to the next: who was dead is gone, and who is not dead yet is still there. */
  ghost predicate Turned(was: seq<PeerNode>, dead: set<nat>, now: seq<PeerNode>, deadNow: set<nat>) {
    && (forall p :: p in now && p in was ==> p.id !in dead)
    && (forall p :: p in was && p.id !in deadNow ==> p in now)
  }

  lemma TurnedByReaping(was: seq<PeerNode>, first: set<nat>, dead: set<nat>, gone: set<nat>, deadNow: set<nat>)
    requires first <= dead <= deadNow && gone <= deadNow
    requires forall i :: 0 <= i < |was| && was[i].id in dead ==> was[i].id in gone
    ensures Turned(was, first, Without(was, gone), deadNow)
    ensures forall p :: p in Without(was, gone) ==> p in was
  {
    WithoutHas(was, gone);
  }

  /** The list shuffled, with at most one peer more. */
  lemma TurnedOn(was: seq<PeerNode>, first: set<nat>, left: seq<PeerNode>, dead: set<nat>, now: seq<PeerNode>,
                 more: Option<PeerNode>, deadNow: set<nat>)
    requires Turned(was, first, left, dead) && dead <= deadNow && forall p :: p in left ==> p in was
    requires more.Some? ==> more.value !in was
    requires forall p :: p in now <==> p in left || more == Some(p)
    ensures Turned(was, first, now, deadNow)
    ensures forall p :: p in now && p !in was ==> more == Some(p)
  {
  }

  lemma TurnedSooner(was: seq<PeerNode>, first: set<nat>, dead: set<nat>, now: seq<PeerNode>, deadNow: set<nat>)
    requires first <= dead && Turned(was, dead, now, deadNow)
    ensures Turned(was, first, now, deadNow)
  {
  }

  lemma RoomAfterReaping(was: seq<PeerNode>, first: set<nat>, dead: set<nat>, gone: set<nat>, limit: nat)
    requires |was| <= limit && (|was| < limit || exists p :: p in was && p.id in first) && first <= dead
    requires forall i :: 0 <= i < |was| && was[i].id in dead ==> was[i].id in gone
    ensures |Without(was, gone)| < limit
  {
    WithoutHas(was, gone);
    if |was| == limit {
      var p :| p in was && p.id in first;
      var i :| 0 <= i < |was| && was[i] == p;
      WithoutShrinks(was, gone, i);
    }
  }

  lemma {:induction false} WithoutShrinks(peers: seq<PeerNode>, gone: set<nat>, i: nat)
    requires i < |peers| && peers[i].id in gone
    ensures |Without(peers, gone)| < |peers|
  {
    var n := |peers| - 1;
    WithoutHas(peers[..n], gone);
    if i < n {
      WithoutShrinks(peers[..n], gone, i);
    }
  }

  lemma NotTakenLater(was: seq<PeerNode>, dead: set<nat>, gone: set<nat>, deadNow: set<nat>, at: NodeServerAddr)
    requires !Taken(was, dead, at) && dead <= deadNow
    ensures !Taken(Without(was, gone), deadNow, at)
  {
    WithoutHas(was, gone);
    forall i | 0 <= i < |Without(was, gone)| && Without(was, gone)[i].id !in deadNow
      ensures Without(was, gone)[i].netAddr != at
    {
      var p := Without(was, gone)[i];
      var k :| 0 <= k < |was| && was[k] == p;
    }
  }

  lemma ShuffledHas(a: seq<PeerNode>, b: seq<PeerNode>)
    requires Shuffled(a, b)
    ensures forall p :: p in a <==> p in b
  {
    forall p | p in a ensures p in b { assert p in multiset(a); }
    forall p | p in b ensures p in a { assert p in multiset(b); }
  }

  /** Where no connection ends during the reaping, exactly the live peers stay. */
  lemma {:induction false} ReapIsExact(peers: seq<PeerNode>, gone: set<nat>, dead: set<nat>)
    requires gone <= dead && forall i :: 0 <= i < |peers| && peers[i].id in dead ==> peers[i].id in gone
    ensures Without(peers, gone) == Without(peers, dead)
  {
    if peers != [] {
      var n := |peers| - 1;
      assert forall i :: 0 <= i < n ==> peers[..n][i] == peers[i];
      ReapIsExact(peers[..n], gone, dead);
    }
  }

  lemma {:induction false} WithoutTwice(peers: seq<PeerNode>, a: set<nat>, b: set<nat>)
    ensures Without(Without(peers, a), b) == Without(peers, a + b)
  {
    if peers != [] {
      var n := |peers| - 1;
      WithoutTwice(peers[..n], a, b);
      if peers[n].id !in a {
        WithoutAppend(Without(peers[..n], a), peers[n], b);
      }
    }
  }

  lemma WithoutAppend(peers: seq<PeerNode>, p: PeerNode, gone: set<nat>)
    ensures Without(peers + [p], gone) == if p.id in gone then Without(peers, gone) else Without(peers, gone) + [p]
  {
    assert (peers + [p])[..|peers|] == peers;
  }

  lemma {:induction false} WithoutNone(peers: seq<PeerNode>)
    ensures Without(peers, {}) == peers
  {
    if peers != [] {
      WithoutNone(peers[..|peers| - 1]);
    }
  }

  lemma {:induction false} ReapKeeps(peers: seq<PeerNode>, gone: set<nat>, dead: set<nat>, nextId: nat, maxOnline: nat)
    requires ListOk(peers, dead, nextId, maxOnline)
    ensures ListOk(Without(peers, gone), dead, nextId, maxOnline)
    decreases |peers|
  {
    if peers != [] {
      var n := |peers| - 1;
      ReapKeeps(peers[..n], gone, dead, nextId, maxOnline - 1);
      var kept, last := Without(peers[..n], gone), peers[n];
      WithoutHas(peers[..n], gone);
      forall i | 0 <= i < |kept|
        ensures kept[i].id != last.id && (kept[i].id in dead || last.id in dead || kept[i].netAddr != last.netAddr)
      {
        assert kept[i] in peers[..n];
        var j :| 0 <= j < n && peers[..n][j] == kept[i];
        assert peers[j] == kept[i];
      }
      hide Without;
      JoinKeeps(kept, last, dead, nextId, maxOnline);
    }
  }

  lemma JoinKeeps(peers: seq<PeerNode>, p: PeerNode, dead: set<nat>, nextId: nat, maxOnline: nat)
    requires maxOnline > 0 && ListOk(peers, dead, nextId, maxOnline - 1) && p.id < nextId
    requires forall i :: 0 <= i < |peers| ==>
             peers[i].id != p.id && (peers[i].id in dead || p.id in dead || peers[i].netAddr != p.netAddr)
    ensures ListOk(peers + [p], dead, nextId, maxOnline) && ListOk(peers, dead, nextId, maxOnline)
  {
  }

  lemma DyingKeeps(peers: seq<PeerNode>, dead: set<nat>, more: set<nat>, nextId: nat, maxOnline: nat)
    requires ListOk(peers, dead, nextId, maxOnline) && dead <= more
    ensures ListOk(peers, more, nextId, maxOnline)
  {
  }

  lemma AddKeeps(peers: seq<PeerNode>, dead: set<nat>, p: PeerNode, nextId: nat, maxOnline: nat)
    requires ListOk(peers, dead, nextId, maxOnline) && |peers| < maxOnline && p.id == nextId
    requires !Taken(peers, dead, p.netAddr)
    ensures ListOk(peers + [p], dead, nextId + 1, maxOnline)
  {
  }

  ghost predicate Shuffled(a: seq<PeerNode>, b: seq<PeerNode>) {
    multiset(a) == multiset(b)
  }

  lemma SwapKeeps(peers: seq<PeerNode>, dead: set<nat>, i: nat, j: nat, nextId: nat, maxOnline: nat)
    requires ListOk(peers, dead, nextId, maxOnline) && i < |peers| && j < |peers|
    ensures ListOk(peers[i := peers[j]][j := peers[i]], dead, nextId, maxOnline)
  {
  }

  class Network {
    const maxOnlinePeers: nat
    const hasProxy: bool
    var leader: Option<PeerNode>
    var peers: seq<PeerNode>
    var nextId: nat
    /** Ids of the nodes whose context has been cancelled. */
    var dead: set<nat>
    /** The addresses dialled so far. */
    ghost var dials: seq<NodeServerAddr>

    ghost predicate Valid()
      reads this
    {
      && ListOk(peers, dead, nextId, maxOnlinePeers) && nextId < UINT32
      && (leader.Some? ==> leader.value.id < nextId) && LeaderOk(peers, dead, leader)
    }

    constructor (maxOnlinePeers: nat, hasProxy: bool)
      ensures Valid() && this.maxOnlinePeers == maxOnlinePeers && this.hasProxy == hasProxy
      ensures peers == [] && nextId == 0 && leader == None && dead == {} && dials == []
    {
      this.maxOnlinePeers, this.hasProxy := maxOnlinePeers, hasProxy;
      leader, peers, nextId, dead, dials := None, [], 0, {}, [];
    }

    /** Time passes: connections may end, and none that ended comes back. */
    method Meanwhile()
      requires Valid()
      modifies `dead
      ensures Valid() && old(dead) <= dead
    {
      var more: set<nat> := *;
      DyingKeeps(peers, dead, dead + more, nextId, maxOnlinePeers);
      dead := dead + more;
    }

    /** With the next id, room in the list and no live peer at its address, the list stays in order. */
    method AddPeer(p: PeerNode)
      modifies `peers
      ensures peers == old(peers) + [p]
      ensures old(ListOk(peers, dead, p.id, maxOnlinePeers)) && |old(peers)| < maxOnlinePeers
              && !old(Taken(peers, dead, p.netAddr))
              ==> ListOk(peers, dead, p.id + 1, maxOnlinePeers)
    {
      if ListOk(peers, dead, p.id, maxOnlinePeers) && |peers| < maxOnlinePeers && !Taken(peers, dead, p.netAddr) {
        AddKeeps(peers, dead, p, p.id, maxOnlinePeers);
      }
      peers := peers + [p];
    }

    method RemovePeer(oldPeer: PeerNode)
      requires peers != []
      modifies `peers
      ensures peers == Without(old(peers), {oldPeer.id})
    {
      var newPeers: seq<PeerNode> := [];
      for i := 0 to |peers|
        invariant peers == old(peers) && newPeers == Without(peers[..i], {oldPeer.id})
      {
        assert peers[..i + 1][..i] == peers[..i];
        if oldPeer.id != peers[i].id {
          newPeers := newPeers + [peers[i]];
        }
      }
      assert peers[..|peers|] == peers;
      peers := newPeers;
    }

    /** Takes out the peers seen dead, and keeps the others in their order: all dead at the start go, all that go are
        dead by the end. */
    method ReapDeadPeers() returns (ghost gone: set<nat>)
      requires Valid()
      modifies `peers, `dead
      ensures Valid() && old(dead) <= dead
      ensures peers == Without(old(peers), gone) && gone <= dead
      ensures forall i :: 0 <= i < |old(peers)| && old(peers)[i].id in old(dead) ==> old(peers)[i].id in gone
    {
      hide ListOk, LeaderOk, Without, Ids, DistinctIds;
      var peersToRemove := DeadPeers();
      gone := Ids(peersToRemove);
      ghost var was := peers;
      assert forall p :: p in peersToRemove ==> p in was;
      NoIds(peersToRemove);
      WithoutNone(was);
      for i := 0 to |peersToRemove|
        invariant Valid() && old(dead) <= dead && gone <= dead
        invariant ListOk(was, dead, nextId, maxOnlinePeers) && LeaderOk(was, dead, leader)
        invariant peers == Without(was, Ids(peersToRemove[..i]))
      {
        StillThere(was, peersToRemove, i);
        RemovePeer(peersToRemove[i]);
        WithoutTwice(was, Ids(peersToRemove[..i]), {peersToRemove[i].id});
        assert peersToRemove[..i + 1] == peersToRemove[..i] + [peersToRemove[i]];
        IdsAppend(peersToRemove[..i], peersToRemove[i]);
        ReapKeeps(was, Ids(peersToRemove[..i + 1]), dead, nextId, maxOnlinePeers);
        IdsPrefix(peersToRemove, i + 1);
        ReapKeepsLeader(was, Ids(peersToRemove[..i + 1]), dead, leader);
      }
      assert peersToRemove[..|peersToRemove|] == peersToRemove;
    }

    /** The peers seen dead, one look at each. */
    method DeadPeers() returns (found: seq<PeerNode>)
      requires Valid()
      modifies `dead
      ensures Valid() && old(dead) <= dead && Ids(found) <= dead
      ensures DistinctIds(found) && forall p :: p in found ==> p in peers
      ensures forall i :: 0 <= i < |peers| && peers[i].id in old(dead) ==> peers[i].id in Ids(found)
    {
      found := [];
      NoIds(found);
      for i := 0 to |peers|
        invariant Valid() && old(dead) <= dead && Ids(found) <= dead
        invariant forall k :: 0 <= k < i && peers[k].id in old(dead) ==> peers[k].id in Ids(found)
        invariant DistinctIds(found) && forall p :: p in found ==> p in peers[..i]
      {
        hide Ids, LiveApart;
        Meanwhile();
        if peers[i].id in dead {
          forall p | p in found ensures p.id != peers[i].id {
            var k :| 0 <= k < i && peers[..i][k] == p;
            assert peers[k] == p;
          }
          IdsAppend(found, peers[i]);
          found := found + [peers[i]];
        }
        assert peers[..i + 1] == peers[..i] + [peers[i]];
      }
    }

    /** Known servers nobody is connected to, in random order: none that a live peer is connected to, and all
        allowed ones that no peer was connected to. That of a promoted leader is never among them. */
    method AvailableServers(known: seq<ServerAddr>, forLeader: bool) returns (available: seq<ServerAddr>)
      requires Valid()
      modifies `dead
      ensures Valid() && old(dead) <= dead
      ensures forall s :: s in available ==>
              s in known && !Taken(peers, dead, s.at) && (s.isOnion ==> !forLeader && hasProxy)
      ensures forall s :: s in known && (s.isOnion ==> !forLeader && hasProxy) && !Taken(peers, old(dead), s.at) ==>
              s in available
      ensures dead == old(dead) ==> forall s :: s in available <==>
              Offerable(known, peers, dead, forLeader, hasProxy, s)
      ensures leader.Some? && leader.value.id !in dead && !leader.value.isLeader ==>
                forall s :: s in available ==> s.at != leader.value.netAddr
    {
      available := [];
      for i := 0 to |known|
        invariant Valid() && old(dead) <= dead
        invariant forall s :: s in available ==>
                  s in known[..i] && !Taken(peers, dead, s.at) && (s.isOnion ==> !forLeader && hasProxy)
        invariant forall s ::
                    s in known[..i] && (s.isOnion ==> !forLeader && hasProxy) && !Taken(peers, old(dead), s.at) ==>
                    s in available
      {
        var server := known[i];
        assert known[..i + 1] == known[..i] + [server];
        if server.isOnion && (forLeader || !hasProxy) {
          continue;
        }
        var matchedAnyNetAddr := Matched(server.at);
        if !matchedAnyNetAddr {
          available := available + [server];
        }
      }
      assert known[..|known|] == known;
      var k :| 0 <= k <= |available|;
      available := available[k..] + available[..k];
      if leader.Some? && leader.value.id !in dead && !leader.value.isLeader {
        forall s | s in available ensures s.at != leader.value.netAddr {
          if s.at == leader.value.netAddr {
            PromotedIsNeverOffered(known, peers, dead, leader.value, forLeader, hasProxy, s);
            assert false;
          }
        }
      }
    }

    method Matched(at: NodeServerAddr) returns (matchedAny: bool)
      requires Valid()
      modifies `dead
      ensures Valid() && old(dead) <= dead
      ensures !matchedAny ==> !Taken(peers, dead, at)
      ensures matchedAny ==> Taken(peers, old(dead), at)
    {
      for j := 0 to |peers|
        invariant Valid() && old(dead) <= dead
        invariant forall k :: 0 <= k < j ==> peers[k].id in dead || peers[k].netAddr != at
      {
        Meanwhile();
        if peers[j].id in dead {
          continue;
        }
        if peers[j].netAddr == at {
          return true;
        }
      }
      matchedAny := false;
    }

    /** A node is dialled; if it comes up it gets the next id and becomes leader or joins the list. */
    method StartNewPeer(netAddr: NodeServerAddr, isLeader: bool, isTrusted: bool) returns (ok: bool)
      requires Valid() && nextId + 1 < UINT32
      modifies this
      ensures old(dead) <= dead && dials == old(dials) + [netAddr]
      ensures isLeader || !ok || (|old(peers)| < maxOnlinePeers && !old(Taken(peers, dead, netAddr))) ==> Valid()
      ensures !ok ==> peers == old(peers) && leader == old(leader) && nextId == old(nextId)
      ensures var p := PeerNode(old(nextId), isLeader, isTrusted, netAddr);
              ok ==> && nextId == old(nextId) + 1
                     && leader == (if isLeader then Some(p) else old(leader))
                     && peers == (if isLeader then old(peers) else old(peers) + [p])
    {
      Meanwhile();
      dials := dials + [netAddr];
      ok := *;
      if !ok {
        return;
      }
      var peer := PeerNode(nextId, isLeader, isTrusted, netAddr);
      nextId := (nextId + 1) % UINT32;
      if isLeader {
        leader := Some(peer);
      } else {
        AddPeer(peer);
      }
    }

    /** A leader that is alive stays. Otherwise a live peer is promoted, or a new node started; the list of peers is
        not touched either way, so a promoted leader is still in it. */
    method CheckLeader(known: seq<ServerAddr>)
      requires Valid() && nextId + 1 < UINT32
      modifies this
      ensures Valid() && old(dead) <= dead && peers == old(peers)
      ensures old(nextId) <= nextId <= old(nextId) + 1
      ensures old(leader).Some? && old(leader).value.id !in dead ==> leader == old(leader)
      ensures leader == old(leader) || (leader.Some? && leader.value in peers && leader.value.id !in old(dead))
              || (leader.Some? && leader.value.isLeader && leader.value.id == old(nextId) < nextId
                  && exists s :: s in known && !s.isOnion && s.at == leader.value.netAddr)
      ensures (old(leader).None? || old(leader).value.id in old(dead))
              && (leader == old(leader) || nextId > old(nextId))
              ==> forall i :: 0 <= i < |peers| ==> peers[i].id in dead
      ensures dials == old(dials) || exists s :: s in known && !s.isOnion && dials == old(dials) + [s.at]
      ensures old(leader).Some? && old(leader).value.id !in dead ==> leader == old(leader) && dials == old(dials)
      ensures (old(leader).None? || old(leader).value.id in old(dead))
              && (forall i :: 0 <= i < |peers| ==> peers[i].id in old(dead))
              && (exists s :: s in known && !s.isOnion)
              ==> dials != old(dials)
    {
      Meanwhile();
      if leader.Some? && leader.value.id !in dead {
        return;
      }
      for i := 0 to |peers|
        invariant Valid() && old(dead) <= dead && peers == old(peers) && leader == old(leader) && nextId == old(nextId)
        invariant dials == old(dials)
        invariant old(leader).Some? ==> old(leader).value.id in dead
        invariant forall k :: 0 <= k < i ==> peers[k].id in dead
      {
        Meanwhile();
        if peers[i].id in dead {
          continue;
        }
        var ok: bool := *;
        if !ok {
          DyingKeeps(peers, dead, dead + {peers[i].id}, nextId, maxOnlinePeers);
          dead := dead + {peers[i].id};
          continue;
        }
        leader := Some(peers[i]);
        return;
      }
      StartNewLeader(known);
    }

    /** Dials one server without a live peer, if there is one. */
    method StartNewLeader(known: seq<ServerAddr>)
      requires Valid() && nextId + 1 < UINT32
      modifies this
      ensures Valid() && old(dead) <= dead && peers == old(peers)
      ensures (nextId == old(nextId) && leader == old(leader))
           || (nextId == old(nextId) + 1 && leader.Some? && leader.value.isLeader && leader.value.id == old(nextId)
               && exists s :: s in known && !s.isOnion && s.at == leader.value.netAddr)
      ensures dials == old(dials) || exists s :: s in known && !s.isOnion && dials == old(dials) + [s.at]
      ensures (exists s :: s in known && !s.isOnion && !Taken(peers, old(dead), s.at)) ==> dials != old(dials)
    {
      if |known| == 0 {
        return;
      }
      var available := AvailableServers(known, true);
      if |available| == 0 {
        return;
      }
      assert available[0] in available;
      var ok := StartNewPeer(available[0].at, true, false);
    }

    /** At most one new peer, at an address no live peer is connected to; the list may be shuffled. */
    method StartNewPeerMaybe(known: seq<ServerAddr>)
      requires Valid() && nextId + 1 < UINT32
      modifies this
      ensures Valid() && old(dead) <= dead && leader == old(leader)
      ensures (nextId == old(nextId) && Shuffled(peers, old(peers)))
           || (nextId == old(nextId) + 1 && |old(peers)| < maxOnlinePeers
               && exists s :: s in known && Shuffled(peers, old(peers) + [PeerNode(old(nextId), false, false, s.at)]))
      ensures dials == old(dials) || exists s :: s in known && (s.isOnion ==> hasProxy) && dials == old(dials) + [s.at]
      ensures |old(peers)| >= maxOnlinePeers ==> dials == old(dials)
      ensures |old(peers)| < maxOnlinePeers
              && (exists s :: s in known && (s.isOnion ==> hasProxy) && !Taken(old(peers), old(dead), s.at))
              ==> dials != old(dials)
    {
      if |peers| >= maxOnlinePeers || |known| == 0 {
        return;
      }
      var available := AvailableServers(known, false);
      if |available| == 0 {
        return;
      }
      assert available[0] in available;
      var ok := StartNewPeer(available[0].at, false, false);
      assert ok ==> peers == old(peers) + [PeerNode(old(nextId), false, false, available[0].at)];
      ShufflePeers();
    }

    method ShufflePeers()
      requires Valid()
      modifies `peers
      ensures Valid() && Shuffled(peers, old(peers))
    {
      hide ListOk, LeaderOk, Shuffled;
      ghost var was := peers;
      assert Shuffled(was, was) by { SameShuffled(was); }
      for i := 0 to |peers|
        invariant Valid() && |peers| == |was| && Shuffled(peers, was) && LeaderOk(was, dead, leader)
      {
        var j :| 0 <= j <= i;
        SwapKeeps(peers, dead, i, j, nextId, maxOnlinePeers);
        SwapShuffles(peers, i, j, was);
        peers := peers[i := peers[j]][j := peers[i]];
        ShuffleKeepsLeader(peers, was, dead, leader);
      }
    }

    /** One tick: the leader, the dead, and perhaps one new peer. Whoever was dead goes and whoever lives stays, at
        most one peer is new, and where there is room and a server left one is dialled. */
    method Tick(forLeader: seq<ServerAddr>, forPeer: seq<ServerAddr>)
      requires Valid() && nextId + 2 < UINT32
      modifies this
      ensures Valid() && old(dead) <= dead && nextId <= old(nextId) + 2
      ensures Turned(old(peers), old(dead), peers, dead)
      ensures forall p, q :: p in peers && q in peers && p !in old(peers) && q !in old(peers) ==> p == q
      ensures forall p :: p in peers && p !in old(peers) ==> exists s :: s in forPeer && s.at == p.netAddr
      ensures old(leader).Some? && old(leader).value.id !in dead ==> leader == old(leader)
      ensures leader == old(leader) || (leader.Some? && leader.value in old(peers))
              || (leader.Some? && leader.value.isLeader && leader.value.id == old(nextId))
      ensures (old(leader).None? || old(leader).value.id in old(dead)) && leader == old(leader) ==>
                forall p :: p in old(peers) ==> p.id in dead
      ensures old(Refillable(forPeer)) ==> dials != old(dials)
      ensures (old(leader).None? || old(leader).value.id in old(dead))
              && (forall p :: p in old(peers) ==> p.id in old(dead)) && (exists s :: s in forLeader && !s.isOnion)
              ==> dials != old(dials)
    {
      hide Turned, Taken, Without, Shuffled, DistinctIds, LiveApart, LeaderOk;
      ghost var was, first := peers, dead;
      CheckLeader(forLeader);
      ghost var before := dead;
      var gone := ReapDeadPeers();
      TurnedByReaping(was, first, before, gone, dead);
      ghost var left, reaped, id := peers, dead, nextId;
      assert left == Without(was, gone);
      if old(Refillable(forPeer)) {
        RoomAfterReaping(was, first, before, gone, maxOnlinePeers);
        ghost var s :| s in forPeer && (s.isOnion ==> hasProxy) && !Taken(was, first, s.at);
        NotTakenLater(was, first, gone, reaped, s.at);
      }
      StartNewPeerMaybe(forPeer);
      if nextId == id {
        ShuffledHas(peers, left);
        TurnedOn(was, first, left, reaped, peers, None, dead);
      } else {
        ghost var s :| s in forPeer && Shuffled(peers, left + [PeerNode(id, false, false, s.at)]);
        ghost var p := PeerNode(id, false, false, s.at);
        ShuffledHas(peers, left + [p]);
        TurnedOn(was, first, left, reaped, peers, Some(p), dead);
      }
    }

    /** There is room in the list, or will be once the dead are gone, and a server nobody live is connected to. */
    ghost predicate Refillable(known: seq<ServerAddr>)
      reads this
    {
      && (|peers| < maxOnlinePeers || exists p :: p in peers && p.id in dead)
      && exists s :: s in known && (s.isOnion ==> hasProxy) && !Taken(peers, dead, s.at)
    }

    /** Over any number of ticks, with any servers known at each, ids stay distinct, the list within its limit, and no
        two live peers at one address; seen are the peers and the dead after each tick. From one tick to the next
        whoever was dead goes and whoever lives stays. In the end every peer is cancelled. */
    method PeersMonitor(ticks: seq<(seq<ServerAddr>, seq<ServerAddr>)>)
      returns (ghost seen: seq<(seq<PeerNode>, set<nat>)>)
      requires Valid() && nextId + 2 * |ticks| < UINT32
      modifies this
      ensures Valid() && old(dead) <= dead
      ensures |seen| == |ticks|
      ensures forall t :: 0 <= t < |ticks| ==>
                DistinctIds(seen[t].0) && LiveApart(seen[t].0, seen[t].1) && |seen[t].0| <= maxOnlinePeers
      ensures forall t :: 0 < t < |ticks| ==> Turned(seen[t - 1].0, seen[t - 1].1, seen[t].0, seen[t].1)
      ensures forall i :: 0 <= i < |peers| ==> peers[i].id in dead
    {
      hide DistinctIds, LiveApart, LeaderOk, Turned, Refillable;
      seen := [];
      for t := 0 to |ticks|
        invariant Valid() && old(dead) <= dead && nextId + 2 * (|ticks| - t) < UINT32
        invariant |seen| == t && (t > 0 ==> seen[t - 1].0 == peers && seen[t - 1].1 <= dead)
        invariant forall k :: 0 <= k < t ==>
                    DistinctIds(seen[k].0) && LiveApart(seen[k].0, seen[k].1) && |seen[k].0| <= maxOnlinePeers
        invariant forall k :: 0 < k < t ==> Turned(seen[k - 1].0, seen[k - 1].1, seen[k].0, seen[k].1)
      {
        Meanwhile();
        ghost var was, gone := peers, dead;
        Tick(ticks[t].0, ticks[t].1);
        if t > 0 {
          TurnedSooner(was, seen[t - 1].1, gone, peers, dead);
        }
        seen := seen + [(peers, dead)];
      }
      CancelAll();
    }

    method CancelAll()
      requires Valid()
      modifies `dead
      ensures Valid() && old(dead) <= dead
      ensures forall i :: 0 <= i < |peers| ==> peers[i].id in dead
    {
      for i := 0 to |peers|
        invariant Valid() && old(dead) <= dead
        invariant forall k :: 0 <= k < i ==> peers[k].id in dead
      {
        DyingKeeps(peers, dead, dead + {peers[i].id}, nextId, maxOnlinePeers);
        dead := dead + {peers[i].id};
      }
    }
  }

  function Ids(ps: seq<PeerNode>): set<nat> {
    set p | p in ps :: p.id
  }

  lemma NoIds(ps: seq<PeerNode>)
    ensures Ids(ps[..0]) == {}
  {
  }

  lemma IdsPrefix(ps: seq<PeerNode>, n: nat)
    requires n <= |ps|
    ensures Ids(ps[..n]) <= Ids(ps)
  {
  }

  lemma IdsAppend(ps: seq<PeerNode>, p: PeerNode)
    ensures Ids(ps + [p]) == Ids(ps) + {p.id}
  {
  }

  /** A peer about to be removed has not been removed yet. */
  lemma StillThere(was: seq<PeerNode>, removed: seq<PeerNode>, i: nat)
    requires i < |removed| && DistinctIds(removed) && forall p :: p in removed ==> p in was
    ensures Without(was, Ids(removed[..i])) != []
  {
    WithoutHas(was, Ids(removed[..i]));
    assert removed[i] in was;
    forall p | p in removed[..i] ensures p.id != removed[i].id {
      var k :| 0 <= k < i && removed[..i][k] == p;
      assert removed[k] == p;
    }
    assert removed[i] in Without(was, Ids(removed[..i]));
  }

  // ---------------------------------------------------------------------------
  // One server, two connections
  // ---------------------------------------------------------------------------

  /** A network that knows one server starts it as leader; the server is offered again for the first peer. */
  method OffersLeaderAgain(server: ServerAddr, maxOnlinePeers: nat, hasProxy: bool)
    returns (net: Network, available: seq<ServerAddr>)
    requires !server.isOnion
    ensures fresh(net) && net.Valid() && net.peers == []
    ensures net.leader.Some? ==> net.leader.value.isLeader && net.leader.value.netAddr == server.at
    ensures server in available
  {
    net := new Network(maxOnlinePeers, hasProxy);
    net.CheckLeader([server]);
    available := net.AvailableServers([server], false);
  }

  /** And dialled: whatever comes up is connected to the server that leads. */
  method DialsLeaderAgain(server: ServerAddr, maxOnlinePeers: nat, hasProxy: bool) returns (net: Network)
    requires !server.isOnion
    ensures fresh(net) && net.Valid() && |net.peers| <= 1
    ensures net.leader.Some? && net.peers != [] ==>
              net.leader.value !in net.peers && net.peers[0].netAddr == net.leader.value.netAddr
  {
    net := new Network(maxOnlinePeers, hasProxy);
    net.CheckLeader([server]);
    net.StartNewPeerMaybe([server]);
    if net.peers != [] {
      assert net.peers[0] in multiset(net.peers);
    }
  }

  /** The state after the leader came up, by itself: in order, and the leader's address on offer. */
  lemma FreshLeaderIsOffered(server: ServerAddr, maxOnlinePeers: nat, hasProxy: bool)
    requires !server.isOnion
    ensures var leader := PeerNode(0, true, false, server.at);
            && ListOk([], {}, 1, maxOnlinePeers) && LeaderOk([], {}, Some(leader))
            && Offerable([server], [], {}, false, hasProxy, server)
  {
  }
}
