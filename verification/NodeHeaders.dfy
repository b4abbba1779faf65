/** A node following the chain of its server, one notification at a time. */
module NodeHeaders {
  import opened Options
  import opened Hex
  import opened Records
  import opened Chains
  import opened ChainSafety
  import opened HeaderSync
  import opened HeaderStore
  import opened SyncOutcomes

  /** A loop that has connected i of the headers has the rest to connect from where it stands. */
  ghost predicate OnTheWay(cfg: Config, start: Chain, hexes: seq<Option<string>>, i: nat, now: Chain)
    requires cfg.headerSize > 0 && i <= |hexes|
  {
    var rest := ConnectAll(cfg, now, hexes[i..]);
    ConnectAll(cfg, start, hexes) == rest.(connected := rest.connected + i)
  }

  lemma StartOnTheWay(cfg: Config, start: Chain, hexes: seq<Option<string>>)
    requires cfg.headerSize > 0
    ensures OnTheWay(cfg, start, hexes, 0, start)
  {
    hide ConnectTip, ConnectAll;
    assert hexes[0..] == hexes;
  }

  /** At the end nothing is left to connect. */
  lemma EndOnTheWay(cfg: Config, start: Chain, hexes: seq<Option<string>>, now: Chain)
    requires cfg.headerSize > 0 && OnTheWay(cfg, start, hexes, |hexes|, now)
    ensures ConnectAll(cfg, start, hexes) == Progress(|hexes|, Connected, now)
  {
  }

  lemma NextOnTheWay(cfg: Config, start: Chain, hexes: seq<Option<string>>, i: nat, now: Chain)
    requires cfg.headerSize > 0 && i < |hexes| && OnTheWay(cfg, start, hexes, i, now)
    ensures hexes[i].None? ==> ConnectAll(cfg, start, hexes) == Progress(i, Refused, now)
    ensures hexes[i].Some? ==>
              var (o, d) := ConnectTip(cfg, now, hexes[i].value);
              if o == Connected then OnTheWay(cfg, start, hexes, i + 1, d)
              else ConnectAll(cfg, start, hexes) == Progress(i, o, d)
  {
    hide ConnectTip;
    assert hexes[i..][1..] == hexes[i + 1..];
  }

  class Node {
    const cfg: Config
    const h: Headers
    var cancelled: bool
    var told: seq<int>

    ghost predicate Valid() {
      cfg.headerSize > 0 && h.cfg == cfg
    }

    constructor (h: Headers)
      requires h.cfg.headerSize > 0
      ensures Valid() && this.h == h && !cancelled && told == []
    {
      this.h, cfg, cancelled, told := h, h.cfg, false, [];
    }

    /** A reorg is suspected: take REWIND headers off the tip and remember where it was. */
    method ReorgRecovery() returns (o: Outcome)
      requires Valid()
      modifies h
      ensures (o, h.State()) == Chains.ReorgRecovery(cfg, old(h.State()))
    {
      var tip := h.tip;
      if tip < cfg.startPoint + REWIND {
        return Panicked;
      }
      var left := h.TruncateHeadersFile(REWIND);
      if left.None? {
        return Panicked;
      }
      ghost var cut := h.State();
      for i := 0 to REWIND
        invariant h.State() == RemoveFromTip(cut, i)
      {
        h.RemoveOneHdrFromTip();
        OneMore(cut, i);
      }
      h.recoveryTip := tip;
      h.recovery := true;
      o := Rewound;
    }

    method ConnectTip(serverHeader: string) returns (o: Outcome)
      requires Valid()
      modifies h
      ensures (o, h.State()) == Chains.ConnectTip(cfg, old(h.State()), serverHeader)
    {
      var conv := Convert(cfg, serverHeader);
      if conv.None? {
        return Refused;
      }
      var can := h.CheckCanConnect(conv.value.0);
      if can.None? {
        return Panicked;
      }
      if !can.value {
        o := ReorgRecovery();
        return;
      }
      DivUnique(cfg.headerSize, 1, cfg.headerSize, 0);
      var n := h.AppendHeadersFile(conv.value.1);
      if n.None? {
        assert false;
      }
      h.StoreOneHdr(conv.value.0);
      h.recovery := false;
      o := Connected;
    }

    method UpdateFromBlocks(srv: Server, from: int, to: int) returns (connected: nat, last: Outcome)
      requires Valid()
      modifies h
      ensures Progress(connected, last, h.State()) == Chains.UpdateFromBlocks(cfg, old(h.State()), srv, from, to)
    {
      hide Chains.ConnectTip, ConnectAll, OnTheWay;
      connected, last := 0, Connected;
      var i := from;
      ghost var hexes := Answers(srv, from, to);
      StartOnTheWay(cfg, h.State(), hexes);
      while i <= to
        invariant connected == i - from && connected <= |hexes|
        invariant from <= i && last == Connected
        invariant OnTheWay(cfg, old(h.State()), hexes, connected, h.State())
      {
        NextOnTheWay(cfg, old(h.State()), hexes, connected, h.State());
        var header := srv.block(i);
        if header.None? {
          last := Refused;
          return;
        }
        last := ConnectTip(header.value);
        if last != Connected {
          return;
        }
        connected := connected + 1;
        i := i + 1;
      }
      EndOnTheWay(cfg, old(h.State()), hexes, h.State());
    }

    method UpdateFromChunk(srv: Server, from: int, to: int) returns (connected: nat, last: Outcome)
      requires Valid()
      modifies h
      ensures Progress(connected, last, h.State()) == Chains.UpdateFromChunk(cfg, old(h.State()), srv, from, to)
    {
      hide Chains.ConnectTip, ConnectAll, OnTheWay, Cut, Pieces;
      connected, last := 0, Refused;
      var reqCount := to - from + 1;
      var reply := srv.blocks(from, reqCount);
      if reply.None? || reply.value.max < ELECTRUM_MAGIC_NUMHDR {
        return;
      }
      var oneHdrLen := 2 * cfg.headerSize;
      var all := reply.value.hex;
      if |all| != oneHdrLen * reply.value.count || reqCount != reply.value.count {
        return;
      }
      ghost var hexes := Pieces(cfg, all);
      PiecesAt(cfg, all, reply.value.count);
      StartOnTheWay(cfg, h.State(), hexes);
      last := Connected;
      var i := 0;
      while i < reply.value.count
        invariant 0 <= i <= |hexes| == reply.value.count && connected == i && last == Connected
        invariant OnTheWay(cfg, old(h.State()), hexes, i, h.State())
      {
        PieceAt(cfg, all, reply.value.count, i);
        NextOnTheWay(cfg, old(h.State()), hexes, i, h.State());
        last := ConnectTip(all[i * oneHdrLen..(i + 1) * oneHdrLen]);
        if last != Connected {
          return;
        }
        connected := connected + 1;
        i := i + 1;
      }
      EndOnTheWay(cfg, old(h.State()), hexes, h.State());
    }

    method SyncHeadersOntoOurTip(srv: Server, serverHeight: int) returns (connected: nat, last: Outcome)
      requires Valid()
      modifies h
      ensures Progress(connected, last, h.State()) == SyncOntoTip(cfg, old(h.State()), srv, serverHeight)
    {
      var ourTip := h.tip;
      if serverHeight - ourTip > REWIND {
        connected, last := UpdateFromChunk(srv, ourTip + 1, serverHeight);
      } else {
        connected, last := UpdateFromBlocks(srv, ourTip + 1, serverHeight);
      }
    }

    /** One notification taken from the queue. */
    method HandleNotification(note: Notification, srv: Server) returns (last: Outcome)
      requires Valid()
      modifies this, h
      ensures var r := Handle(cfg, old(h.State()), note, srv);
              && h.State() == r.progress.chain && last == r.progress.last
              && cancelled == (old(cancelled) || r.cancelled)
              && told == old(told) + (if r.tell.Some? then [r.tell.value] else [])
    {
      var ourTip := h.tip;
      last := Refused;
      if note.height < cfg.startPoint {
        cancelled := true;
        return;
      }
      if note.height <= ourTip {
        return;
      }
      if note.height == ourTip + 1 {
        last := ConnectTip(note.hex);
        OneHeader(cfg, old(h.State()), note.hex);
        if last == Connected {
          told := told + [h.tip];
        }
        return;
      }
      var connected;
      connected, last := SyncHeadersOntoOurTip(srv, note.height);
      if connected > 0 && last != Panicked {
        told := told + [h.tip];
      }
    }

    /** The queue: notifications handled in turn until the node is cancelled or the program stops.
        The chains seen on the way follow one another as the specification says. */
    method HeaderQueue(notes: seq<Notification>, servers: seq<Server>)
      returns (handled: nat, last: Outcome, ghost chains: seq<Chain>)
      requires Valid() && |servers| == |notes|
      modifies this, h
      ensures handled <= |notes| && |chains| == handled + 1
      ensures Follows(cfg, chains, notes[..handled], servers[..handled])
      ensures chains[0] == old(h.State()) && chains[handled] == h.State()
      ensures handled < |notes| ==> cancelled || last == Panicked
    {
      handled, last, chains := 0, Connected, [h.State()];
      while handled < |notes| && !cancelled && last != Panicked
        invariant handled <= |notes| && |chains| == handled + 1
        invariant chains[0] == old(h.State()) && chains[handled] == h.State()
        invariant Follows(cfg, chains, notes[..handled], servers[..handled])
        decreases |notes| - handled
      {
        last := HandleNotification(notes[handled], servers[handled]);
        FollowsOneMore(cfg, chains, notes, servers, handled, h.State());
        chains := chains + [h.State()];
        handled := handled + 1;
      }
    }

    /** The first synchronisation: the file, then chunks from the server, then the maps and the links. The requests go
        on from the end of the file. */
    method SyncNetworkHeaders(answers: seq<Answer>) returns (end: SyncEnd, ghost asked: seq<(int, int)>)
      requires Valid()
      modifies h
      ensures (end, h.State()) == Sync(cfg, old(h.State()), answers)
      ensures forall k :: 0 <= k < |asked| ==>
                asked[k] == (cfg.startPoint + |old(h.file)| / cfg.headerSize + 2016 * k, 2016)
      ensures |old(h.file)| % cfg.headerSize == 0 ==>
                |asked| == FullOnes(cfg, answers) + if end == Left then 0 else 1
    {
      var numHeaders := h.BytesToNumHdrs(|h.file|);
      if numHeaders.None? {
        return Failed, [];
      }
      MultipleOf(numHeaders.value, cfg.headerSize);
      var maybeTip := cfg.startPoint + numHeaders.value - 1;
      end, maybeTip, asked := GatherFrom(answers, maybeTip);
      if end != Synced {
        return;
      }
      var ok := h.Store(h.file, cfg.startPoint);
      FileWhole(cfg, old(h.file), cfg.startPoint + |old(h.file)| / cfg.headerSize - 1, answers, true);
      if !ok {
        return Failed, asked;
      }
      h.tip := maybeTip;
      var v := h.VerifyFromTip(0, true);
      if v.Crashed? {
        return Crash, asked;
      }
      if v.Broken? {
        return Failed, asked;
      }
      h.synced := true;
    }

    /** The chunks appended to the file while the server says it has full ones. Each is asked for above the one before
        it; a node that is done asks no more. */
    method GatherFrom(answers: seq<Answer>, tip: int)
      returns (end: SyncEnd, maybeTip: int, ghost asked: seq<(int, int)>)
      requires Valid()
      modifies h`file
      ensures var g := Gather(cfg, old(h.file), tip, answers, true);
              end == g.end && maybeTip == g.maybeTip && h.State() == old(h.State()).(file := g.file)
      ensures forall k :: 0 <= k < |asked| ==> asked[k] == (tip + 1 + 2016 * k, 2016)
      ensures |asked| == FullOnes(cfg, answers) + if end == Left then 0 else 1
    {
      hide Decode, Gather, Full, FullOnes;
      maybeTip, asked := tip, [];
      var startHeight := tip + 1;
      var i, doneGathering := 0, false;
      while !doneGathering
        invariant 0 <= i <= |answers|
        invariant h.State() == old(h.State()).(file := h.file)
        invariant var g := Gather(cfg, old(h.file), tip, answers, true);
                  if doneGathering then g == Gathered(Synced, h.file, maybeTip)
                  else g == Gather(cfg, h.file, maybeTip, answers[i..], i == 0)
        invariant startHeight == tip + 1 + 2016 * i && |asked| == i
        invariant forall k :: 0 <= k < |asked| ==> asked[k] == (tip + 1 + 2016 * k, 2016)
        invariant FullOnes(cfg, answers) == if doneGathering then i - 1 else i + FullOnes(cfg, answers[i..])
        decreases !doneGathering, |answers| - i
      {
        AtAnswer(cfg, h.file, maybeTip, answers, i, i == 0);
        if i > 0 && i < |answers| && answers[i].NodeDone? {
          return Left, maybeTip, asked;
        }
        asked := asked + [(startHeight, ELECTRUM_MAGIC_NUMHDR)];
        if i == |answers| || !answers[i].Got? {
          return Failed, maybeTip, asked;
        }
        var reply := answers[i].reply;
        if reply.count > 0 {
          var b := Decode(reply.hex);
          if b.None? {
            return if i == 0 then Fatal else Failed, maybeTip, asked;
          }
          var nh := h.AppendHeadersFile(b.value);
          if nh.None? {
            return if i == 0 then Fatal else Failed, maybeTip, asked;
          }
          maybeTip := maybeTip + reply.count;
        }
        if reply.count < ELECTRUM_MAGIC_NUMHDR {
          doneGathering := true;
        }
        startHeight := startHeight + ELECTRUM_MAGIC_NUMHDR;
        i := i + 1;
      }
      end := Synced;
    }
  }

  /** What gathering makes of answer i, and of the lack of one. */
  lemma AtAnswer(cfg: Config, file: seq<Byte>, tip: int, answers: seq<Answer>, i: nat, first: bool)
    requires cfg.headerSize > 0 && i <= |answers|
    ensures var g, n := Gather(cfg, file, tip, answers[i..], first), FullOnes(cfg, answers[i..]);
            if i == |answers| || !answers[i].Got? then
              n == 0 && g == Gathered(if i < |answers| && answers[i].NodeDone? && !first then Left
                else Failed, file, tip)
            else
              var count, raw := answers[i].reply.count, Decode(answers[i].reply.hex);
              if count <= 0 then n == 0 && g == Gathered(Synced, file, tip)
              else if raw.None? || |raw.value| % cfg.headerSize != 0 then
                n == 0 && g == Gathered(if first then Fatal else Failed, file, tip)
              else if count < 2016 then n == 0 && g == Gathered(Synced, file + raw.value, tip + count)
              else
                && n == 1 + FullOnes(cfg, answers[i + 1..])
                && g == Gather(cfg, file + raw.value, tip + count, answers[i + 1..], false)
  {
    hide Decode;
    if i < |answers| {
      assert answers[i..][1..] == answers[i + 1..];
    }
  }

  lemma OneMore(c: Chain, i: nat)
    ensures RemoveFromTip(RemoveFromTip(c, i), 1) == RemoveFromTip(c, i + 1)
    ensures RemoveFromTip(c, 0) == c
  {
    assert RemoveFromTip(c, 0).hdrs == c.hdrs;
    assert RemoveFromTip(RemoveFromTip(c, i), 1).hdrs == RemoveFromTip(c, i + 1).hdrs;
  }

  lemma OneHeader(cfg: Config, c: Chain, hex: string)
    requires cfg.headerSize > 0
    ensures var (o, d) := ConnectTip(cfg, c, hex);
            ConnectAll(cfg, c, [Some(hex)]) == Progress(if o == Connected then 1 else 0, o, d)
  {
    hide ConnectTip;
    var (o, d) := ConnectTip(cfg, c, hex);
    assert ConnectAll(cfg, d, []) == Progress(0, Connected, d);
  }

  lemma Regroup(size: nat, count: nat)
    ensures 2 * size * count == count * (2 * size)
  {
  }

  /** A string of count pieces is cut into so many. */
  lemma CutCount(size: nat, all: string, count: nat)
    requires size > 0 && |all| == count * size
    ensures |all| % size == 0 && |Cut(size, all)| == count
  {
    hide Cut;
    MultipleOf(count, size);
    CutWhole(size, all);
  }

  lemma PiecesAt(cfg: Config, all: string, count: nat)
    requires cfg.headerSize > 0 && |all| == 2 * cfg.headerSize * count
    ensures |Pieces(cfg, all)| == count
  {
    hide Cut;
    var size := 2 * cfg.headerSize;
    Regroup(cfg.headerSize, count);
    CutCount(size, all, count);
  }

  lemma CutSlice(size: nat, all: string, i: nat)
    requires size > 0 && |all| % size == 0 && i < |Cut(size, all)|
    ensures i * size <= (i + 1) * size <= |all| && Cut(size, all)[i] == all[i * size..(i + 1) * size]
  {
    hide Cut, Join;
    CutWhole(size, all);
    JoinSlice(size, Cut(size, all), i);
  }

  lemma PieceAt(cfg: Config, all: string, count: nat, i: nat)
    requires cfg.headerSize > 0 && |all| == 2 * cfg.headerSize * count && i < count
    ensures |Pieces(cfg, all)| == count
    ensures i * (2 * cfg.headerSize) <= (i + 1) * (2 * cfg.headerSize) <= |all|
    ensures Pieces(cfg, all)[i] == Some(all[i * (2 * cfg.headerSize)..(i + 1) * (2 * cfg.headerSize)])
  {
    hide Cut, Join;
    var size := 2 * cfg.headerSize;
    Regroup(cfg.headerSize, count);
    CutCount(size, all, count);
    CutSlice(size, all, i);
  }

  lemma FollowsOneMore(cfg: Config, chains: seq<Chain>, notes: seq<Notification>, servers: seq<Server>, n: nat,
                       next: Chain)
    requires cfg.headerSize > 0 && n < |notes| == |servers| && |chains| == n + 1
    requires Follows(cfg, chains, notes[..n], servers[..n])
    requires next == Handle(cfg, chains[n], notes[n], servers[n]).progress.chain
    ensures Follows(cfg, chains + [next], notes[..n + 1], servers[..n + 1])
  {
    hide Handle;
    var cs, ns, ss := chains + [next], notes[..n + 1], servers[..n + 1];
    forall i | 0 <= i < |ns| ensures FollowsAt(cfg, cs, ns, ss, i) {
      if i < n {
        assert FollowsAt(cfg, chains, notes[..n], servers[..n], i);
      }
    }
  }

  lemma {:induction false} FileWhole(cfg: Config, file: seq<Byte>, tip: int, answers: seq<Answer>, first: bool)
    requires cfg.headerSize > 0 && |file| % cfg.headerSize == 0
    ensures |Gather(cfg, file, tip, answers, first).file| % cfg.headerSize == 0
    decreases |answers|
  {
    if answers != [] && answers[0].Got? && answers[0].reply.count > 0 {
      hide Decode;
      var raw := Decode(answers[0].reply.hex);
      if raw.Some? && |raw.value| % cfg.headerSize == 0 {
        WholeRecords(cfg.headerSize, |file|, |raw.value|);
        if answers[0].reply.count >= ELECTRUM_MAGIC_NUMHDR {
          FileWhole(cfg, file + raw.value, tip + answers[0].reply.count, answers[1..], false);
        }
      }
    }
  }
}
