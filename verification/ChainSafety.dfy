/** What every run keeps, whatever the server answers. */
module ChainSafety {
  import opened Options
  import opened Hex
  import opened Records
  import opened Chains

  ghost function FileRecords(cfg: Config, c: Chain): seq<seq<Byte>>
    requires cfg.headerSize > 0
  {
    Cut(cfg.headerSize, c.file)
  }

  ghost predicate FileOk(cfg: Config, c: Chain)
    requires cfg.headerSize > 0
  {
    && |c.file| % cfg.headerSize == 0
    && |FileRecords(cfg, c)| == c.tip - cfg.startPoint + 1
  }

  /** The map holds exactly the heights from the start point to the tip. */
  ghost predicate DomainOk(cfg: Config, c: Chain) {
    c.tip >= cfg.startPoint && forall h :: h in c.hdrs <==> cfg.startPoint <= h <= c.tip
  }

  /** Each entry is what its record in the file decodes to. */
  ghost predicate EntriesOk(cfg: Config, c: Chain)
    requires cfg.headerSize > 0 && FileOk(cfg, c) && DomainOk(cfg, c)
  {
    forall h :: cfg.startPoint <= h <= c.tip ==>
      cfg.deserialize(FileRecords(cfg, c)[h - cfg.startPoint]) == Some(c.hdrs[h])
  }

  ghost predicate Linked(cfg: Config, c: Chain)
    requires DomainOk(cfg, c)
  {
    forall h :: cfg.startPoint < h <= c.tip ==> c.hdrs[h].prev == c.hdrs[h - 1].hash
  }

  /** Every chain header is in the reverse map; headers rewound away may stay there too. */
  ghost predicate ReverseOk(cfg: Config, c: Chain)
    requires DomainOk(cfg, c)
  {
    forall h :: cfg.startPoint <= h <= c.tip ==> c.hdrs[h].hash in c.blkHdrs
  }

  /** During recovery the client is shown the height from before the rewind. */
  ghost predicate RecoveryOk(c: Chain) {
    c.recovery ==> c.recoveryTip == c.tip + REWIND
  }

  ghost predicate ChainOk(cfg: Config, c: Chain)
    requires cfg.headerSize > 0
  {
    && c.synced && FileOk(cfg, c) && DomainOk(cfg, c) && EntriesOk(cfg, c) && Linked(cfg, c) && ReverseOk(cfg, c)
  }

  /** The file has the length the tip says, and the entry at each height decodes from its bytes. */
  lemma FileMirrorsMap(cfg: Config, c: Chain, h: int)
    requires cfg.headerSize > 0 && ChainOk(cfg, c) && cfg.startPoint <= h <= c.tip
    ensures |c.file| == (c.tip - cfg.startPoint + 1) * cfg.headerSize
    ensures var i := h - cfg.startPoint;
            && 0 <= i * cfg.headerSize <= (i + 1) * cfg.headerSize <= |c.file|
            && cfg.deserialize(c.file[i * cfg.headerSize..(i + 1) * cfg.headerSize]) == Some(c.hdrs[h])
  {
    var recs := FileRecords(cfg, c);
    CutWhole(cfg.headerSize, c.file);
    JoinLength(cfg.headerSize, recs);
    JoinSlice(cfg.headerSize, recs, h - cfg.startPoint);
  }

  lemma AppendRecord(cfg: Config, file: seq<Byte>, raw: seq<Byte>)
    requires cfg.headerSize > 0 && |file| % cfg.headerSize == 0 && |raw| == cfg.headerSize
    ensures Cut(cfg.headerSize, file + raw) == Cut(cfg.headerSize, file) + [raw]
    ensures |file + raw| % cfg.headerSize == 0
  {
    var size, recs := cfg.headerSize, Cut(cfg.headerSize, file);
    CutWhole(size, file);
    JoinOne(recs, raw);
    CutJoin(size, recs + [raw]);
    JoinLength(size, recs + [raw]);
    MultipleOf(|recs| + 1, size);
  }

  lemma DropRecords(cfg: Config, file: seq<Byte>, n: nat)
    requires cfg.headerSize > 0 && |file| % cfg.headerSize == 0 && n <= |Cut(cfg.headerSize, file)|
    ensures 0 <= |file| - n * cfg.headerSize
    ensures var kept := file[..|file| - n * cfg.headerSize];
            |kept| % cfg.headerSize == 0
            && Cut(cfg.headerSize, kept) == Cut(cfg.headerSize, file)[..|Cut(cfg.headerSize, file)| - n]
  {
    var size, recs := cfg.headerSize, Cut(cfg.headerSize, file);
    CutWhole(size, file);
    JoinLength(size, recs);
    var m := |recs| - n;
    assert |recs| * size - n * size == m * size;
    JoinTake(size, recs, m);
    CutJoin(size, recs[..m]);
    JoinLength(size, recs[..m]);
    MultipleOf(m, size);
  }

  /** The two chains have the same headers up to height h. */
  ghost predicate SameUpTo(cfg: Config, c: Chain, d: Chain, h: int) {
    forall x :: cfg.startPoint <= x <= h ==> x in c.hdrs && x in d.hdrs && c.hdrs[x] == d.hdrs[x]
  }

  lemma ConnectKeeps(cfg: Config, c: Chain, hex: string)
    requires cfg.headerSize > 0 && ChainOk(cfg, c)
    requires ConnectTip(cfg, c, hex).0 == Connected
    ensures var d := ConnectTip(cfg, c, hex).1;
            ChainOk(cfg, d) && d.tip == c.tip + 1 && !d.recovery && SameUpTo(cfg, c, d, c.tip)
            && Convert(cfg, hex) != None && d.hdrs[d.tip] == Convert(cfg, hex).value.0
  {
    var (hdr, raw) := Convert(cfg, hex).value;
    var d := ConnectTip(cfg, c, hex).1;
    RecordAdded(cfg, c, d, hdr, raw);
    hide FileOk, EntriesOk, FileRecords;
    LinkAdded(cfg, c, d, hdr);
  }

  lemma RecordAdded(cfg: Config, c: Chain, d: Chain, hdr: BlockHeader, raw: seq<Byte>)
    requires cfg.headerSize > 0 && FileOk(cfg, c) && DomainOk(cfg, c) && EntriesOk(cfg, c)
    requires |raw| == cfg.headerSize && cfg.deserialize(raw) == Some(hdr)
    requires d.file == c.file + raw && d.tip == c.tip + 1 && d.hdrs == c.hdrs[d.tip := hdr]
    ensures FileOk(cfg, d) && DomainOk(cfg, d) && EntriesOk(cfg, d)
  {
    hide Cut;
    AppendRecord(cfg, c.file, raw);
  }

  lemma LinkAdded(cfg: Config, c: Chain, d: Chain, hdr: BlockHeader)
    requires DomainOk(cfg, c) && Linked(cfg, c) && ReverseOk(cfg, c) && hdr.prev == c.hdrs[c.tip].hash
    requires d.tip == c.tip + 1 && d.hdrs == c.hdrs[d.tip := hdr] && d.blkHdrs == c.blkHdrs[hdr.hash := d.tip]
    ensures DomainOk(cfg, d) && Linked(cfg, d) && ReverseOk(cfg, d) && SameUpTo(cfg, c, d, c.tip)
  {
  }

  lemma RewindKeeps(cfg: Config, c: Chain)
    requires cfg.headerSize > 0 && ChainOk(cfg, c)
    ensures var (o, d) := ReorgRecovery(cfg, c);
            && (o == Rewound || o == Panicked)
            && (o == Panicked <==> c.tip < cfg.startPoint + REWIND)
            && (o == Rewound ==> ChainOk(cfg, d) && d.tip == c.tip - REWIND && d.recovery && d.recoveryTip == c.tip
                                 && SameUpTo(cfg, c, d, d.tip))
            && (o == Panicked ==> d == c)
  {
    if c.tip >= cfg.startPoint + REWIND {
      DropRecords(cfg, c.file, REWIND);
    }
  }

  /** One header: the chain stays good, and either grows by it, stays, or loses the top eight. */
  lemma ConnectTipKeeps(cfg: Config, c: Chain, hex: string)
    requires cfg.headerSize > 0 && ChainOk(cfg, c)
    ensures var (o, d) := ConnectTip(cfg, c, hex);
            && ChainOk(cfg, d)
            && (o == Refused || o == Panicked ==> d == c)
            && (o == Connected ==> d.tip == c.tip + 1 && !d.recovery && SameUpTo(cfg, c, d, c.tip))
            && (o == Rewound ==>
                 d.tip == c.tip - REWIND && d.recovery && d.recoveryTip == c.tip && SameUpTo(cfg, c, d, d.tip))
  {
    RewindKeeps(cfg, c);
    if ConnectTip(cfg, c, hex).0 == Connected {
      ConnectKeeps(cfg, c, hex);
    }
  }

  /** What a client is shown does not move with the first rewind, and falls by eight with each further one. */
  lemma RewindAndClientTip(cfg: Config, c: Chain, hex: string)
    requires cfg.headerSize > 0 && ChainOk(cfg, c) && RecoveryOk(c) && ConnectTip(cfg, c, hex).0 == Rewound
    ensures var d := ConnectTip(cfg, c, hex).1;
            && (ClientTip(d) == ClientTip(c) <==> !c.recovery)
            && (c.recovery ==> ClientTip(d) == ClientTip(c) - REWIND)
  {
    ConnectTipKeeps(cfg, c, hex);
  }

  /** Where the tip ends after k headers connected and the last outcome. */
  function EndTip(tip: int, p: Progress): int {
    if p.last == Rewound then tip + p.connected - REWIND else tip + p.connected
  }

  function Min(a: int, b: int): int {
    if a < b then a else b
  }

  /** Bounded loss over any number of headers: the tip ends at tip + k, or eight lower after a
      rewind, and below both ends nothing of the old chain changed. */
  lemma {:induction false} ConnectAllKeeps(cfg: Config, c: Chain, hexes: seq<Option<string>>)
    requires cfg.headerSize > 0 && ChainOk(cfg, c) && RecoveryOk(c)
    ensures var p := ConnectAll(cfg, c, hexes);
            && ChainOk(cfg, p.chain) && RecoveryOk(p.chain)
            && p.chain.tip == EndTip(c.tip, p) && p.connected <= |hexes|
            && SameUpTo(cfg, c, p.chain, Min(c.tip, p.chain.tip))
            && (p.last == Rewound ==> p.chain.recovery)
            && (p.last != Rewound && p.connected > 0 ==> !p.chain.recovery)
            && (p.last != Rewound && p.connected == 0 ==> p.chain == c)
    decreases |hexes|
  {
    if hexes != [] && hexes[0].Some? {
      ConnectTipKeeps(cfg, c, hexes[0].value);
      var (o, d) := ConnectTip(cfg, c, hexes[0].value);
      if o == Connected {
        ConnectAllKeeps(cfg, d, hexes[1..]);
      }
    }
  }

  /** What one notification does to the chain. */
  ghost predicate Kept(cfg: Config, c: Chain, p: Progress)
    requires cfg.headerSize > 0
  {
    && ChainOk(cfg, p.chain) && RecoveryOk(p.chain)
    && p.chain.tip == EndTip(c.tip, p)
    && SameUpTo(cfg, c, p.chain, Min(c.tip, p.chain.tip))
    && (p.last == Rewound ==> p.chain.recovery)
    && (p.last != Rewound && p.connected > 0 ==> !p.chain.recovery)
    && (p.last != Rewound && p.connected == 0 ==> p.chain == c)
  }

  /** The headers one notification brings, in order; None where a request or a check fails. */
  function Incoming(cfg: Config, c: Chain, note: Notification, srv: Server): seq<Option<string>>
    requires cfg.headerSize > 0
  {
    if note.height < cfg.startPoint || note.height <= c.tip then [None]
    else if note.height == c.tip + 1 then [Some(note.hex)]
    else if note.height - c.tip > REWIND then
      var reply := srv.blocks(c.tip + 1, note.height - c.tip);
      if Acceptable(cfg, reply, note.height - c.tip) then Pieces(cfg, reply.value.hex) else [None]
    else Answers(srv, c.tip + 1, note.height)
  }

  /** Every kind of notification connects its headers one by one. */
  lemma HandleIsConnect(cfg: Config, c: Chain, note: Notification, srv: Server)
    requires cfg.headerSize > 0
    ensures Handle(cfg, c, note, srv).progress == ConnectAll(cfg, c, Incoming(cfg, c, note, srv))
  {
    assert note.height - (c.tip + 1) + 1 == note.height - c.tip;
  }

  /** Bounded loss over one notification: k headers connected leave the tip at tip + k, or eight
      lower after a rewind; at most eight old heights are lost and the rest is unchanged. */
  lemma HandleKeeps(cfg: Config, c: Chain, note: Notification, srv: Server)
    requires cfg.headerSize > 0 && ChainOk(cfg, c) && RecoveryOk(c)
    ensures Kept(cfg, c, Handle(cfg, c, note, srv).progress)
  {
    HandleIsConnect(cfg, c, note, srv);
    ConnectAllKeeps(cfg, c, Incoming(cfg, c, note, srv));
  }

  /** The client is told a tip exactly when headers were connected; it is told where the chain now ends, which after a
      rewind may be below what it was told before. A notification below the start point cancels the node and changes
      nothing. */
  lemma HandleTells(cfg: Config, c: Chain, note: Notification, srv: Server)
    requires cfg.headerSize > 0 && ChainOk(cfg, c) && RecoveryOk(c)
    ensures var r := Handle(cfg, c, note, srv);
            && (r.cancelled <==> note.height < cfg.startPoint)
            && (r.tell.Some? <==> r.progress.connected > 0 && r.progress.last != Panicked)
            && (r.tell.Some? ==> r.tell.value == EndTip(c.tip, r.progress))
            && (note.height <= c.tip ==> r.progress.chain == c && r.tell.None?)
  {
    HandleKeeps(cfg, c, note, srv);
    hide ChainOk, SyncOntoTip, ConnectAll;
  }

  /** Notifications handled in turn, each with the answers the server gave meanwhile. */
  ghost predicate Follows(cfg: Config, chains: seq<Chain>, notes: seq<Notification>, servers: seq<Server>)
    requires cfg.headerSize > 0
  {
    && |chains| == |notes| + 1 && |servers| == |notes|
    && forall i :: 0 <= i < |notes| ==> FollowsAt(cfg, chains, notes, servers, i)
  }

  ghost predicate FollowsAt(cfg: Config, chains: seq<Chain>, notes: seq<Notification>, servers: seq<Server>, i: nat)
    requires cfg.headerSize > 0 && i < |notes| && |chains| == |notes| + 1 && |servers| == |notes|
  {
    chains[i + 1] == Handle(cfg, chains[i], notes[i], servers[i]).progress.chain
  }

  lemma FollowsFirst(cfg: Config, chains: seq<Chain>, notes: seq<Notification>, servers: seq<Server>, n: nat)
    requires cfg.headerSize > 0 && Follows(cfg, chains, notes, servers) && n <= |notes|
    ensures Follows(cfg, chains[..n + 1], notes[..n], servers[..n])
  {
    hide Handle;
    var cs, ns, ss := chains[..n + 1], notes[..n], servers[..n];
    forall i | 0 <= i < |ns| ensures FollowsAt(cfg, cs, ns, ss, i) {
      assert FollowsAt(cfg, chains, notes, servers, i);
    }
  }

  /** Against any server, every run from a synced chain keeps file, map, links and the start
      header; while recovering, the client's tip is the tip plus eight. */
  lemma {:induction false} RunKeepsChain(cfg: Config, chains: seq<Chain>, notes: seq<Notification>,
                                         servers: seq<Server>)
    requires cfg.headerSize > 0 && Follows(cfg, chains, notes, servers)
    requires ChainOk(cfg, chains[0]) && !chains[0].recovery
    ensures var c := chains[|notes|];
            && ChainOk(cfg, c) && c.hdrs[cfg.startPoint] == chains[0].hdrs[cfg.startPoint]
            && ClientTip(c) == (if c.recovery then c.tip + REWIND else c.tip)
            && RecoveryOk(c)
    decreases |notes|
  {
    if notes != [] {
      var n := |notes| - 1;
      assert FollowsAt(cfg, chains, notes, servers, n);
      FollowsFirst(cfg, chains, notes, servers, n);
      RunKeepsChain(cfg, chains[..n + 1], notes[..n], servers[..n]);
      HandleKeeps(cfg, chains[n], notes[n], servers[n]);
    }
  }
}
