/** Which headers connect, which are refused, and which cost the top of the chain. */
module HeaderOutcomes {
  import opened ChainSafety
  import opened Chains
  import opened Hex
  import opened Options

  /** The hex is that of a whole header. */
  predicate Decodes(cfg: Config, hex: string) {
    var raw := Decode(hex);
    raw.Some? && |raw.value| == cfg.headerSize && cfg.deserialize(raw.value).Some?
  }

  function HeaderOf(cfg: Config, hex: string): BlockHeader
    requires Decodes(cfg, hex)
  {
    cfg.deserialize(Decode(hex).value).value
  }

  /** The header follows the one at our tip. */
  predicate Follows(cfg: Config, c: Chain, hex: string)
    requires Decodes(cfg, hex)
  {
    c.tip in c.hdrs && c.hdrs[c.tip].hash == HeaderOf(cfg, hex).prev
  }

  /** The header stands above the old tip in the file and in both maps, and recovery is over. */
  ghost predicate Extends(cfg: Config, c: Chain, hex: string, d: Chain)
    requires Decodes(cfg, hex)
  {
    var hdr := HeaderOf(cfg, hex);
    && d.tip == c.tip + 1 && d.file == c.file + Decode(hex).value && d.synced == c.synced
    && d.hdrs == c.hdrs[c.tip + 1 := hdr] && d.blkHdrs == c.blkHdrs[hdr.hash := c.tip + 1]
    && !d.recovery && d.recoveryTip == c.recoveryTip
  }

  /** Eight headers are off the file and the height map; the old tip is kept for clients. */
  ghost predicate CutBack(cfg: Config, c: Chain, d: Chain) {
    && d.tip == c.tip - 8 && d.synced == c.synced && d.blkHdrs == c.blkHdrs
    && d.recovery && d.recoveryTip == c.tip
    && |d.file| == (if |c.file| < 8 * cfg.headerSize then 0 else |c.file| - 8 * cfg.headerSize) && d.file <= c.file
    && (forall h :: h in d.hdrs <==> h in c.hdrs && !(c.tip - 8 < h <= c.tip))
    && forall h :: h in d.hdrs ==> d.hdrs[h] == c.hdrs[h]
  }

  /** What becomes of one header, on any chain. */
  lemma ConnectTipIff(cfg: Config, c: Chain, hex: string)
    requires cfg.headerSize > 0
    ensures var (o, d) := ConnectTip(cfg, c, hex);
            && (o == Refused <==> !Decodes(cfg, hex))
            && (o == Connected <==> Decodes(cfg, hex) && Follows(cfg, c, hex))
            && (o == Rewound <==> Decodes(cfg, hex) && c.tip in c.hdrs && !Follows(cfg, c, hex)
                                  && c.tip >= cfg.startPoint + 8 && c.synced && |c.file| % cfg.headerSize == 0)
            && (o == Refused || o == Panicked ==> d == c)
            && (o == Connected ==> Extends(cfg, c, hex, d))
            && (o == Rewound ==> CutBack(cfg, c, d))
  {
    hide Decode;
  }

  /** On a good chain: a hex that is no header changes nothing, and headers are lost only to one that does not link. */
  lemma LosesOnlyToStrays(cfg: Config, c: Chain, hex: string)
    requires cfg.headerSize > 0 && ChainOk(cfg, c)
    ensures var (o, d) := ConnectTip(cfg, c, hex);
            && (!Decodes(cfg, hex) ==> d == c)
            && (d.tip < c.tip ==> Decodes(cfg, hex) && c.hdrs[c.tip].hash != HeaderOf(cfg, hex).prev)
  {
    ConnectTipIff(cfg, c, hex);
    hide Decode;
  }

  // ---------------------------------------------------------------------------
  // Many headers
  // ---------------------------------------------------------------------------

  /** The chains on the way: each header connects on the chain before it. */
  ghost predicate Steps(cfg: Config, way: seq<Chain>, hexes: seq<Option<string>>)
    requires cfg.headerSize > 0
  {
    && 0 < |way| <= |hexes| + 1
    && forall i :: 0 <= i < |way| - 1 ==> StepsAt(cfg, way, hexes, i)
  }

  ghost predicate StepsAt(cfg: Config, way: seq<Chain>, hexes: seq<Option<string>>, i: nat)
    requires cfg.headerSize > 0 && i + 1 < |way| <= |hexes| + 1
  {
    hexes[i].Some? && ConnectTip(cfg, way[i], hexes[i].value) == (Connected, way[i + 1])
  }

  /** How the way ends: all connected, or the next header missing, or the next one not connecting. */
  ghost predicate Ends(cfg: Config, way: seq<Chain>, hexes: seq<Option<string>>, p: Progress)
    requires cfg.headerSize > 0 && 0 < |way| <= |hexes| + 1
  {
    var k := |way| - 1;
    && p.connected == k
    && if k == |hexes| then p.last == Connected && p.chain == way[k]
       else if hexes[k].None? then p.last == Refused && p.chain == way[k]
       else p.last != Connected && ConnectTip(cfg, way[k], hexes[k].value) == (p.last, p.chain)
  }

  /** Headers connect one by one up to the first that does not, and there it ends. */
  lemma {:induction false} ConnectsInTurn(cfg: Config, c: Chain, hexes: seq<Option<string>>) returns (way: seq<Chain>)
    requires cfg.headerSize > 0
    ensures Steps(cfg, way, hexes) && way[0] == c && Ends(cfg, way, hexes, ConnectAll(cfg, c, hexes))
    decreases |hexes|
  {
    hide ConnectTip;
    way := [c];
    if hexes != [] && hexes[0].Some? {
      var (o, d) := ConnectTip(cfg, c, hexes[0].value);
      if o == Connected {
        var rest := ConnectsInTurn(cfg, d, hexes[1..]);
        way := [c] + rest;
        forall i | 0 <= i < |way| - 1 ensures StepsAt(cfg, way, hexes, i) {
          if i > 0 {
            assert StepsAt(cfg, rest, hexes[1..], i - 1);
          }
        }
      }
    }
  }

  /** A notification costs headers only if one of the headers it brings decodes and does not follow our tip as it then
      stands; one that fails otherwise leaves what connected before. */
  lemma HandleLosesOnlyToStrays(cfg: Config, c: Chain, note: Notification, srv: Server) returns (way: seq<Chain>)
    requires cfg.headerSize > 0 && ChainOk(cfg, c)
    ensures var hexes, p := Incoming(cfg, c, note, srv), Handle(cfg, c, note, srv).progress;
            && Steps(cfg, way, hexes) && way[0] == c && Ends(cfg, way, hexes, p)
            && (p.last == Rewound ==>
                 var k := |way| - 1;
                 && k < |hexes| && hexes[k].Some? && Decodes(cfg, hexes[k].value)
                 && !Follows(cfg, way[k], hexes[k].value))
            && (p.last == Refused ==> p.chain == way[|way| - 1])
            && (p.chain.tip < c.tip ==> p.last == Rewound)
  {
    HandleIsConnect(cfg, c, note, srv);
    var hexes := Incoming(cfg, c, note, srv);
    hide ConnectTip, ConnectAll, Handle, Incoming, Decodes, Follows, ChainOk, SameUpTo;
    way := ConnectsInTurn(cfg, c, hexes);
    var k := |way| - 1;
    if k < |hexes| && hexes[k].Some? {
      ConnectTipIff(cfg, way[k], hexes[k].value);
    }
    TipFalls(cfg, c, hexes);
  }

  lemma {:induction false} TipFalls(cfg: Config, c: Chain, hexes: seq<Option<string>>)
    requires cfg.headerSize > 0 && ChainOk(cfg, c)
    ensures var p := ConnectAll(cfg, c, hexes); p.chain.tip < c.tip ==> p.last == Rewound
    decreases |hexes|
  {
    hide ChainOk, ConnectTip, SameUpTo;
    if hexes != [] && hexes[0].Some? {
      ConnectTipKeeps(cfg, c, hexes[0].value);
      var (o, d) := ConnectTip(cfg, c, hexes[0].value);
      if o == Connected {
        TipFalls(cfg, d, hexes[1..]);
      }
    }
  }

  // ---------------------------------------------------------------------------
  // Which requests are made
  // ---------------------------------------------------------------------------

  /** A header for the height above our tip is taken from the notification. */
  lemma NextNeedsNoServer(cfg: Config, c: Chain, note: Notification, a: Server, b: Server)
    requires cfg.headerSize > 0 && note.height == c.tip + 1
    ensures Handle(cfg, c, note, a) == Handle(cfg, c, note, b)
  {
  }

  /** Two to eight missing headers are asked for one by one, from the one above our tip on; nothing else matters. */
  lemma FewComeOneByOne(cfg: Config, c: Chain, note: Notification, a: Server, b: Server)
    requires cfg.headerSize > 0 && c.tip + 1 < note.height <= c.tip + 8
    requires forall h :: c.tip < h <= note.height ==> a.block(h) == b.block(h)
    ensures Handle(cfg, c, note, a) == Handle(cfg, c, note, b)
  {
    hide ConnectAll;
    assert Answers(a, c.tip + 1, note.height) == Answers(b, c.tip + 1, note.height);
  }

  /** More come as one chunk of exactly those missing; nothing else matters. */
  lemma ManyComeAsChunk(cfg: Config, c: Chain, note: Notification, a: Server, b: Server)
    requires cfg.headerSize > 0 && note.height > c.tip + 8
    requires a.blocks(c.tip + 1, note.height - c.tip) == b.blocks(c.tip + 1, note.height - c.tip)
    ensures Handle(cfg, c, note, a) == Handle(cfg, c, note, b)
  {
    hide ConnectAll;
    assert note.height - (c.tip + 1) + 1 == note.height - c.tip;
  }

  /** A chunk is not looked at unless the server allows chunks of 2016 and sends as many headers as it says and as were
      asked for. */
  lemma BadChunkIsRefused(cfg: Config, c: Chain, note: Notification, srv: Server)
    requires cfg.headerSize > 0 && note.height > c.tip + 8 && note.height >= cfg.startPoint
    requires var reply := srv.blocks(c.tip + 1, note.height - c.tip);
             || reply.None? || reply.value.max < 2016 || reply.value.count != note.height - c.tip
             || |reply.value.hex| != 2 * cfg.headerSize * reply.value.count
    ensures Handle(cfg, c, note, srv) == Handled(Progress(0, Refused, c), false, None)
  {
    hide ConnectAll;
    assert note.height - (c.tip + 1) + 1 == note.height - c.tip;
  }
}
