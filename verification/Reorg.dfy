/** Recovery from a reorganisation: convergence to an honest server's chain. */
module Reorg {
  import opened Options
  import opened Records
  import opened Chains
  import opened ChainSafety

  /** The server's header at height h, given by its hex. */
  ghost function HdrAt(cfg: Config, hexAt: int -> string, h: int): BlockHeader
    requires Convert(cfg, hexAt(h)).Some?
  {
    Convert(cfg, hexAt(h)).value.0
  }

  /** A chain of well-formed linked headers up to height top. */
  ghost predicate Honest(cfg: Config, hexAt: int -> string, top: int) {
    && (forall h :: cfg.startPoint <= h <= top ==> Convert(cfg, hexAt(h)).Some?)
    && (forall h :: cfg.startPoint < h <= top ==> HdrAt(cfg, hexAt, h).prev == HdrAt(cfg, hexAt, h - 1).hash)
  }

  /** The server's headers in (low, high], as hex. */
  function Span(hexAt: int -> string, low: int, high: int): (s: seq<string>)
    requires low <= high
    ensures |s| == high - low
  {
    seq(high - low, i => hexAt(low + 1 + i))
  }

  /** The same headers as the answers that hold them. */
  function Answered(hexAt: int -> string, low: int, high: int): (s: seq<Option<string>>)
    requires low <= high
    ensures |s| == high - low
  {
    seq(high - low, i => Some(hexAt(low + 1 + i)))
  }

  /** The notification is above our tip, within the chunk limit, and every answer to it is the server's chain. */
  ghost predicate Faithful(cfg: Config, hexAt: int -> string, c: Chain, note: Notification, srv: Server) {
    && c.tip < note.height <= c.tip + ELECTRUM_MAGIC_NUMHDR
    && note.hex == hexAt(note.height)
    && (forall h :: c.tip < h <= note.height ==> srv.block(h) == Some(hexAt(h)))
    && var n := note.height - c.tip;
       var reply := srv.blocks(c.tip + 1, n);
       reply.Some? && reply.value.count == n && reply.value.hex == Join(Span(hexAt, c.tip, note.height))
       && reply.value.max >= ELECTRUM_MAGIC_NUMHDR
  }

  ghost predicate AgreesTo(cfg: Config, hexAt: int -> string, c: Chain, f: int) {
    forall h :: cfg.startPoint <= h <= f ==>
      h in c.hdrs && Convert(cfg, hexAt(h)).Some? && c.hdrs[h] == HdrAt(cfg, hexAt, h)
  }

  /** Above f no hash of ours is the server's. */
  ghost predicate DiffersAbove(cfg: Config, hexAt: int -> string, c: Chain, f: int) {
    forall h :: f < h <= c.tip ==>
      h in c.hdrs && Convert(cfg, hexAt(h)).Some? && c.hdrs[h].hash != HdrAt(cfg, hexAt, h).hash
  }

  /** A block hash stands for one header. */
  ghost predicate HashesBind(cfg: Config, hexAt: int -> string, c: Chain) {
    forall h :: h in c.hdrs && Convert(cfg, hexAt(h)).Some? && c.hdrs[h].hash == HdrAt(cfg, hexAt, h).hash
      ==> c.hdrs[h] == HdrAt(cfg, hexAt, h)
  }

  /** Chains that part at one height stay apart above it. */
  lemma {:induction false} PartedStayApart(cfg: Config, hexAt: int -> string, c: Chain, f: int, top: int, h: int)
    requires cfg.headerSize > 0 && ChainOk(cfg, c) && Honest(cfg, hexAt, top) && HashesBind(cfg, hexAt, c)
    requires cfg.startPoint <= f < h <= c.tip <= top
    requires c.hdrs[f + 1] != HdrAt(cfg, hexAt, f + 1)
    ensures c.hdrs[h].hash != HdrAt(cfg, hexAt, h).hash
    decreases h - f
  {
    if h > f + 1 {
      PartedStayApart(cfg, hexAt, c, f, top, h - 1);
      assert c.hdrs[h].prev == c.hdrs[h - 1].hash;
    }
  }

  lemma SpanSized(cfg: Config, hexAt: int -> string, low: int, high: int)
    requires cfg.startPoint <= low <= high && Honest(cfg, hexAt, high)
    ensures AllSized(2 * cfg.headerSize, Span(hexAt, low, high))
  {
    hide HdrAt;
    forall i | 0 <= i < high - low ensures |Span(hexAt, low, high)[i]| == 2 * cfg.headerSize {
      assert Convert(cfg, hexAt(low + 1 + i)).Some?;
    }
  }

  lemma JoinedSpan(cfg: Config, span: seq<string>)
    requires cfg.headerSize > 0 && AllSized(2 * cfg.headerSize, span)
    ensures |Join(span)| == 2 * cfg.headerSize * |span|
    ensures Pieces(cfg, Join(span)) == seq(|span|, i requires 0 <= i < |span| => Some(span[i]))
  {
    hide Join, AllSized, Cut;
    JoinLength(2 * cfg.headerSize, span);
    CutJoin(2 * cfg.headerSize, span);
  }

  /** A faithful answer brings the server's headers above our tip, whichever way they were asked for. */
  lemma FaithfulIncoming(cfg: Config, hexAt: int -> string, c: Chain, note: Notification, srv: Server)
    requires cfg.headerSize > 0 && cfg.startPoint <= c.tip && Honest(cfg, hexAt, note.height)
             && Faithful(cfg, hexAt, c, note, srv)
    ensures Incoming(cfg, c, note, srv) == Answered(hexAt, c.tip, note.height)
  {
    hide Convert, Honest, Join, AllSized, Cut;
    var span := Span(hexAt, c.tip, note.height);
    SpanSized(cfg, hexAt, c.tip, note.height);
    JoinedSpan(cfg, span);
  }

  /** The first header fails to connect where the chains differ at our tip. */
  lemma RewindsWhereApart(cfg: Config, hexAt: int -> string, c: Chain, note: Notification, srv: Server)
    requires cfg.headerSize > 0 && ChainOk(cfg, c) && Honest(cfg, hexAt, note.height)
             && Faithful(cfg, hexAt, c, note, srv)
    requires c.hdrs[c.tip].hash != HdrAt(cfg, hexAt, c.tip).hash && c.tip >= cfg.startPoint + REWIND
    ensures var p := Handle(cfg, c, note, srv).progress;
            p.last == Rewound && p.connected == 0 && p.chain.tip == c.tip - REWIND
            && ChainOk(cfg, p.chain) && SameUpTo(cfg, c, p.chain, p.chain.tip)
  {
    hide Handle, Incoming, Honest, ConnectTip, ConnectAll, ReorgRecovery, HdrAt;
    HandleIsConnect(cfg, c, note, srv);
    FaithfulIncoming(cfg, hexAt, c, note, srv);
    RewindKeeps(cfg, c);
    FirstDoesNotConnect(cfg, hexAt, c, note.height);
    StopsAtFirst(cfg, c, Incoming(cfg, c, note, srv), hexAt(c.tip + 1));
  }

  lemma StopsAtFirst(cfg: Config, c: Chain, hexes: seq<Option<string>>, hex: string)
    requires cfg.headerSize > 0 && hexes != [] && hexes[0] == Some(hex) && ConnectTip(cfg, c, hex).0 == Rewound
    ensures ConnectAll(cfg, c, hexes) == Progress(0, Rewound, ConnectTip(cfg, c, hex).1)
  {
    hide ConnectTip;
  }

  lemma FirstDoesNotConnect(cfg: Config, hexAt: int -> string, c: Chain, top: int)
    requires cfg.headerSize > 0 && ChainOk(cfg, c) && Honest(cfg, hexAt, top) && c.tip < top
    requires c.hdrs[c.tip].hash != HdrAt(cfg, hexAt, c.tip).hash
    ensures ConnectTip(cfg, c, hexAt(c.tip + 1)) == ReorgRecovery(cfg, c)
  {
    hide ReorgRecovery, Convert;
    assert HdrAt(cfg, hexAt, c.tip + 1).prev == HdrAt(cfg, hexAt, c.tip).hash;
  }

  lemma NextConnects(cfg: Config, hexAt: int -> string, c: Chain, top: int)
    requires cfg.headerSize > 0 && ChainOk(cfg, c) && Honest(cfg, hexAt, top) && c.tip < top
    requires AgreesTo(cfg, hexAt, c, c.tip)
    ensures var (o, d) := ConnectTip(cfg, c, hexAt(c.tip + 1));
            o == Connected && ChainOk(cfg, d) && d.tip == c.tip + 1 && AgreesTo(cfg, hexAt, d, d.tip)
  {
    assert HdrAt(cfg, hexAt, c.tip + 1).prev == HdrAt(cfg, hexAt, c.tip).hash;
    assert c.hdrs[c.tip] == HdrAt(cfg, hexAt, c.tip);
    assert ConnectTip(cfg, c, hexAt(c.tip + 1)).0 == Connected by { hide Convert; }
    ConnectKeeps(cfg, c, hexAt(c.tip + 1));
  }

  /** Where the chains agree at our tip every header of the server's connects. */
  lemma {:induction false} ConnectsWhereAgreed(cfg: Config, hexAt: int -> string, c: Chain, top: int)
    requires cfg.headerSize > 0 && ChainOk(cfg, c) && Honest(cfg, hexAt, top) && c.tip <= top
    requires AgreesTo(cfg, hexAt, c, c.tip)
    ensures var p := ConnectAll(cfg, c, Answered(hexAt, c.tip, top));
            p.last == Connected && ChainOk(cfg, p.chain) && p.chain.tip == top && AgreesTo(cfg, hexAt, p.chain, top)
    decreases top - c.tip
  {
    hide ChainOk, AgreesTo, ConnectTip, Honest, Convert, ConnectAll;
    if c.tip < top {
      var d := ConnectTip(cfg, c, hexAt(c.tip + 1)).1;
      NextConnects(cfg, hexAt, c, top);
      assert Answered(hexAt, c.tip, top)[1..] == Answered(hexAt, d.tip, top);
      GoesOn(cfg, c, Answered(hexAt, c.tip, top), hexAt(c.tip + 1));
      ConnectsWhereAgreed(cfg, hexAt, d, top);
    } else {
      NothingToConnect(cfg, c);
    }
  }

  lemma GoesOn(cfg: Config, c: Chain, hexes: seq<Option<string>>, hex: string)
    requires cfg.headerSize > 0 && hexes != [] && hexes[0] == Some(hex) && ConnectTip(cfg, c, hex).0 == Connected
    ensures var p, rest := ConnectAll(cfg, c, hexes), ConnectAll(cfg, ConnectTip(cfg, c, hex).1, hexes[1..]);
            p.last == rest.last && p.chain == rest.chain
  {
    hide ConnectTip;
  }

  lemma NothingToConnect(cfg: Config, c: Chain)
    requires cfg.headerSize > 0
    ensures ConnectAll(cfg, c, []) == Progress(0, Connected, c)
  {
  }

  /** How often eight must be taken off t to come down to f. */
  function Rewinds(t: int, f: int): nat
    requires f < t
  {
    (t - f + REWIND - 1) / REWIND
  }

  /** The notifications reach us above our tip, within the chunk limit, and are answered faithfully. */
  ghost predicate FaithfulRun(cfg: Config, hexAt: int -> string, chains: seq<Chain>, notes: seq<Notification>,
                              servers: seq<Server>)
    requires cfg.headerSize > 0
  {
    && Follows(cfg, chains, notes, servers)
    && forall i :: 0 <= i < |notes| ==> FaithfulAt(cfg, hexAt, chains, notes, servers, i)
  }

  ghost predicate FaithfulAt(cfg: Config, hexAt: int -> string, chains: seq<Chain>, notes: seq<Notification>,
                             servers: seq<Server>, i: nat)
    requires i < |notes| && |chains| == |notes| + 1 && |servers| == |notes|
  {
    Honest(cfg, hexAt, notes[i].height) && Faithful(cfg, hexAt, chains[i], notes[i], servers[i])
  }

  /** How notification i left the chain. */
  ghost function OutcomeAt(cfg: Config, chains: seq<Chain>, notes: seq<Notification>, servers: seq<Server>,
                           i: nat): Outcome
    requires cfg.headerSize > 0 && i < |notes| && |chains| == |notes| + 1 && |servers| == |notes|
  {
    Handle(cfg, chains[i], notes[i], servers[i]).progress.last
  }

  ghost predicate NoPanic(cfg: Config, chains: seq<Chain>, notes: seq<Notification>, servers: seq<Server>)
    requires cfg.headerSize > 0 && Follows(cfg, chains, notes, servers)
  {
    forall i :: 0 <= i < |notes| ==> OutcomeAt(cfg, chains, notes, servers, i) != Panicked
  }

  /** Step i of a faithful run, taken by itself. */
  lemma AtStep(cfg: Config, hexAt: int -> string, chains: seq<Chain>, notes: seq<Notification>, servers: seq<Server>,
               i: nat)
    requires cfg.headerSize > 0 && FaithfulRun(cfg, hexAt, chains, notes, servers) && i < |notes|
    ensures |chains| == |notes| + 1 && |servers| == |notes|
    ensures chains[i + 1] == Handle(cfg, chains[i], notes[i], servers[i]).progress.chain
    ensures OutcomeAt(cfg, chains, notes, servers, i) == Handle(cfg, chains[i], notes[i], servers[i]).progress.last
    ensures Honest(cfg, hexAt, notes[i].height) && Faithful(cfg, hexAt, chains[i], notes[i], servers[i])
  {
    hide Honest, Faithful, Handle;
    assert FollowsAt(cfg, chains, notes, servers, i) && FaithfulAt(cfg, hexAt, chains, notes, servers, i);
  }

  /** While the tip is above the fork each notification takes eight headers off. */
  lemma {:induction false} Descent(cfg: Config, hexAt: int -> string, chains: seq<Chain>, notes: seq<Notification>,
                                   servers: seq<Server>, f: int, n: nat)
    requires cfg.headerSize > 0 && FaithfulRun(cfg, hexAt, chains, notes, servers)
    requires ChainOk(cfg, chains[0]) && AgreesTo(cfg, hexAt, chains[0], f) && DiffersAbove(cfg, hexAt, chains[0], f)
    requires cfg.startPoint + REWIND - 1 <= f < chains[0].tip
    requires n <= |notes| && n <= Rewinds(chains[0].tip, f)
    ensures ChainOk(cfg, chains[n]) && chains[n].tip == chains[0].tip - n * REWIND
    ensures AgreesTo(cfg, hexAt, chains[n], Min(f, chains[n].tip)) && DiffersAbove(cfg, hexAt, chains[n], f)
    ensures forall i :: 0 <= i < n ==> OutcomeAt(cfg, chains, notes, servers, i) == Rewound
    decreases n
  {
    hide ChainOk, AgreesTo, DiffersAbove, Honest, Faithful, Handle, FaithfulRun, OutcomeAt;
    if n > 0 {
      Descent(cfg, hexAt, chains, notes, servers, f, n - 1);
      AtStep(cfg, hexAt, chains, notes, servers, n - 1);
      DescentStep(cfg, hexAt, chains[n - 1], notes[n - 1], servers[n - 1], f);
      assert Min(Min(f, chains[n - 1].tip), chains[n].tip) == Min(f, chains[n].tip);
    }
  }

  lemma DescentStep(cfg: Config, hexAt: int -> string, c: Chain, note: Notification, srv: Server, f: int)
    requires cfg.headerSize > 0 && ChainOk(cfg, c) && Honest(cfg, hexAt, note.height)
             && Faithful(cfg, hexAt, c, note, srv)
    requires AgreesTo(cfg, hexAt, c, Min(f, c.tip)) && DiffersAbove(cfg, hexAt, c, f)
    requires cfg.startPoint + REWIND - 1 <= f < c.tip
    ensures var p := Handle(cfg, c, note, srv).progress;
            p.last == Rewound && ChainOk(cfg, p.chain) && p.chain.tip == c.tip - REWIND
            && AgreesTo(cfg, hexAt, p.chain, Min(Min(f, c.tip), p.chain.tip)) && DiffersAbove(cfg, hexAt, p.chain, f)
  {
    RewindsWhereApart(cfg, hexAt, c, note, srv);
    hide Handle, Faithful, ChainOk;
  }

  /** Once the chains agree every notification brings ours up to the server's. */
  lemma {:induction false} AgreedStays(cfg: Config, hexAt: int -> string, chains: seq<Chain>, notes: seq<Notification>,
                                       servers: seq<Server>, m: nat, n: nat)
    requires cfg.headerSize > 0 && FaithfulRun(cfg, hexAt, chains, notes, servers)
    requires m < n <= |notes| && ChainOk(cfg, chains[m]) && AgreesTo(cfg, hexAt, chains[m], chains[m].tip)
    ensures ChainOk(cfg, chains[n]) && chains[n].tip == notes[n - 1].height
            && AgreesTo(cfg, hexAt, chains[n], chains[n].tip)
    ensures forall i :: m <= i < n ==> OutcomeAt(cfg, chains, notes, servers, i) == Connected
    decreases n
  {
    hide ChainOk, AgreesTo, Honest, Faithful, Handle, FaithfulRun, OutcomeAt;
    if m < n - 1 {
      AgreedStays(cfg, hexAt, chains, notes, servers, m, n - 1);
    }
    AtStep(cfg, hexAt, chains, notes, servers, n - 1);
    AgreedStep(cfg, hexAt, chains[n - 1], notes[n - 1], servers[n - 1]);
  }

  lemma AgreedStep(cfg: Config, hexAt: int -> string, c: Chain, note: Notification, srv: Server)
    requires cfg.headerSize > 0 && ChainOk(cfg, c) && Honest(cfg, hexAt, note.height)
             && Faithful(cfg, hexAt, c, note, srv)
    requires AgreesTo(cfg, hexAt, c, c.tip)
    ensures var p := Handle(cfg, c, note, srv).progress;
            p.last == Connected && ChainOk(cfg, p.chain) && p.chain.tip == note.height
              && AgreesTo(cfg, hexAt, p.chain, p.chain.tip)
  {
    var start := c.tip;
    assert cfg.startPoint <= start < note.height;
    hide Handle, Faithful, Honest, ConnectAll, Incoming, AgreesTo, ChainOk, Convert, Answered;
    HandleIsConnect(cfg, c, note, srv);
    FaithfulIncoming(cfg, hexAt, c, note, srv);
    ConnectsWhereAgreed(cfg, hexAt, c, note.height);
  }

  /** Our chain and a growing honest chain part above height f, at least seven above the start
      point. One notification for every eight headers above f, and one more, make our chain the
      server's up to the height last notified; further ones keep it so, and nothing panics. */
  lemma Converges(cfg: Config, hexAt: int -> string, chains: seq<Chain>, notes: seq<Notification>,
                  servers: seq<Server>, f: int)
    requires cfg.headerSize > 0 && FaithfulRun(cfg, hexAt, chains, notes, servers)
    requires ChainOk(cfg, chains[0]) && cfg.startPoint + REWIND - 1 <= f < chains[0].tip
    requires AgreesTo(cfg, hexAt, chains[0], f) && HashesBind(cfg, hexAt, chains[0])
    requires |notes| > Rewinds(chains[0].tip, f)
    requires Convert(cfg, hexAt(f + 1)).Some? && chains[0].hdrs[f + 1] != HdrAt(cfg, hexAt, f + 1)
    ensures var c := chains[|notes|];
            && c.tip == notes[|notes| - 1].height && ChainOk(cfg, c) && AgreesTo(cfg, hexAt, c, c.tip)
    ensures NoPanic(cfg, chains, notes, servers)
  {
    var c, n := chains[0], Rewinds(chains[0].tip, f);
    assert FaithfulAt(cfg, hexAt, chains, notes, servers, 0);
    assert DiffersAbove(cfg, hexAt, c, f) by {
      forall h | f < h <= c.tip ensures c.hdrs[h].hash != HdrAt(cfg, hexAt, h).hash {
        PartedStayApart(cfg, hexAt, c, f, notes[0].height, h);
      }
    }
    hide DiffersAbove, AgreesTo, ChainOk, Honest, Faithful, HashesBind, Handle;
    Descent(cfg, hexAt, chains, notes, servers, f, n);
    assert chains[n].tip <= f;
    AgreedStays(cfg, hexAt, chains, notes, servers, n, |notes|);
  }
}
