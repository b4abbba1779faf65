/** The header chain as values: what each operation on the headers computes. */
module Chains {
  import opened Options
  import opened Hex
  import opened Records

  const REWIND: nat := 8
  const ELECTRUM_MAGIC_NUMHDR: nat := 2016

  datatype Hash = Hash(number: nat)

  datatype BlockHeader = BlockHeader(version: int, hash: Hash, prev: Hash, merkle: Hash)

  /** What does not change during a run: the coin's header size and deserializer, and the checkpoint height. */
  datatype Config = Config(headerSize: nat, startPoint: int, deserialize: seq<Byte> -> Option<BlockHeader>)

  datatype Chain = Chain(
    file: seq<Byte>,
    hdrs: map<int, BlockHeader>,
    blkHdrs: map<Hash, int>,
    tip: int,
    synced: bool,
    recovery: bool,
    recoveryTip: int)

  /** How one header fared. Panicked stands for the program stopping. */
  datatype Outcome = Connected | Refused | Rewound | Panicked

  function Convert(cfg: Config, hex: string): Option<(BlockHeader, seq<Byte>)> {
    var raw := Decode(hex);
    if raw.None? || |raw.value| != cfg.headerSize then None
    else
      var hdr := cfg.deserialize(raw.value);
      if hdr.None? then None else Some((hdr.value, raw.value))
  }

  function StoreOne(c: Chain, hdr: BlockHeader): Chain {
    c.(hdrs := c.hdrs[c.tip + 1 := hdr], blkHdrs := c.blkHdrs[hdr.hash := c.tip + 1], tip := c.tip + 1)
  }

  function RemoveFromTip(c: Chain, n: nat): Chain {
    c.(hdrs := map h | h in c.hdrs && !(c.tip - n < h <= c.tip) :: c.hdrs[h], tip := c.tip - n)
  }

  /** None where truncating fails. */
  function Truncate(cfg: Config, c: Chain, numHeaders: nat): Option<Chain>
    requires cfg.headerSize > 0
  {
    if !c.synced || numHeaders == 0 || |c.file| % cfg.headerSize != 0 then None
    else
      var newLen := |c.file| - numHeaders * cfg.headerSize;
      Some(c.(file := if newLen < 0 then [] else c.file[..newLen]))
  }

  function ReorgRecovery(cfg: Config, c: Chain): (Outcome, Chain)
    requires cfg.headerSize > 0
  {
    if c.tip < cfg.startPoint + REWIND then (Panicked, c)
    else
      var t := Truncate(cfg, c, REWIND);
      if t.None? then (Panicked, c)
      else (Rewound, RemoveFromTip(t.value, REWIND).(recoveryTip := c.tip, recovery := true))
  }

  function ConnectTip(cfg: Config, c: Chain, hex: string): (Outcome, Chain)
    requires cfg.headerSize > 0
  {
    var conv := Convert(cfg, hex);
    if conv.None? then (Refused, c)
    else if c.tip !in c.hdrs then (Panicked, c)
    else if c.hdrs[c.tip].hash != conv.value.0.prev then ReorgRecovery(cfg, c)
    else (Connected, StoreOne(c.(file := c.file + conv.value.1), conv.value.0).(recovery := false))
  }

  /** Headers connected one after the other until one fails; None is a failed request. */
  datatype Progress = Progress(connected: nat, last: Outcome, chain: Chain)

  function ConnectAll(cfg: Config, c: Chain, hexes: seq<Option<string>>): Progress
    requires cfg.headerSize > 0
    decreases |hexes|
  {
    if hexes == [] then Progress(0, Connected, c)
    else if hexes[0].None? then Progress(0, Refused, c)
    else
      var (o, d) := ConnectTip(cfg, c, hexes[0].value);
      if o != Connected then Progress(0, o, d)
      else
        var rest := ConnectAll(cfg, d, hexes[1..]);
        rest.(connected := rest.connected + 1)
  }

  /** The answer to a request for several headers. */
  datatype HeadersReply = HeadersReply(count: int, hex: string, max: int)

  /** What a server answers while one notification is handled. */
  datatype Server = Server(block: int -> Option<string>, blocks: (int, int) -> Option<HeadersReply>)

  datatype Notification = Notification(height: int, hex: string)

  function Answers(srv: Server, from: int, to: int): (a: seq<Option<string>>)
    ensures |a| == if from <= to then to - from + 1 else 0
  {
    seq(if from <= to then to - from + 1 else 0, i => srv.block(from + i))
  }

  function UpdateFromBlocks(cfg: Config, c: Chain, srv: Server, from: int, to: int): Progress
    requires cfg.headerSize > 0
  {
    ConnectAll(cfg, c, Answers(srv, from, to))
  }

  function Pieces(cfg: Config, hex: string): seq<Option<string>>
    requires cfg.headerSize > 0
  {
    var parts := Cut(2 * cfg.headerSize, hex);
    seq(|parts|, i requires 0 <= i < |parts| => Some(parts[i]))
  }

  /** Whether the reply to a request for count headers is worth looking at. */
  predicate Acceptable(cfg: Config, reply: Option<HeadersReply>, count: int) {
    && reply.Some? && reply.value.max >= ELECTRUM_MAGIC_NUMHDR
    && |reply.value.hex| == 2 * cfg.headerSize * reply.value.count
    && reply.value.count == count
  }

  function UpdateFromChunk(cfg: Config, c: Chain, srv: Server, from: int, to: int): Progress
    requires cfg.headerSize > 0
  {
    var reply := srv.blocks(from, to - from + 1);
    if !Acceptable(cfg, reply, to - from + 1) then Progress(0, Refused, c)
    else ConnectAll(cfg, c, Pieces(cfg, reply.value.hex))
  }

  function SyncOntoTip(cfg: Config, c: Chain, srv: Server, height: int): Progress
    requires cfg.headerSize > 0
  {
    if height - c.tip > REWIND then UpdateFromChunk(cfg, c, srv, c.tip + 1, height)
    else UpdateFromBlocks(cfg, c, srv, c.tip + 1, height)
  }

  /** One notification handled: the node is cancelled, or the chain moved; tell holds the tip sent to the client. */
  datatype Handled = Handled(progress: Progress, cancelled: bool, tell: Option<int>)

  function Handle(cfg: Config, c: Chain, note: Notification, srv: Server): Handled
    requires cfg.headerSize > 0
  {
    if note.height < cfg.startPoint then Handled(Progress(0, Refused, c), true, None)
    else if note.height <= c.tip then Handled(Progress(0, Refused, c), false, None)
    else
      var p :=
        if note.height == c.tip + 1 then ConnectAll(cfg, c, [Some(note.hex)])
        else SyncOntoTip(cfg, c, srv, note.height);
      Handled(p, false, if p.connected > 0 && p.last != Panicked then Some(p.chain.tip) else None)
  }

  function ClientTip(c: Chain): int {
    if c.recovery then c.recoveryTip else c.tip
  }
}
