/** Fetching many headers at once does what fetching them one by one does. */
module ChunkRefinesBlocks {
  import opened Options
  import opened Records
  import opened Chains

  /** The reply holds the per-height answers one after the other, each of the exact hex length. */
  ghost predicate Concatenates(cfg: Config, srv: Server, from: int, to: int, answers: seq<string>) {
    && |answers| == to - from + 1
    && AllSized(2 * cfg.headerSize, answers)
    && (forall i :: 0 <= i < |answers| ==> srv.block(from + i) == Some(answers[i]))
    && var reply := srv.blocks(from, to - from + 1);
       reply.Some? && reply.value.hex == Join(answers) && reply.value.count == |answers|
       && reply.value.max >= ELECTRUM_MAGIC_NUMHDR
  }

  /** Both paths connect the same number of headers, end the same way and leave the same file,
      maps, tip and recovery state, on good hex, bad hex and a reorg in mid-range alike. */
  lemma ChunkIsBlocks(cfg: Config, c: Chain, srv: Server, from: int, to: int, answers: seq<string>)
    requires cfg.headerSize > 0 && from <= to && Concatenates(cfg, srv, from, to, answers)
    ensures UpdateFromChunk(cfg, c, srv, from, to) == UpdateFromBlocks(cfg, c, srv, from, to)
  {
    var size := 2 * cfg.headerSize;
    var reply := srv.blocks(from, to - from + 1).value;
    JoinLength(size, answers);
    CutJoin(size, answers);
    assert size * reply.count == |answers| * size;
    assert Pieces(cfg, reply.hex) == Answers(srv, from, to);
  }
}
