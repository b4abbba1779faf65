/** The headers a node keeps: the file, the maps over it and the tip, updated in place. */
module HeaderStore {
  import opened Options
  import opened Hex
  import opened Records
  import opened ChainSafety
  import opened Chains
  import opened HeaderSync

  lemma WholeLess(len: nat, size: nat, n: nat)
    requires size > 0 && len % size == 0 && len >= n * size
    ensures (len - n * size) % size == 0
  {
    var whole := len / size;
    assert len - n * size == (whole - n) * size;
    DivUnique(len - n * size, whole - n, size, 0);
  }

  class Headers {
    const cfg: Config
    var file: seq<Byte>
    var hdrs: map<int, BlockHeader>
    var blkHdrs: map<Hash, int>
    var tip: int
    var synced: bool
    var recovery: bool
    var recoveryTip: int

    function State(): Chain
      reads this
    {
      Chain(file, hdrs, blkHdrs, tip, synced, recovery, recoveryTip)
    }

    constructor (cfg: Config, file: seq<Byte>)
      ensures this.cfg == cfg && this.file == file && Fresh(State()) && tip == 0 && !synced
    {
      this.cfg, this.file, hdrs, blkHdrs, tip := cfg, file, map[], map[], 0;
      synced, recovery, recoveryTip := false, false, 0;
    }

    /** None where the bytes are not whole headers. */
    method BytesToNumHdrs(numBytes: nat) returns (n: Option<nat>)
      requires cfg.headerSize > 0
      ensures n.Some? <==> numBytes % cfg.headerSize == 0
      ensures n.Some? ==> n.value * cfg.headerSize == numBytes
    {
      if numBytes == 0 {
        return Some(0);
      }
      if numBytes % cfg.headerSize != 0 {
        return None;
      }
      n := Some(numBytes / cfg.headerSize);
    }

    method AppendHeadersFile(raw: seq<Byte>) returns (n: Option<nat>)
      requires cfg.headerSize > 0
      modifies `file
      ensures n.Some? <==> |raw| % cfg.headerSize == 0
      ensures n.Some? ==> n.value * cfg.headerSize == |raw|
      ensures State() == old(State()).(file := if n.Some? then old(file) + raw else old(file))
    {
      n := BytesToNumHdrs(|raw|);
      if n.Some? {
        file := file + raw;
      }
    }

    /** Returns how many headers the file has left. */
    method TruncateHeadersFile(numHeaders: nat) returns (left: Option<nat>)
      requires cfg.headerSize > 0
      modifies `file
      ensures var t := Truncate(cfg, old(State()), numHeaders);
              left.Some? == t.Some? && State() == if t.Some? then t.value else old(State())
      ensures left.None? <==> !old(synced) || numHeaders == 0 || |old(file)| % cfg.headerSize != 0
      ensures left.Some? ==> left.value * cfg.headerSize == |file| && file <= old(file)
      ensures left.Some? ==> |file| == if |old(file)| < numHeaders * cfg.headerSize then 0
                                       else |old(file)| - numHeaders * cfg.headerSize
    {
      if !synced || numHeaders == 0 || |file| % cfg.headerSize != 0 {
        return None;
      }
      var newByteLen := |file| - numHeaders * cfg.headerSize;
      if newByteLen < 0 {
        newByteLen := 0;
      } else {
        WholeLess(|file|, cfg.headerSize, numHeaders);
      }
      file := file[..newByteLen];
      left := BytesToNumHdrs(|file|);
    }

    /** Decodes headers from the bytes and stores them from startHeight on, up to the first that fails. */
    method Store(b: seq<Byte>, startHeight: int) returns (ok: bool)
      requires cfg.headerSize > 0
      modifies `hdrs, `blkHdrs
      ensures |b| % cfg.headerSize != 0 ==> !ok && State() == old(State())
      ensures |b| % cfg.headerSize == 0 ==>
                var s := StoreAll(cfg, old(hdrs), old(blkHdrs), Cut(cfg.headerSize, b), startHeight);
                ok == s.ok && State() == old(State()).(hdrs := s.hdrs, blkHdrs := s.blkHdrs)
    {
      var numHdrs := BytesToNumHdrs(|b|);
      if numHdrs.None? {
        return false;
      }
      ghost var recs := Cut(cfg.headerSize, b);
      CutWhole(cfg.headerSize, b);
      MultipleOf(numHdrs.value, cfg.headerSize);
      var rdr, i := b, 0;
      while i < numHdrs.value
        invariant 0 <= i <= numHdrs.value == |recs|
        invariant Cut(cfg.headerSize, rdr) == recs[i..]
        invariant StoreAll(cfg, old(hdrs), old(blkHdrs), recs, startHeight)
                  == StoreAll(cfg, hdrs, blkHdrs, recs[i..], startHeight + i)
      {
        var blkHdr := cfg.deserialize(rdr[..cfg.headerSize]);
        if blkHdr.None? {
          return false;
        }
        rdr := rdr[cfg.headerSize..];
        var at := startHeight + i;
        hdrs := hdrs[at := blkHdr.value];
        blkHdrs := blkHdrs[blkHdr.value.hash := at];
        assert recs[i..][1..] == recs[i + 1..];
        i := i + 1;
      }
      ok := true;
    }

    method RemoveOneHdrFromTip()
      modifies `hdrs, `tip
      ensures State() == RemoveFromTip(old(State()), 1)
    {
      hdrs := hdrs - {tip};
      tip := tip - 1;
    }

    method StoreOneHdr(blkHdr: BlockHeader)
      modifies `hdrs, `blkHdrs, `tip
      ensures State() == StoreOne(old(State()), blkHdr)
    {
      var at := tip + 1;
      hdrs := hdrs[at := blkHdr];
      blkHdrs := blkHdrs[blkHdr.hash := at];
      tip := tip + 1;
    }

    method GetClientTip() returns (t: int)
      ensures t == ClientTip(State())
      ensures RecoveryOk(State()) && recovery ==> t == tip + REWIND
    {
      if recovery {
        return recoveryTip;
      }
      t := tip;
    }

    /** None where the tip has no header, which stops the program. */
    method CheckCanConnect(incoming: BlockHeader) returns (can: Option<bool>)
      ensures can.Some? <==> tip in hdrs
      ensures can.Some? ==> can.value == (hdrs[tip].hash == incoming.prev)
      ensures can == Some(true) ==> LinkedAt(hdrs[tip + 1 := incoming], tip + 1)
    {
      if tip !in hdrs {
        return None;
      }
      can := Some(hdrs[tip].hash == incoming.prev);
    }

    method VerifyFromTip(depth: int, all: bool) returns (v: Verdict)
      ensures v == VerifyDown(hdrs, tip, DownTo(cfg, tip, depth, all))
      ensures v == Verified <==>
              forall h :: (if all || tip < depth then cfg.startPoint else tip - depth) < h <= tip ==> LinkedAt(hdrs, h)
    {
      var downTo := tip - depth;
      if downTo < 0 || all {
        downTo := cfg.startPoint;
      }
      VerifiedIff(hdrs, tip, downTo);
      var height := tip;
      while height > downTo
        invariant VerifyDown(hdrs, height, downTo) == VerifyDown(hdrs, tip, downTo)
      {
        if height !in hdrs || height - 1 !in hdrs {
          return Crashed;
        }
        if hdrs[height - 1].hash != hdrs[height].prev {
          return Broken(height);
        }
        height := height - 1;
      }
      v := Verified;
    }

    /** Headers for a client: the range must end below the tip, so the tip's own header is never among them. */
    method GetBlockHeaders(startHeight: int, count: int) returns (r: Option<seq<BlockHeader>>)
      requires forall h :: cfg.startPoint <= h < tip ==> h in hdrs
      ensures r.Some? <==> cfg.startPoint <= startHeight <= tip && startHeight + count <= tip
      ensures r.Some? ==> |r.value| == (if count > 0 then count else 0)
      ensures r.Some? ==> forall i :: 0 <= i < |r.value| ==>
              startHeight + i < tip && r.value[i] == hdrs[startHeight + i]
    {
      if cfg.startPoint > startHeight || startHeight > tip {
        return None;
      }
      var blkEndRange := startHeight + count;
      if blkEndRange > tip {
        return None;
      }
      var out: seq<BlockHeader> := [];
      var i := startHeight;
      while i < blkEndRange
        invariant startHeight <= i && (i <= blkEndRange || out == [])
        invariant |out| == i - startHeight
        invariant forall k :: 0 <= k < |out| ==> startHeight + k < tip && out[k] == hdrs[startHeight + k]
      {
        out := out + [hdrs[i]];
        i := i + 1;
      }
      r := Some(out);
    }
  }
}
