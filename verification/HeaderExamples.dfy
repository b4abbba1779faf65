/** Short runs of the header chain: a sync that ends with the wrong tip, and a tip shown to clients that falls. */
module HeaderExamples {
  import opened ChainSafety
  import opened Chains
  import opened HeaderSync
  import opened Hex
  import opened Options
  import opened Records

  /** Headers of one byte: header n has hash n and follows the header with hash n - 1. */
  function ToyHeader(n: nat): BlockHeader {
    BlockHeader(0, Hash(n), Hash(if n == 0 then 0 else n - 1), Hash(0))
  }

  function Toy(): Config {
    Config(1, 0, (b: seq<Byte>) => if |b| == 1 then Some(ToyHeader(b[0])) else None)
  }

  const NO_HEADERS: Chain := Chain([], map[], map[], 0, false, false, 0)

  /** The server says one header and sends two. */
  const SHORT_COUNT: seq<Answer> := [Got(HeadersReply(1, "0102", 2016))]

  lemma DecodesToTwo()
    ensures Decode("0102") == Some([1, 2])
  {
    DecodeLast("02", 2);
    assert "0102"[2..] == "02";
    DecodeByte("0102", 1, [2]);
    assert [1 as Byte] + [2] == [1, 2];
  }

  lemma DecodeLast(s: string, byte: Byte)
    requires |s| == 2 && Nibble(s[0]) == Some(byte / 16) && Nibble(s[1]) == Some(byte % 16)
    ensures Decode(s) == Some([byte])
  {
    assert s[2..] == [];
    DecodeByte(s, byte, []);
    assert [byte] + [] == [byte];
  }

  lemma CutsToTwo()
    ensures Cut(1, [1 as Byte, 2]) == [[1], [2]]
  {
    var two: seq<Byte> := [1, 2];
    assert two[1..] == [2] && two[..1] == [1];
    assert Cut(1, two[1..]) == [[2]] by {
      assert [2 as Byte][1..] == [] && [2 as Byte][..1] == [2];
    }
  }

  /** The sync reports success, and the tip is one below the last header of the file. */
  lemma SyncEndsWithWrongTip()
    ensures var (end, c) := Sync(Toy(), NO_HEADERS, SHORT_COUNT);
            end == Synced && c.file == [1, 2] && c.tip == 0 && !ChainOk(Toy(), c)
  {
    DecodesToTwo();
    CutsToTwo();
    hide Decode, Cut;
    var g := Gather(Toy(), [], -1, SHORT_COUNT, true);
    assert g == Gathered(Synced, [1, 2], 0);
    StoreAllHolds(Toy(), map[], map[], [[1 as Byte], [2]], 0);
    hide StoreAll, ChainOk;
    assert Sync(Toy(), NO_HEADERS, SHORT_COUNT).0 == Synced;
    assert Came(Toy(), SHORT_COUNT) == 2 && Promised(SHORT_COUNT) == 1;
    SyncedIsGoodIff(Toy(), NO_HEADERS, SHORT_COUNT);
  }

  /** The chain of headers 0 to n, synced. */
  function UpTo(n: nat): Chain
    requires n < 256
  {
    Chain(seq(n + 1, (i: nat) => if i < 256 then i as Byte else 0),
          map h | 0 <= h <= n :: ToyHeader(h),
          map h: nat | h <= n :: Hash(h) := h,
          n, true, false, 0)
  }

  lemma {:induction false} CutOnes(s: seq<Byte>)
    ensures |Cut(1, s)| == |s| && forall i :: 0 <= i < |s| ==> Cut(1, s)[i] == [s[i]]
  {
    if s != [] {
      CutOnes(s[1..]);
    }
  }

  lemma UpToIsOk(n: nat)
    requires n < 256
    ensures ChainOk(Toy(), UpTo(n))
  {
    CutOnes(UpTo(n).file);
    hide Cut;
    assert forall h :: 0 <= h <= n ==> Hash(h) in UpTo(n).blkHdrs;
  }

  /** Two notifications of a header that follows none of ours. */
  const STRAY: seq<Notification> := [Notification(17, "ff"), Notification(9, "ff")]

  lemma StrayHeader()
    ensures Convert(Toy(), "ff") == Some((ToyHeader(255), [255]))
  {
    DecodeLast("ff", 255);
  }

  /** A stray header one above the tip of a long enough chain takes eight headers off. */
  lemma StrayRewinds(c: Chain, srv: Server)
    requires c.synced && 8 <= c.tip < 254 && c.tip in c.hdrs && c.hdrs[c.tip] == ToyHeader(c.tip)
    ensures var d := Handle(Toy(), c, Notification(c.tip + 1, "ff"), srv).progress.chain;
            && d.tip == c.tip - 8 && d.recovery && d.recoveryTip == c.tip && d.synced
            && forall h :: h in c.hdrs && h <= c.tip - 8 ==> h in d.hdrs && d.hdrs[h] == c.hdrs[h]
  {
    StrayHeader();
    hide Convert;
    assert ConnectTip(Toy(), c, "ff") == ReorgRecovery(Toy(), c);
    assert |c.file| % 1 == 0;
  }

  /** The first rewind leaves what clients see alone; the second, before recovery is over, takes eight off it. */
  lemma SecondRewindLowersClientTip(chains: seq<Chain>, servers: seq<Server>)
    requires Follows(Toy(), chains, STRAY, servers) && chains[0] == UpTo(16)
    ensures ChainOk(Toy(), chains[0])
    ensures ClientTip(chains[0]) == 16 && ClientTip(chains[1]) == 16 && ClientTip(chains[2]) == 8
  {
    UpToIsOk(16);
    hide Handle, ChainOk;
    assert FollowsAt(Toy(), chains, STRAY, servers, 0) && FollowsAt(Toy(), chains, STRAY, servers, 1);
    StrayRewinds(chains[0], servers[0]);
    StrayRewinds(chains[1], servers[1]);
  }
}
