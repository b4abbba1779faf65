/** Reading the headers file into the maps, and the first synchronisation with a server. */
module HeaderSync {
  import opened Options
  import opened Hex
  import opened Records
  import opened Chains
  import opened ChainSafety

  datatype Stored = Stored(ok: bool, hdrs: map<int, BlockHeader>, blkHdrs: map<Hash, int>)

  /** Records read into the maps from height at on, up to the first that does not decode. */
  function StoreAll(cfg: Config, hdrs: map<int, BlockHeader>, blkHdrs: map<Hash, int>, recs: seq<seq<Byte>>,
                    at: int): Stored
    decreases |recs|
  {
    if recs == [] then Stored(true, hdrs, blkHdrs)
    else
      var hdr := cfg.deserialize(recs[0]);
      if hdr.None? then Stored(false, hdrs, blkHdrs)
      else StoreAll(cfg, hdrs[at := hdr.value], blkHdrs[hdr.value.hash := at], recs[1..], at + 1)
  }

  /** Reading succeeds exactly when every record decodes; then record i stands at height at + i,
      other heights are as they were, and no hash is forgotten. */
  lemma {:induction false} StoreAllHolds(cfg: Config, hdrs: map<int, BlockHeader>, blkHdrs: map<Hash, int>,
                                         recs: seq<seq<Byte>>, at: int)
    ensures var s := StoreAll(cfg, hdrs, blkHdrs, recs, at);
            && (s.ok <==> forall i :: 0 <= i < |recs| ==> cfg.deserialize(recs[i]).Some?)
            && (s.ok ==> forall h :: h in s.hdrs <==> h in hdrs || at <= h < at + |recs|)
            && (s.ok ==> forall h :: at <= h < at + |recs| ==>
               cfg.deserialize(recs[h - at]) == Some(s.hdrs[h]) && s.hdrs[h].hash in s.blkHdrs)
            && (s.ok ==> forall h :: h in hdrs && !(at <= h < at + |recs|) ==> s.hdrs[h] == hdrs[h])
            && (s.ok ==> forall x :: x in blkHdrs ==> x in s.blkHdrs)
    decreases |recs|
  {
    if recs != [] && cfg.deserialize(recs[0]).Some? {
      var hdr, rest := cfg.deserialize(recs[0]).value, recs[1..];
      StoreAllHolds(cfg, hdrs[at := hdr], blkHdrs[hdr.hash := at], rest, at + 1);
      assert forall i :: 0 < i < |recs| ==> recs[i] == rest[i - 1];
    }
  }

  /** The hash of a record that decodes. */
  ghost predicate HasHash(cfg: Config, rec: seq<Byte>, x: Hash) {
    cfg.deserialize(rec).Some? && cfg.deserialize(rec).value.hash == x
  }

  ghost predicate NoneHas(cfg: Config, recs: seq<seq<Byte>>, n: nat, x: Hash)
    requires n <= |recs|
  {
    forall i :: 0 <= i < n ==> !HasHash(cfg, recs[i], x)
  }

  /** The reverse map gives the hash the height of a record that has it, no earlier than record i. */
  ghost predicate LastRead(cfg: Config, recs: seq<seq<Byte>>, n: nat, blkHdrs: map<Hash, int>, at: int, i: nat, x: Hash)
    requires n <= |recs|
  {
    x in blkHdrs && at + i <= blkHdrs[x] < at + n && HasHash(cfg, recs[blkHdrs[x] - at], x)
  }

  /** How many records decode before the first that does not. */
  function Readable(cfg: Config, recs: seq<seq<Byte>>): (n: nat)
    ensures n <= |recs| && (forall i :: 0 <= i < n ==> cfg.deserialize(recs[i]).Some?)
    ensures n < |recs| ==> cfg.deserialize(recs[n]).None?
  {
    if recs == [] || cfg.deserialize(recs[0]).None? then 0 else 1 + Readable(cfg, recs[1..])
  }

  /** Whether all are read or not, the readable ones are stored and nothing else changes. */
  lemma {:induction false} StoredUpTo(cfg: Config, hdrs: map<int, BlockHeader>, blkHdrs: map<Hash, int>,
                                      recs: seq<seq<Byte>>, at: int)
    ensures var s, n := StoreAll(cfg, hdrs, blkHdrs, recs, at), Readable(cfg, recs);
            && (s.ok <==> n == |recs|)
            && (forall h :: h in s.hdrs <==> h in hdrs || at <= h < at + n)
            && forall h :: h in s.hdrs ==>
                 if at <= h < at + n then cfg.deserialize(recs[h - at]) == Some(s.hdrs[h]) else s.hdrs[h] == hdrs[h]
    decreases |recs|
  {
    if recs != [] && cfg.deserialize(recs[0]).Some? {
      var hdr, rest := cfg.deserialize(recs[0]).value, recs[1..];
      StoredUpTo(cfg, hdrs[at := hdr], blkHdrs[hdr.hash := at], rest, at + 1);
      assert forall i :: 0 < i < |recs| ==> recs[i] == rest[i - 1];
    }
  }

  /** The reverse map gives the hash of a readable record the last height at which one with that hash was read, and
      keeps what it had for other hashes. */
  lemma {:induction false} ReverseUpTo(cfg: Config, hdrs: map<int, BlockHeader>, blkHdrs: map<Hash, int>,
                                       recs: seq<seq<Byte>>, at: int)
    ensures var s, n := StoreAll(cfg, hdrs, blkHdrs, recs, at), Readable(cfg, recs);
            && (forall x :: NoneHas(cfg, recs, n, x) ==>
                 (x in s.blkHdrs <==> x in blkHdrs) && (x in blkHdrs ==> s.blkHdrs[x] == blkHdrs[x]))
            && forall i, x :: 0 <= i < n && HasHash(cfg, recs[i], x) ==> LastRead(cfg, recs, n, s.blkHdrs, at, i, x)
    decreases |recs|
  {
    if recs != [] && cfg.deserialize(recs[0]).Some? {
      var hdr, rest, n := cfg.deserialize(recs[0]).value, recs[1..], Readable(cfg, recs);
      var s, m := StoreAll(cfg, hdrs, blkHdrs, recs, at), n - 1;
      ReverseUpTo(cfg, hdrs[at := hdr], blkHdrs[hdr.hash := at], rest, at + 1);
      assert forall i :: 0 < i < |recs| ==> recs[i] == rest[i - 1];
      assert HasHash(cfg, recs[0], hdr.hash);
      assert m == Readable(cfg, rest) && s == StoreAll(cfg, hdrs[at := hdr], blkHdrs[hdr.hash := at], rest, at + 1);
      hide StoreAll, Readable, HasHash, LastRead;
      forall x | NoneHas(cfg, recs, n, x) ensures NoneHas(cfg, rest, m, x) && x != hdr.hash {
        assert !HasHash(cfg, recs[0], x);
        forall i | 0 <= i < m ensures !HasHash(cfg, rest[i], x) { assert !HasHash(cfg, recs[i + 1], x); }
      }
      forall i, x | 0 <= i < n && HasHash(cfg, recs[i], x) ensures LastRead(cfg, recs, n, s.blkHdrs, at, i, x) {
        LastReadOn(cfg, recs, m, s.blkHdrs, at, i, x);
      }
    }
  }

  lemma LastReadOn(cfg: Config, recs: seq<seq<Byte>>, m: nat, blkHdrs: map<Hash, int>, at: int, i: nat, x: Hash)
    requires i <= m < |recs| && HasHash(cfg, recs[i], x)
    requires forall k, y :: 0 <= k < m && HasHash(cfg, recs[1..][k], y) ==>
               LastRead(cfg, recs[1..], m, blkHdrs, at + 1, k, y)
    requires NoneHas(cfg, recs[1..], m, x) ==> x in blkHdrs && blkHdrs[x] == at
    ensures LastRead(cfg, recs, m + 1, blkHdrs, at, i, x)
  {
    var rest := recs[1..];
    if i > 0 {
      assert HasHash(cfg, rest[i - 1], x) && LastRead(cfg, rest, m, blkHdrs, at + 1, i - 1, x);
    } else if k :| 0 <= k < m && HasHash(cfg, rest[k], x) {
      assert LastRead(cfg, rest, m, blkHdrs, at + 1, k, x);
    } else {
      assert NoneHas(cfg, rest, m, x);
    }
  }

  datatype Verdict = Verified | Broken(height: int) | Crashed

  /** The walk down from a height; Crashed is a header the walk needs and the map lacks. */
  function VerifyDown(hdrs: map<int, BlockHeader>, height: int, downTo: int): Verdict
    decreases height - downTo
  {
    if height <= downTo then Verified
    else if height !in hdrs || height - 1 !in hdrs then Crashed
    else if hdrs[height - 1].hash != hdrs[height].prev then Broken(height)
    else VerifyDown(hdrs, height - 1, downTo)
  }

  ghost predicate LinkedAt(hdrs: map<int, BlockHeader>, h: int) {
    h in hdrs && h - 1 in hdrs && hdrs[h - 1].hash == hdrs[h].prev
  }

  /** Down to x every link holds, and there a header is missing. */
  ghost predicate MissingAt(hdrs: map<int, BlockHeader>, x: int, downTo: int, height: int) {
    downTo < x <= height && (x !in hdrs || x - 1 !in hdrs) && forall h :: x < h <= height ==> LinkedAt(hdrs, h)
  }

  /** The walk verifies exactly when every link down to its end holds, and otherwise stops at the highest that does
      not. */
  lemma {:induction false} VerifiedIff(hdrs: map<int, BlockHeader>, height: int, downTo: int)
    ensures VerifyDown(hdrs, height, downTo) == Verified <==> forall h :: downTo < h <= height ==> LinkedAt(hdrs, h)
    ensures forall x :: VerifyDown(hdrs, height, downTo) == Broken(x) ==>
              && downTo < x <= height && x in hdrs && x - 1 in hdrs && hdrs[x - 1].hash != hdrs[x].prev
              && forall h :: x < h <= height ==> LinkedAt(hdrs, h)
    ensures VerifyDown(hdrs, height, downTo) == Crashed ==> exists x :: MissingAt(hdrs, x, downTo, height)
    decreases height - downTo
  {
    if height > downTo {
      if !LinkedAt(hdrs, height) {
        if height !in hdrs || height - 1 !in hdrs {
          assert MissingAt(hdrs, height, downTo, height);
        }
      } else {
        VerifiedIff(hdrs, height - 1, downTo);
        if VerifyDown(hdrs, height, downTo) == Crashed {
          var x :| MissingAt(hdrs, x, downTo, height - 1);
          assert MissingAt(hdrs, x, downTo, height);
        }
      }
    }
  }

  function DownTo(cfg: Config, tip: int, depth: int, all: bool): int {
    if tip - depth < 0 || all then cfg.startPoint else tip - depth
  }

  /** What comes of asking for a chunk: an answer, an error, or the node having been cancelled meanwhile. */
  datatype Answer = Got(reply: HeadersReply) | NoAnswer | NodeDone

  /** How syncing ends. Left is a quiet return after the node was cancelled; Fatal and Crash stop the program. */
  datatype SyncEnd = Synced | Failed | Left | Fatal | Crash

  datatype Gathered = Gathered(end: SyncEnd, file: seq<Byte>, maybeTip: int)

  function Gather(cfg: Config, file: seq<Byte>, maybeTip: int, answers: seq<Answer>, first: bool): Gathered
    requires cfg.headerSize > 0
    decreases |answers|
  {
    if answers == [] || answers[0].NoAnswer? then Gathered(Failed, file, maybeTip)
    else if answers[0].NodeDone? then Gathered(if first then Failed else Left, file, maybeTip)
    else
      var reply := answers[0].reply;
      if reply.count <= 0 then Gathered(Synced, file, maybeTip)
      else
        var raw := Decode(reply.hex);
        if raw.None? || |raw.value| % cfg.headerSize != 0 then Gathered(if first then Fatal else Failed, file, maybeTip)
        else if reply.count < ELECTRUM_MAGIC_NUMHDR then Gathered(Synced, file + raw.value, maybeTip + reply.count)
        else Gather(cfg, file + raw.value, maybeTip + reply.count, answers[1..], false)
  }

  function Sync(cfg: Config, c: Chain, answers: seq<Answer>): (SyncEnd, Chain)
    requires cfg.headerSize > 0
  {
    if |c.file| % cfg.headerSize != 0 then (Failed, c)
    else
      var g := Gather(cfg, c.file, cfg.startPoint + |c.file| / cfg.headerSize - 1, answers, true);
      if g.end != Synced then (g.end, c.(file := g.file))
      else
        var s := StoreAll(cfg, c.hdrs, c.blkHdrs, Cut(cfg.headerSize, g.file), cfg.startPoint);
        var d := c.(file := g.file, hdrs := s.hdrs, blkHdrs := s.blkHdrs);
        if !s.ok then (Failed, d)
        else
          var e := d.(tip := g.maybeTip);
          match VerifyDown(e.hdrs, e.tip, cfg.startPoint)
          case Verified => (Synced, e.(synced := true))
          case Broken(_) => (Failed, e)
          case Crashed => (Crash, e)
  }

  /** A chain before its first sync: only the file is there. */
  ghost predicate Fresh(c: Chain) {
    c.hdrs == map[] && c.blkHdrs == map[] && !c.recovery
  }

  /** Headers that came in the answers, and headers the answers said would come. */
  function Came(cfg: Config, answers: seq<Answer>): int
    requires cfg.headerSize > 0
  {
    if answers == [] || !answers[0].Got? || answers[0].reply.count <= 0 then 0
    else
      var raw, count := Decode(answers[0].reply.hex), answers[0].reply.count;
      (if raw.None? then 0 else |raw.value| / cfg.headerSize)
        + (if count < ELECTRUM_MAGIC_NUMHDR then 0 else Came(cfg, answers[1..]))
  }

  function Promised(answers: seq<Answer>): int {
    if answers == [] || !answers[0].Got? || answers[0].reply.count <= 0 then 0
    else answers[0].reply.count + (if answers[0].reply.count < ELECTRUM_MAGIC_NUMHDR then 0 else Promised(answers[1..]))
  }

  lemma WholeRecords(size: nat, a: nat, b: nat)
    requires size > 0 && a % size == 0 && b % size == 0
    ensures (a + b) % size == 0 && (a + b) / size == a / size + b / size
  {
    var p, q := a / size, b / size;
    assert a == p * size && b == q * size;
    assert (p + q) * size == p * size + q * size;
    MultipleOf(p + q, size);
  }

  lemma {:induction false} GatherCounts(cfg: Config, file: seq<Byte>, maybeTip: int, answers: seq<Answer>, first: bool)
    requires cfg.headerSize > 0 && |file| % cfg.headerSize == 0
    ensures var g := Gather(cfg, file, maybeTip, answers, first);
            g.end == Synced ==> && |g.file| % cfg.headerSize == 0
                                && |g.file| / cfg.headerSize == |file| / cfg.headerSize + Came(cfg, answers)
                                && g.maybeTip == maybeTip + Promised(answers)
    decreases |answers|
  {
    if answers != [] && answers[0].Got? && answers[0].reply.count > 0 {
      hide Decode;
      var raw := Decode(answers[0].reply.hex);
      if raw.Some? && |raw.value| % cfg.headerSize == 0 {
        WholeRecords(cfg.headerSize, |file|, |raw.value|);
        if answers[0].reply.count >= ELECTRUM_MAGIC_NUMHDR {
          GatherCounts(cfg, file + raw.value, maybeTip + answers[0].reply.count, answers[1..], false);
        }
      }
    }
  }

  /** The maps hold exactly the records, from the start point on. */
  ghost predicate MapsHold(cfg: Config, c: Chain, recs: seq<seq<Byte>>) {
    && (forall h :: h in c.hdrs <==> cfg.startPoint <= h < cfg.startPoint + |recs|)
    && (forall h :: cfg.startPoint <= h < cfg.startPoint + |recs|
          ==> cfg.deserialize(recs[h - cfg.startPoint]) == Some(c.hdrs[h]) && c.hdrs[h].hash in c.blkHdrs)
  }

  lemma GoodIff(cfg: Config, c: Chain)
    requires cfg.headerSize > 0 && |c.file| % cfg.headerSize == 0 && c.synced && MapsHold(cfg, c, FileRecords(cfg, c))
    requires forall h :: cfg.startPoint < h <= c.tip ==> LinkedAt(c.hdrs, h)
    ensures ChainOk(cfg, c) <==> |FileRecords(cfg, c)| > 0 && c.tip == cfg.startPoint + |FileRecords(cfg, c)| - 1
  {
    hide Cut;
    if |FileRecords(cfg, c)| > 0 && c.tip == cfg.startPoint + |FileRecords(cfg, c)| - 1 {
      forall h | cfg.startPoint < h <= c.tip ensures c.hdrs[h].prev == c.hdrs[h - 1].hash {
        assert LinkedAt(c.hdrs, h);
      }
    }
  }

  lemma SyncedShape(cfg: Config, c: Chain, answers: seq<Answer>)
    requires cfg.headerSize > 0 && Fresh(c) && Sync(cfg, c, answers).0 == Synced
    ensures var g, d := Gather(cfg, c.file, cfg.startPoint + |c.file| / cfg.headerSize - 1, answers, true),
            Sync(cfg, c, answers).1;
            && |c.file| % cfg.headerSize == 0 && g.end == Synced && d.file == g.file && d.tip == g.maybeTip
            && d.synced && !d.recovery && MapsHold(cfg, d, Cut(cfg.headerSize, g.file))
            && forall h :: cfg.startPoint < h <= d.tip ==> LinkedAt(d.hdrs, h)
  {
    hide Gather, VerifyDown, StoreAll, Cut;
    var g, d := Gather(cfg, c.file, cfg.startPoint + |c.file| / cfg.headerSize - 1, answers, true),
      Sync(cfg, c, answers).1;
    StoreAllHolds(cfg, c.hdrs, c.blkHdrs, Cut(cfg.headerSize, g.file), cfg.startPoint);
    VerifiedIff(d.hdrs, d.tip, cfg.startPoint);
    assert MapsHold(cfg, d, Cut(cfg.headerSize, g.file));
    assert forall h :: cfg.startPoint < h <= d.tip ==> LinkedAt(d.hdrs, h);
  }

  /** A successful sync yields a good chain exactly when there is a header at all and the answers
      brought as many headers as they said; the links need no trust in the server. */
  lemma SyncedIsGoodIff(cfg: Config, c: Chain, answers: seq<Answer>)
    requires cfg.headerSize > 0 && Fresh(c) && Sync(cfg, c, answers).0 == Synced
    ensures ChainOk(cfg, Sync(cfg, c, answers).1)
            <==> |c.file| / cfg.headerSize + Came(cfg, answers) > 0 && Came(cfg, answers) == Promised(answers)
  {
    hide Decode, Came, Promised, Gather, Sync, Cut, Join, ChainOk, MapsHold, LinkedAt;
    var first := cfg.startPoint + |c.file| / cfg.headerSize - 1;
    SyncedShape(cfg, c, answers);
    GatherCounts(cfg, c.file, first, answers, true);
    CutWhole(cfg.headerSize, Sync(cfg, c, answers).1.file);
    GoodIff(cfg, Sync(cfg, c, answers).1);
  }

  /** Each answer holds as many headers as it says. */
  ghost predicate Consistent(cfg: Config, answers: seq<Answer>) {
    forall i :: 0 <= i < |answers| && answers[i].Got? && answers[i].reply.count > 0
      ==> |answers[i].reply.hex| == 2 * cfg.headerSize * answers[i].reply.count
  }

  lemma {:induction false} ConsistentCounts(cfg: Config, file: seq<Byte>, maybeTip: int, answers: seq<Answer>,
                                            first: bool)
    requires cfg.headerSize > 0 && Consistent(cfg, answers) && Gather(cfg, file, maybeTip, answers, first).end == Synced
    ensures Came(cfg, answers) == Promised(answers)
    decreases |answers|
  {
    if answers != [] && answers[0].Got? && answers[0].reply.count > 0 {
      var raw, count := Decode(answers[0].reply.hex), answers[0].reply.count;
      hide Decode;
      assert |raw.value| == count * cfg.headerSize by {
        assert 2 * cfg.headerSize * count == 2 * (count * cfg.headerSize);
      }
      MultipleOf(count, cfg.headerSize);
      if count >= ELECTRUM_MAGIC_NUMHDR {
        assert forall i :: 0 <= i < |answers[1..]| ==> answers[1..][i] == answers[i + 1];
        ConsistentCounts(cfg, file + raw.value, maybeTip + count, answers[1..], false);
      }
    }
  }

  /** With consistent answers and at least one header, sync leaves a good chain. */
  lemma SyncGivesChain(cfg: Config, c: Chain, answers: seq<Answer>)
    requires cfg.headerSize > 0 && Fresh(c) && Sync(cfg, c, answers).0 == Synced && Consistent(cfg, answers)
    requires |Sync(cfg, c, answers).1.file| > 0
    ensures ChainOk(cfg, Sync(cfg, c, answers).1) && !Sync(cfg, c, answers).1.recovery
  {
    hide Decode, Came, Promised, Gather, Sync, Cut, Join, ChainOk, MapsHold, LinkedAt, Consistent;
    var first := cfg.startPoint + |c.file| / cfg.headerSize - 1;
    SyncedShape(cfg, c, answers);
    GatherCounts(cfg, c.file, first, answers, true);
    ConsistentCounts(cfg, c.file, first, answers, true);
    SyncedIsGoodIff(cfg, c, answers);
  }

  /** The records of a good chain's file read back as its height map. */
  lemma StoredAgain(cfg: Config, c: Chain)
    requires cfg.headerSize > 0 && ChainOk(cfg, c)
    ensures var s := StoreAll(cfg, map[], map[], FileRecords(cfg, c), cfg.startPoint);
            s.ok && s.hdrs == c.hdrs
  {
    hide Cut, StoreAll;
    var recs := FileRecords(cfg, c);
    StoreAllHolds(cfg, map[], map[], recs, cfg.startPoint);
    forall i | 0 <= i < |recs| ensures cfg.deserialize(recs[i]).Some? {
      var h := cfg.startPoint + i;
      assert cfg.deserialize(recs[h - cfg.startPoint]) == Some(c.hdrs[h]);
    }
    var s := StoreAll(cfg, map[], map[], recs, cfg.startPoint);
    forall h | h in c.hdrs ensures h in s.hdrs && s.hdrs[h] == c.hdrs[h] {
      assert cfg.deserialize(recs[h - cfg.startPoint]) == Some(c.hdrs[h]);
    }
    assert s.hdrs.Keys == c.hdrs.Keys;
  }

  /** After any run, a new program that reads the file, with a server that has nothing newer, has the same
      height map and tip. */
  lemma RestartRebuilds(cfg: Config, c: Chain, restarted: Chain, max: int)
    requires cfg.headerSize > 0 && ChainOk(cfg, c) && Fresh(restarted) && restarted.file == c.file
    ensures var (end, d) := Sync(cfg, restarted, [Got(HeadersReply(0, "", max))]);
            end == Synced && d.hdrs == c.hdrs && d.tip == c.tip && d.file == c.file && ChainOk(cfg, d)
  {
    hide Decode, Cut, Join, StoreAll, VerifyDown, Came, Promised;
    var nothing := [Got(HeadersReply(0, "", max))];
    CutWhole(cfg.headerSize, c.file);
    StoredAgain(cfg, c);
    VerifiedIff(c.hdrs, c.tip, cfg.startPoint);
    assert forall h :: cfg.startPoint < h <= c.tip ==> LinkedAt(c.hdrs, h);
    NothingNew(cfg, nothing);
    SyncedIsGoodIff(cfg, restarted, nothing);
  }

  lemma NothingNew(cfg: Config, answers: seq<Answer>)
    requires cfg.headerSize > 0 && |answers| == 1 && answers[0].Got? && answers[0].reply.count == 0
    ensures Came(cfg, answers) == 0 == Promised(answers)
  {
  }

  /** The whole life of a headers file: a first sync with consistent answers, any run of notifications
      against any server, and a restart that finds the same chain again. */
  lemma SyncRunRestart(cfg: Config, c: Chain, answers: seq<Answer>, chains: seq<Chain>, notes: seq<Notification>,
                       servers: seq<Server>, restarted: Chain, max: int)
    requires cfg.headerSize > 0 && Fresh(c) && Sync(cfg, c, answers).0 == Synced && Consistent(cfg, answers)
    requires |Sync(cfg, c, answers).1.file| > 0
    requires Follows(cfg, chains, notes, servers) && chains[0] == Sync(cfg, c, answers).1
    requires Fresh(restarted) && restarted.file == chains[|notes|].file
    ensures ChainOk(cfg, chains[|notes|])
    ensures var (end, d) := Sync(cfg, restarted, [Got(HeadersReply(0, "", max))]);
            end == Synced && d.hdrs == chains[|notes|].hdrs && d.tip == chains[|notes|].tip && ChainOk(cfg, d)
  {
    hide Sync, Consistent, Fresh, ChainOk, FollowsAt;
    SyncGivesChain(cfg, c, answers);
    RunKeepsChain(cfg, chains, notes, servers);
    RestartRebuilds(cfg, chains[|notes|], restarted, max);
  }
}
