/** How a first synchronisation ends, and that it ends well with an honest server. */
module SyncOutcomes {
  import opened ChainSafety
  import opened Chains
  import opened HeaderSync
  import opened Hex
  import opened Options
  import opened Records
  import opened Reorg

  /** The hex of an answer is whole headers. */
  predicate Whole(cfg: Config, a: Answer)
    requires cfg.headerSize > 0
  {
    a.Got? && Decode(a.reply.hex).Some? && |Decode(a.reply.hex).value| % cfg.headerSize == 0
  }

  /** A full chunk of whole headers: the server may have more. */
  predicate Full(cfg: Config, a: Answer)
    requires cfg.headerSize > 0
  {
    Whole(cfg, a) && a.reply.count >= 2016
  }

  /** The last chunk: whole headers, or a count that says there is none. */
  predicate Short(cfg: Config, a: Answer)
    requires cfg.headerSize > 0
  {
    a.Got? && a.reply.count < 2016 && (a.reply.count > 0 ==> Whole(cfg, a))
  }

  /** How many full chunks come before anything else. */
  function FullOnes(cfg: Config, answers: seq<Answer>): (n: nat)
    requires cfg.headerSize > 0
    ensures n <= |answers| && (forall i :: 0 <= i < n ==> Full(cfg, answers[i]))
    ensures n < |answers| ==> !Full(cfg, answers[n])
  {
    if answers == [] || !Full(cfg, answers[0]) then 0 else 1 + FullOnes(cfg, answers[1..])
  }

  /** The bytes and the count an answer adds. */
  function BytesOf(a: Answer): seq<Byte> {
    if a.Got? && a.reply.count > 0 && Decode(a.reply.hex).Some? then Decode(a.reply.hex).value else []
  }

  function CountOf(a: Answer): nat {
    if a.Got? && a.reply.count > 0 then a.reply.count else 0
  }

  /** What the first n answers add. */
  function Bytes(answers: seq<Answer>, n: nat): seq<Byte>
    requires n <= |answers|
  {
    if n == 0 then [] else BytesOf(answers[0]) + Bytes(answers[1..], n - 1)
  }

  function Count(answers: seq<Answer>, n: nat): nat
    requires n <= |answers|
  {
    if n == 0 then 0 else CountOf(answers[0]) + Count(answers[1..], n - 1)
  }

  /** Gathering ends well exactly if full chunks are followed by a short one. Before that a failed request, a node that
      is done or a bad chunk ends it; the first request fails harder than later ones do. */
  lemma {:induction false} GatherEnds(cfg: Config, file: seq<Byte>, maybeTip: int, answers: seq<Answer>, first: bool)
    requires cfg.headerSize > 0
    ensures var g, n := Gather(cfg, file, maybeTip, answers, first), FullOnes(cfg, answers);
            var used := if g.end == Synced then n + 1 else n;
            && (g.end == Synced <==> n < |answers| && Short(cfg, answers[n]))
            && (g.end == Left <==> n < |answers| && answers[n].NodeDone? && (n > 0 || !first))
            && (g.end == Fatal <==> n < |answers| && answers[n].Got? && !Short(cfg, answers[n]) && n == 0 && first)
            && g.end != Crash
            && g.file == file + Bytes(answers, used) && g.maybeTip == maybeTip + Count(answers, used)
    decreases |answers|
  {
    hide Decode;
    if answers != [] && Full(cfg, answers[0]) {
      var raw := Decode(answers[0].reply.hex).value;
      GatherEnds(cfg, file + raw, maybeTip + answers[0].reply.count, answers[1..], false);
      var g, n := Gather(cfg, file, maybeTip, answers, first), FullOnes(cfg, answers);
      var used := if g.end == Synced then n + 1 else n;
      assert file + raw + Bytes(answers[1..], used - 1) == file + (raw + Bytes(answers[1..], used - 1));
    } else {
      NoFullOne(cfg, file, maybeTip, answers, first);
    }
  }

  lemma NoFullOne(cfg: Config, file: seq<Byte>, maybeTip: int, answers: seq<Answer>, first: bool)
    requires cfg.headerSize > 0 && (answers == [] || !Full(cfg, answers[0]))
    ensures var g := Gather(cfg, file, maybeTip, answers, first);
            var used := if g.end == Synced then 1 else 0;
            && (g.end == Synced <==> 0 < |answers| && Short(cfg, answers[0]))
            && (g.end == Left <==> 0 < |answers| && answers[0].NodeDone? && !first)
            && (g.end == Fatal <==> 0 < |answers| && answers[0].Got? && !Short(cfg, answers[0]) && first)
            && g.end != Crash
            && g.file == file + Bytes(answers, used) && g.maybeTip == maybeTip + Count(answers, used)
  {
    hide Decode;
    assert file + [] == file;
    if answers != [] {
      assert BytesOf(answers[0]) + Bytes(answers[1..], 0) == BytesOf(answers[0]);
    }
  }

  // ---------------------------------------------------------------------------
  // The whole sync
  // ---------------------------------------------------------------------------

  /** Record i is there, decodes, and follows the record before it. */
  ghost predicate Joined(cfg: Config, recs: seq<seq<Byte>>, i: nat) {
    && 0 < i < |recs| && cfg.deserialize(recs[i]).Some? && cfg.deserialize(recs[i - 1]).Some?
    && cfg.deserialize(recs[i]).value.prev == cfg.deserialize(recs[i - 1]).value.hash
  }

  /** What a sync needs of the file it has gathered: every record decodes, and each one up to the tip follows the one
      before it. */
  ghost predicate Sound(cfg: Config, file: seq<Byte>, tip: int)
    requires cfg.headerSize > 0
  {
    var recs := Cut(cfg.headerSize, file);
    && (forall i :: 0 <= i < |recs| ==> cfg.deserialize(recs[i]).Some?)
    && (forall i :: 0 < i <= tip - cfg.startPoint ==> Joined(cfg, recs, i))
  }

  lemma JoinedIsLinked(cfg: Config, c: Chain, recs: seq<seq<Byte>>)
    requires MapsHold(cfg, c, recs)
    ensures (forall h :: cfg.startPoint < h <= c.tip ==> LinkedAt(c.hdrs, h))
            <==> (forall i :: 0 < i <= c.tip - cfg.startPoint ==> Joined(cfg, recs, i))
  {
    if forall h :: cfg.startPoint < h <= c.tip ==> LinkedAt(c.hdrs, h) {
      forall i | 0 < i <= c.tip - cfg.startPoint ensures Joined(cfg, recs, i) {
        assert LinkedAt(c.hdrs, cfg.startPoint + i);
      }
    }
    if forall i :: 0 < i <= c.tip - cfg.startPoint ==> Joined(cfg, recs, i) {
      forall h | cfg.startPoint < h <= c.tip ensures LinkedAt(c.hdrs, h) {
        assert Joined(cfg, recs, h - cfg.startPoint);
      }
    }
  }

  /** Reading a file and walking down its links succeeds exactly if the file is sound. */
  lemma ReadsIffSound(cfg: Config, c: Chain)
    requires cfg.headerSize > 0
    ensures var s := StoreAll(cfg, map[], map[], Cut(cfg.headerSize, c.file), cfg.startPoint);
            s.ok && VerifyDown(s.hdrs, c.tip, cfg.startPoint) == Verified <==> Sound(cfg, c.file, c.tip)
  {
    hide StoreAll, VerifyDown, Cut, LinkedAt, Joined;
    var recs := Cut(cfg.headerSize, c.file);
    StoreAllHolds(cfg, map[], map[], recs, cfg.startPoint);
    var s := StoreAll(cfg, map[], map[], recs, cfg.startPoint);
    if s.ok {
      VerifiedIff(s.hdrs, c.tip, cfg.startPoint);
      JoinedIsLinked(cfg, c.(hdrs := s.hdrs, blkHdrs := s.blkHdrs), recs);
    }
  }

  /** A sync succeeds exactly if the file is whole, full chunks are followed by a short one, and what they add up to is
      sound. It is the only end that marks the headers as synced. */
  lemma SyncedIff(cfg: Config, c: Chain, answers: seq<Answer>)
    requires cfg.headerSize > 0 && Fresh(c)
    ensures var (end, d), n := Sync(cfg, c, answers), FullOnes(cfg, answers);
            && (end == Synced <==>
                 && |c.file| % cfg.headerSize == 0 && n < |answers| && Short(cfg, answers[n])
                 && Sound(cfg, c.file + Bytes(answers, n + 1),
                          cfg.startPoint + |c.file| / cfg.headerSize - 1 + Count(answers, n + 1)))
            && (end == Synced ==>
                 && d.file == c.file + Bytes(answers, n + 1)
                 && d.tip == cfg.startPoint + |c.file| / cfg.headerSize - 1 + Count(answers, n + 1))
            && (end == Synced ==> d.synced)
            && (end != Synced ==> d.synced == c.synced)
  {
    hide Gather, StoreAll, VerifyDown, Cut, Bytes, Count, Short, FullOnes, Sound;
    if |c.file| % cfg.headerSize == 0 {
      var first := cfg.startPoint + |c.file| / cfg.headerSize - 1;
      GatherEnds(cfg, c.file, first, answers, true);
      var g := Gather(cfg, c.file, first, answers, true);
      ReadsIffSound(cfg, c.(file := g.file, tip := g.maybeTip));
    }
  }

  /** After n full chunks comes a chunk that is not full. */
  ghost predicate ShortAt(answers: seq<Answer>, n: nat) {
    && n < |answers| && answers[n].Got? && answers[n].reply.count < 2016
    && forall i :: 0 <= i < n ==> answers[i].Got? && answers[i].reply.count >= 2016
  }

  /** No sync ends well on a failed request, nor before a chunk that is not full. */
  lemma SyncedNeedsShort(cfg: Config, c: Chain, answers: seq<Answer>)
    requires cfg.headerSize > 0 && Fresh(c) && Sync(cfg, c, answers).0 == Synced
    ensures exists n :: ShortAt(answers, n)
  {
    SyncedIff(cfg, c, answers);
    hide Sync, Sound, Whole;
    assert ShortAt(answers, FullOnes(cfg, answers));
  }

  /** The other ends: what a sync has read before it fails stays in the file, and only a sync that has gathered
      everything touches the maps and the tip. */
  lemma UnsyncedEnds(cfg: Config, c: Chain, answers: seq<Answer>)
    requires cfg.headerSize > 0 && |c.file| % cfg.headerSize == 0
    ensures var (end, d), n := Sync(cfg, c, answers), FullOnes(cfg, answers);
            && (n == |answers| || !Short(cfg, answers[n]) ==>
                 && d == c.(file := c.file + Bytes(answers, n))
                 && end == if n == |answers| || answers[n].NoAnswer? then Failed
                           else if answers[n].NodeDone? then (if n == 0 then Failed else Left)
                           else if n == 0 then Fatal else Failed)
            && (n < |answers| && Short(cfg, answers[n]) ==> end == Synced || end == Failed || end == Crash)
  {
    hide Gather, StoreAll, VerifyDown, Cut, Bytes, Count, Decode;
    var first, n := cfg.startPoint + |c.file| / cfg.headerSize - 1, FullOnes(cfg, answers);
    GatherEnds(cfg, c.file, first, answers, true);
  }

  // ---------------------------------------------------------------------------
  // An honest server
  // ---------------------------------------------------------------------------

  lemma DecodePair(p: string, s: string)
    requires |p| == 2
    ensures Decode(p + s).Some? <==> Decode(p).Some? && Decode(s).Some?
    ensures Decode(p + s).Some? ==> Decode(p + s).value == Decode(p).value + Decode(s).value
  {
    hide Nibble;
    assert (p + s)[2..] == s && p[2..] == [] && Decode(p[2..]) == Some([]);
    if Decode(p).Some? {
      var x := Decode(p).value;
      assert |x| == 1 && x[0] == 16 * Nibble(p[0]).value + Nibble(p[1]).value;
      assert x == [x[0]];
    }
  }

  lemma {:induction false} DecodeAppend(a: string, b: string)
    requires Decode(a).Some? && Decode(b).Some?
    ensures Decode(a + b) == Some(Decode(a).value + Decode(b).value)
    decreases |a|
  {
    if a == [] {
      assert a + b == b && [] + Decode(b).value == Decode(b).value;
    } else {
      var p, r := a[..2], a[2..];
      assert a == p + r && a + b == p + (r + b);
      hide Decode;
      DecodePair(p, r);
      DecodeAppend(r, b);
      DecodePair(p, r + b);
      Associative(Decode(p).value, Decode(r).value, Decode(b).value);
    }
  }

  lemma Associative<T>(a: seq<T>, b: seq<T>, c: seq<T>)
    ensures a + (b + c) == (a + b) + c
  {
  }

  /** The server has a header at every height in (low, high]. */
  ghost predicate HasAll(cfg: Config, hexAt: int -> string, low: int, high: int) {
    low <= high && forall h :: low < h <= high ==> Convert(cfg, hexAt(h)).Some?
  }

  /** The bytes of the server's header at height h, and of those in (low, high]. */
  ghost function RawAt(cfg: Config, hexAt: int -> string, h: int): (raw: seq<Byte>)
    requires Convert(cfg, hexAt(h)).Some?
    ensures Decode(hexAt(h)) == Some(raw) && |raw| == cfg.headerSize
    ensures cfg.deserialize(raw) == Some(HdrAt(cfg, hexAt, h))
  {
    Convert(cfg, hexAt(h)).value.1
  }

  ghost function Raws(cfg: Config, hexAt: int -> string, low: int, high: int): (s: seq<seq<Byte>>)
    requires HasAll(cfg, hexAt, low, high)
    ensures |s| == high - low
  {
    seq(high - low, i requires 0 <= i < high - low => RawAt(cfg, hexAt, low + 1 + i))
  }

  lemma RawsSized(cfg: Config, hexAt: int -> string, low: int, high: int)
    requires HasAll(cfg, hexAt, low, high)
    ensures AllSized(cfg.headerSize, Raws(cfg, hexAt, low, high))
  {
    hide Convert;
    forall i | 0 <= i < high - low ensures |Raws(cfg, hexAt, low, high)[i]| == cfg.headerSize {
      assert |RawAt(cfg, hexAt, low + 1 + i)| == cfg.headerSize;
    }
  }

  /** The hex of headers, decoded together. */
  lemma {:induction false} DecodeSpan(cfg: Config, hexAt: int -> string, low: int, high: int)
    requires HasAll(cfg, hexAt, low, high)
    ensures Decode(Join(Span(hexAt, low, high))) == Some(Join(Raws(cfg, hexAt, low, high)))
    decreases high - low
  {
    var span, raws := Span(hexAt, low, high), Raws(cfg, hexAt, low, high);
    hide Convert;
    if low < high {
      DecodeSpan(cfg, hexAt, low + 1, high);
      SpanFirst(cfg, hexAt, low, high);
      hide Decode, Span, Raws;
      DecodeAppend(span[0], Join(span[1..]));
    } else {
      hide Raws, Span;
      assert span == [] && raws == [];
    }
  }

  lemma SpanFirst(cfg: Config, hexAt: int -> string, low: int, high: int)
    requires HasAll(cfg, hexAt, low, high) && low < high
    ensures var span, raws := Span(hexAt, low, high), Raws(cfg, hexAt, low, high);
            && span[1..] == Span(hexAt, low + 1, high) && raws[1..] == Raws(cfg, hexAt, low + 1, high)
            && Decode(span[0]) == Some(raws[0])
  {
    hide Convert, Decode;
    var span, raws := Span(hexAt, low, high), Raws(cfg, hexAt, low, high);
    assert span[1..] == Span(hexAt, low + 1, high);
    assert raws[1..] == Raws(cfg, hexAt, low + 1, high);
    assert Decode(hexAt(low + 1)) == Some(RawAt(cfg, hexAt, low + 1));
  }

  lemma RawsAppend(cfg: Config, hexAt: int -> string, low: int, mid: int, high: int)
    requires low <= mid <= high && HasAll(cfg, hexAt, low, high)
    ensures Join(Raws(cfg, hexAt, low, mid)) + Join(Raws(cfg, hexAt, mid, high)) == Join(Raws(cfg, hexAt, low, high))
  {
    hide Convert, Join;
    var a, b := Raws(cfg, hexAt, low, mid), Raws(cfg, hexAt, mid, high);
    JoinAppend(a, b);
    assert a + b == Raws(cfg, hexAt, low, high);
  }

  /** How many of the 2016 headers above low a server with the headers up to top has. */
  function Sent(low: int, top: int): int {
    if top - low < 2016 then top - low else 2016
  }

  /** Request i for 2016 headers, from the one above low on, is answered with those the server has. */
  ghost predicate Serves(hexAt: int -> string, low: int, top: int, answers: seq<Answer>, i: nat)
    requires i < |answers| && low + 2016 * i <= top
  {
    var from := low + 2016 * i;
    && answers[i].Got? && answers[i].reply.count == Sent(from, top)
    && answers[i].reply.hex == Join(Span(hexAt, from, from + Sent(from, top)))
  }

  /** Every request that is made is answered, and truthfully. */
  ghost predicate ServesAll(hexAt: int -> string, low: int, top: int, answers: seq<Answer>) {
    forall i: nat :: low + 2016 * i <= top ==> i < |answers| && Serves(hexAt, low, top, answers, i)
  }

  lemma AnswerBrings(cfg: Config, hexAt: int -> string, low: int, top: int, answers: seq<Answer>)
    requires cfg.headerSize > 0 && low <= top && ServesAll(hexAt, low, top, answers)
    requires HasAll(cfg, hexAt, low, top)
    ensures answers != [] && BytesOf(answers[0]) == Join(Raws(cfg, hexAt, low, low + Sent(low, top)))
    ensures Whole(cfg, answers[0]) && CountOf(answers[0]) == Sent(low, top) == answers[0].reply.count
  {
    assert low + 2016 * 0 <= top;
    assert Serves(hexAt, low, top, answers, 0);
    DecodeSpan(cfg, hexAt, low, low + Sent(low, top));
    hide Decode, Convert, Span;
    var raws := Raws(cfg, hexAt, low, low + Sent(low, top));
    RawsSized(cfg, hexAt, low, low + Sent(low, top));
    JoinLength(cfg.headerSize, raws);
    MultipleOf(|raws|, cfg.headerSize);
    if Sent(low, top) == 0 {
      assert raws == [];
    }
  }

  lemma ServesRest(hexAt: int -> string, low: int, top: int, answers: seq<Answer>)
    requires low + 2016 <= top && ServesAll(hexAt, low, top, answers) && answers != []
    ensures ServesAll(hexAt, low + 2016, top, answers[1..])
  {
    forall i: nat | low + 2016 + 2016 * i <= top
      ensures i < |answers[1..]| && Serves(hexAt, low + 2016, top, answers[1..], i)
    {
      assert Serves(hexAt, low, top, answers, i + 1);
    }
  }

  /** An honest server's answers are full chunks and a short one, and bring exactly its headers above low. */
  lemma {:induction false} HonestGather(cfg: Config, hexAt: int -> string, low: int, top: int, answers: seq<Answer>)
    requires cfg.headerSize > 0 && low <= top && ServesAll(hexAt, low, top, answers)
    requires HasAll(cfg, hexAt, low, top)
    ensures var n := FullOnes(cfg, answers);
            && n < |answers| && Short(cfg, answers[n])
            && Bytes(answers, n + 1) == Join(Raws(cfg, hexAt, low, top)) && Count(answers, n + 1) == top - low
    decreases top - low
  {
    AnswerBrings(cfg, hexAt, low, top, answers);
    hide Decode, Convert, Raws, Serves, ServesAll, Whole, BytesOf, CountOf, Join;
    if low + 2016 <= top {
      ServesRest(hexAt, low, top, answers);
      HonestGather(cfg, hexAt, low + 2016, top, answers[1..]);
      RawsAppend(cfg, hexAt, low, low + 2016, top);
    } else {
      assert Bytes(answers[1..], 0) == [] && Count(answers[1..], 0) == 0;
    }
  }

  /** The record at height h of a file that starts at the start point. */
  ghost predicate RecordIs(cfg: Config, recs: seq<seq<Byte>>, h: int, hdr: BlockHeader) {
    0 <= h - cfg.startPoint < |recs| && cfg.deserialize(recs[h - cfg.startPoint]) == Some(hdr)
  }

  /** A file of sound records up to height f, with the server's headers above f added to it. */
  lemma AddedRecords(cfg: Config, hexAt: int -> string, file: seq<Byte>, f: int, top: int)
    requires cfg.headerSize > 0 && cfg.startPoint - 1 <= f <= top && HasAll(cfg, hexAt, f, top)
    requires |file| % cfg.headerSize == 0 && |file| / cfg.headerSize == f - cfg.startPoint + 1
    ensures var recs := Cut(cfg.headerSize, file + Join(Raws(cfg, hexAt, f, top)));
            && |recs| == top - cfg.startPoint + 1
            && recs[..f - cfg.startPoint + 1] == Cut(cfg.headerSize, file)
            && forall h :: f < h <= top ==> RecordIs(cfg, recs, h, HdrAt(cfg, hexAt, h))
  {
    hide Convert, Join, Cut, HdrAt;
    var size, raws, ours := cfg.headerSize, Raws(cfg, hexAt, f, top), Cut(cfg.headerSize, file);
    CutWhole(size, file);
    RawsSized(cfg, hexAt, f, top);
    JoinAppend(ours, raws);
    assert AllSized(size, ours + raws);
    CutJoin(size, ours + raws);
    var recs := ours + raws;
    assert recs[..f - cfg.startPoint + 1] == ours;
    forall h | f < h <= top ensures RecordIs(cfg, recs, h, HdrAt(cfg, hexAt, h)) {
      assert recs[h - cfg.startPoint] == RawAt(cfg, hexAt, h);
    }
  }

  /** The server's headers in (low, high] follow one another. */
  ghost predicate FollowOn(cfg: Config, hexAt: int -> string, low: int, high: int)
    requires HasAll(cfg, hexAt, low, high)
  {
    forall h :: low + 1 < h <= high ==> HdrAt(cfg, hexAt, h).prev == HdrAt(cfg, hexAt, h - 1).hash
  }

  /** The server's first header above f follows the last record of the file, if there are both. */
  ghost predicate Meets(cfg: Config, hexAt: int -> string, file: seq<Byte>, f: int, top: int)
    requires cfg.headerSize > 0 && HasAll(cfg, hexAt, f, top)
  {
    cfg.startPoint <= f < top ==>
      exists last :: RecordIs(cfg, Cut(cfg.headerSize, file), f, last) && HdrAt(cfg, hexAt, f + 1).prev == last.hash
  }

  lemma JoinedIff(cfg: Config, recs: seq<seq<Byte>>, h: int, hdr: BlockHeader, before: BlockHeader)
    requires RecordIs(cfg, recs, h, hdr) && RecordIs(cfg, recs, h - 1, before)
    ensures Joined(cfg, recs, h - cfg.startPoint) <==> hdr.prev == before.hash
  {
  }

  lemma AllDecode(cfg: Config, hexAt: int -> string, file: seq<Byte>, f: int, top: int)
    requires cfg.headerSize > 0 && cfg.startPoint - 1 <= f <= top && HasAll(cfg, hexAt, f, top)
    requires |file| % cfg.headerSize == 0 && |file| / cfg.headerSize == f - cfg.startPoint + 1 && Sound(cfg, file, f)
    ensures var recs := Cut(cfg.headerSize, file + Join(Raws(cfg, hexAt, f, top)));
            |recs| == top - cfg.startPoint + 1 && forall i :: 0 <= i < |recs| ==> cfg.deserialize(recs[i]).Some?
  {
    AddedRecords(cfg, hexAt, file, f, top);
    CutWhole(cfg.headerSize, file);
    hide Convert, Join, Cut, HdrAt, Raws, HasAll, Joined;
    var ours, recs := Cut(cfg.headerSize, file), Cut(cfg.headerSize, file + Join(Raws(cfg, hexAt, f, top)));
    var n := f - cfg.startPoint + 1;
    forall i | 0 <= i < |recs| ensures cfg.deserialize(recs[i]).Some? {
      if i < n {
        assert recs[..n][i] == ours[i];
      } else {
        assert RecordIs(cfg, recs, cfg.startPoint + i, HdrAt(cfg, hexAt, cfg.startPoint + i));
      }
    }
  }

  /** Everything is joined, but for the place where the two meet. */
  lemma JoinedBesides(cfg: Config, hexAt: int -> string, file: seq<Byte>, f: int, top: int, i: nat)
    requires cfg.headerSize > 0 && cfg.startPoint - 1 <= f <= top && HasAll(cfg, hexAt, f, top)
    requires FollowOn(cfg, hexAt, f, top)
    requires |file| % cfg.headerSize == 0 && |file| / cfg.headerSize == f - cfg.startPoint + 1 && Sound(cfg, file, f)
    requires 0 < i <= top - cfg.startPoint && i != f - cfg.startPoint + 1
    ensures Joined(cfg, Cut(cfg.headerSize, file + Join(Raws(cfg, hexAt, f, top))), i)
  {
    AddedRecords(cfg, hexAt, file, f, top);
    CutWhole(cfg.headerSize, file);
    hide Convert, Join, Cut, HdrAt, Raws;
    var ours, recs := Cut(cfg.headerSize, file), Cut(cfg.headerSize, file + Join(Raws(cfg, hexAt, f, top)));
    var n, h := f - cfg.startPoint + 1, cfg.startPoint + i;
    if i < n {
      assert Joined(cfg, ours, i);
      assert recs[..n][i] == ours[i] && recs[..n][i - 1] == ours[i - 1];
    } else {
      hide Joined, RecordIs, Sound;
      assert RecordIs(cfg, recs, h, HdrAt(cfg, hexAt, h)) && RecordIs(cfg, recs, h - 1, HdrAt(cfg, hexAt, h - 1));
      JoinedIff(cfg, recs, h, HdrAt(cfg, hexAt, h), HdrAt(cfg, hexAt, h - 1));
    }
  }

  /** The last record of the file, read there and in the longer file. */
  lemma LastRecord(cfg: Config, hexAt: int -> string, file: seq<Byte>, f: int, top: int) returns (last: BlockHeader)
    requires cfg.headerSize > 0 && cfg.startPoint <= f <= top && HasAll(cfg, hexAt, f, top)
    requires |file| % cfg.headerSize == 0 && |file| / cfg.headerSize == f - cfg.startPoint + 1 && Sound(cfg, file, f)
    ensures RecordIs(cfg, Cut(cfg.headerSize, file), f, last)
    ensures RecordIs(cfg, Cut(cfg.headerSize, file + Join(Raws(cfg, hexAt, f, top))), f, last)
  {
    AddedRecords(cfg, hexAt, file, f, top);
    CutWhole(cfg.headerSize, file);
    hide Convert, Join, Cut, HdrAt, Raws, Joined, HasAll;
    var ours, recs := Cut(cfg.headerSize, file), Cut(cfg.headerSize, file + Join(Raws(cfg, hexAt, f, top)));
    last := cfg.deserialize(ours[f - cfg.startPoint]).value;
    assert recs[..f - cfg.startPoint + 1][f - cfg.startPoint] == recs[f - cfg.startPoint];
  }

  lemma OneRecord(cfg: Config, recs: seq<seq<Byte>>, h: int, a: BlockHeader, b: BlockHeader)
    requires RecordIs(cfg, recs, h, a) && RecordIs(cfg, recs, h, b)
    ensures a == b
  {
  }

  lemma MeetsIff(cfg: Config, hexAt: int -> string, file: seq<Byte>, f: int, top: int, last: BlockHeader)
    requires cfg.headerSize > 0 && cfg.startPoint <= f < top && HasAll(cfg, hexAt, f, top)
    requires RecordIs(cfg, Cut(cfg.headerSize, file), f, last)
    ensures Meets(cfg, hexAt, file, f, top) <==> HdrAt(cfg, hexAt, f + 1).prev == last.hash
  {
    hide Cut, HdrAt, RecordIs, Convert;
    var ours := Cut(cfg.headerSize, file);
    forall x | RecordIs(cfg, ours, f, x) ensures x == last {
      OneRecord(cfg, ours, f, x, last);
    }
  }

  lemma NextRecord(cfg: Config, hexAt: int -> string, file: seq<Byte>, f: int, top: int)
    requires cfg.headerSize > 0 && cfg.startPoint - 1 <= f < top && HasAll(cfg, hexAt, f, top)
    requires |file| % cfg.headerSize == 0 && |file| / cfg.headerSize == f - cfg.startPoint + 1
    ensures RecordIs(cfg, Cut(cfg.headerSize, file + Join(Raws(cfg, hexAt, f, top))), f + 1, HdrAt(cfg, hexAt, f + 1))
  {
    AddedRecords(cfg, hexAt, file, f, top);
    hide Cut, Join, Raws, HdrAt, RecordIs, Convert;
  }

  lemma JoinedIffMeets(cfg: Config, hexAt: int -> string, file: seq<Byte>, f: int, top: int)
    requires cfg.headerSize > 0 && cfg.startPoint <= f < top && HasAll(cfg, hexAt, f, top)
    requires |file| % cfg.headerSize == 0 && |file| / cfg.headerSize == f - cfg.startPoint + 1 && Sound(cfg, file, f)
    ensures Joined(cfg, Cut(cfg.headerSize, file + Join(Raws(cfg, hexAt, f, top))), f - cfg.startPoint + 1)
            <==> Meets(cfg, hexAt, file, f, top)
  {
    hide Convert, Join, Cut, HdrAt, Raws, Joined, Sound, RecordIs, Meets;
    var last := LastRecord(cfg, hexAt, file, f, top);
    NextRecord(cfg, hexAt, file, f, top);
    MeetsIff(cfg, hexAt, file, f, top, last);
    JoinedIff(cfg, Cut(cfg.headerSize, file + Join(Raws(cfg, hexAt, f, top))), f + 1, HdrAt(cfg, hexAt, f + 1), last);
  }

  lemma SoundIffMeets(cfg: Config, hexAt: int -> string, file: seq<Byte>, f: int, top: int)
    requires cfg.headerSize > 0 && cfg.startPoint - 1 <= f <= top && HasAll(cfg, hexAt, f, top)
    requires FollowOn(cfg, hexAt, f, top)
    requires |file| % cfg.headerSize == 0 && |file| / cfg.headerSize == f - cfg.startPoint + 1 && Sound(cfg, file, f)
    ensures Sound(cfg, file + Join(Raws(cfg, hexAt, f, top)), top) <==> Meets(cfg, hexAt, file, f, top)
  {
    hide Join, Cut, Raws, Joined, FollowOn;
    AllDecode(cfg, hexAt, file, f, top);
    var recs := Cut(cfg.headerSize, file + Join(Raws(cfg, hexAt, f, top)));
    if cfg.startPoint <= f < top {
      JoinedIffMeets(cfg, hexAt, file, f, top);
    }
    forall i | 0 < i <= top - cfg.startPoint && i != f - cfg.startPoint + 1 ensures Joined(cfg, recs, i) {
      JoinedBesides(cfg, hexAt, file, f, top, i);
    }
  }

  /** A good chain up to the server's tip: the headers of the file up to f, and the server's above f. */
  ghost predicate Reached(cfg: Config, hexAt: int -> string, file: seq<Byte>, f: int, top: int, d: Chain)
    requires cfg.headerSize > 0 && HasAll(cfg, hexAt, f, top)
  {
    && d.tip == top && ChainOk(cfg, d) && d.file == file + Join(Raws(cfg, hexAt, f, top))
    && (forall h :: cfg.startPoint <= h <= f ==>
          h in d.hdrs && RecordIs(cfg, Cut(cfg.headerSize, file), h, d.hdrs[h]))
    && forall h :: f < h <= top ==> h in d.hdrs && d.hdrs[h] == HdrAt(cfg, hexAt, h)
  }

  lemma ReadBack(cfg: Config, hexAt: int -> string, file: seq<Byte>, f: int, top: int, d: Chain)
    requires cfg.headerSize > 0 && cfg.startPoint - 1 <= f <= top && cfg.startPoint <= top
    requires HasAll(cfg, hexAt, f, top) && d.file == file + Join(Raws(cfg, hexAt, f, top)) && d.tip == top
    requires |file| % cfg.headerSize == 0 && |file| / cfg.headerSize == f - cfg.startPoint + 1
    requires d.synced && MapsHold(cfg, d, Cut(cfg.headerSize, d.file))
    requires forall h :: cfg.startPoint < h <= d.tip ==> LinkedAt(d.hdrs, h)
    ensures Reached(cfg, hexAt, file, f, top, d)
  {
    AddedRecords(cfg, hexAt, file, f, top);
    hide Convert, Join, Cut, HdrAt, Raws;
    var recs := Cut(cfg.headerSize, d.file);
    JoinLengths(cfg, hexAt, file, f, top);
    GoodIff(cfg, d);
    hide ChainOk;
    forall h | f < h <= top ensures h in d.hdrs && d.hdrs[h] == HdrAt(cfg, hexAt, h) {
      assert RecordIs(cfg, recs, h, HdrAt(cfg, hexAt, h));
    }
    forall h | cfg.startPoint <= h <= f
      ensures h in d.hdrs && RecordIs(cfg, Cut(cfg.headerSize, file), h, d.hdrs[h])
    {
      assert recs[..f - cfg.startPoint + 1][h - cfg.startPoint] == recs[h - cfg.startPoint];
    }
  }

  lemma SyncReaches(cfg: Config, hexAt: int -> string, c: Chain, f: int, top: int, answers: seq<Answer>)
    requires cfg.headerSize > 0 && Fresh(c) && cfg.startPoint - 1 <= f <= top && cfg.startPoint <= top
    requires |c.file| % cfg.headerSize == 0 && |c.file| / cfg.headerSize == f - cfg.startPoint + 1
    requires HasAll(cfg, hexAt, f, top) && Sync(cfg, c, answers).0 == Synced && Sync(cfg, c, answers).1.tip == top
    requires Sync(cfg, c, answers).1.file == c.file + Join(Raws(cfg, hexAt, f, top))
    ensures Reached(cfg, hexAt, c.file, f, top, Sync(cfg, c, answers).1)
  {
    SyncedShape(cfg, c, answers);
    hide Join, Raws, Cut, Sync, Gather, MapsHold, LinkedAt, HasAll, Reached, Fresh;
    ReadBack(cfg, hexAt, c.file, f, top, Sync(cfg, c, answers).1);
  }

  /** An honest server with headers up to top is asked to go on from a sound file. The sync succeeds exactly if the
      server's first new header follows the last one in the file, and then the file's headers and the server's are one
      good chain up to the server's tip. */
  lemma SyncsIffMeets(cfg: Config, hexAt: int -> string, c: Chain, f: int, top: int, answers: seq<Answer>)
    requires cfg.headerSize > 0 && Fresh(c) && cfg.startPoint - 1 <= f <= top && cfg.startPoint <= top
    requires |c.file| % cfg.headerSize == 0 && |c.file| / cfg.headerSize == f - cfg.startPoint + 1
    requires Sound(cfg, c.file, f) && HasAll(cfg, hexAt, f, top) && FollowOn(cfg, hexAt, f, top)
    requires ServesAll(hexAt, f, top, answers)
    ensures var (end, d) := Sync(cfg, c, answers);
            && (end == Synced <==> Meets(cfg, hexAt, c.file, f, top))
            && (end == Synced ==> Reached(cfg, hexAt, c.file, f, top, d))
  {
    hide Join, Raws, Sync, Sound, Meets, ServesAll, FollowOn, Short, Bytes, Count, FullOnes, Reached, HasAll, Fresh;
    HonestGather(cfg, hexAt, f, top, answers);
    SoundIffMeets(cfg, hexAt, c.file, f, top);
    SyncedIff(cfg, c, answers);
    assert cfg.startPoint + |c.file| / cfg.headerSize - 1 == f;
    if Sync(cfg, c, answers).0 == Synced {
      SyncReaches(cfg, hexAt, c, f, top, answers);
    }
  }
  lemma JoinLengths(cfg: Config, hexAt: int -> string, file: seq<Byte>, f: int, top: int)
    requires cfg.headerSize > 0 && HasAll(cfg, hexAt, f, top) && |file| % cfg.headerSize == 0
    ensures |file + Join(Raws(cfg, hexAt, f, top))| % cfg.headerSize == 0
  {
    RawsSized(cfg, hexAt, f, top);
    hide Convert, Join;
    var raws := Raws(cfg, hexAt, f, top);
    JoinLength(cfg.headerSize, raws);
    MultipleOf(|raws|, cfg.headerSize);
    WholeRecords(cfg.headerSize, |file|, |Join(raws)|);
  }

  lemma HonestHasAll(cfg: Config, hexAt: int -> string, f: int, top: int)
    requires cfg.startPoint - 1 <= f <= top && Honest(cfg, hexAt, top)
    ensures HasAll(cfg, hexAt, f, top) && FollowOn(cfg, hexAt, f, top)
  {
    hide Convert, HdrAt;
  }

  /** A file of the server's own headers is sound, and so are its records. */
  lemma ServersFile(cfg: Config, hexAt: int -> string, f: int)
    requires cfg.headerSize > 0 && cfg.startPoint - 1 <= f && Honest(cfg, hexAt, f)
    ensures HasAll(cfg, hexAt, cfg.startPoint - 1, f)
    ensures var file := Join(Raws(cfg, hexAt, cfg.startPoint - 1, f));
            && |file| % cfg.headerSize == 0 && |file| / cfg.headerSize == f - cfg.startPoint + 1
            && Sound(cfg, file, f)
            && forall h :: cfg.startPoint <= h <= f ==>
                 RecordIs(cfg, Cut(cfg.headerSize, file), h, HdrAt(cfg, hexAt, h))
  {
    var low := cfg.startPoint - 1;
    HonestHasAll(cfg, hexAt, low, f);
    hide Convert, HdrAt, Raws, Honest;
    var raws := Raws(cfg, hexAt, low, f);
    RawsSized(cfg, hexAt, low, f);
    JoinLength(cfg.headerSize, raws);
    MultipleOf(|raws|, cfg.headerSize);
    assert Sound(cfg, [], low);
    SoundIffMeets(cfg, hexAt, [], low, f);
    AddedRecords(cfg, hexAt, [], low, f);
    assert [] + Join(raws) == Join(raws);
  }

  /** With an honest server, starting from none or some of its headers, the sync succeeds and leaves the server's chain
      up to its tip. */
  lemma HonestSync(cfg: Config, hexAt: int -> string, c: Chain, f: int, top: int, answers: seq<Answer>)
    requires cfg.headerSize > 0 && Fresh(c) && cfg.startPoint - 1 <= f <= top && cfg.startPoint <= top
    requires Honest(cfg, hexAt, top) && ServesAll(hexAt, f, top, answers)
    requires HasAll(cfg, hexAt, cfg.startPoint - 1, f) && c.file == Join(Raws(cfg, hexAt, cfg.startPoint - 1, f))
    ensures var (end, d) := Sync(cfg, c, answers);
            end == Synced && d.tip == top && ChainOk(cfg, d) && AgreesTo(cfg, hexAt, d, top)
  {
    assert Honest(cfg, hexAt, f);
    HonestHasAll(cfg, hexAt, f, top);
    ServersFile(cfg, hexAt, f);
    assert Meets(cfg, hexAt, c.file, f, top) by {
      if cfg.startPoint <= f < top {
        assert RecordIs(cfg, Cut(cfg.headerSize, c.file), f, HdrAt(cfg, hexAt, f));
      }
    }
    hide Sync, Meets, Sound, ServesAll, ChainOk, Raws, Join, Cut, Convert, FollowOn;
    SyncsIffMeets(cfg, hexAt, c, f, top, answers);
    var d := Sync(cfg, c, answers).1;
    forall h | cfg.startPoint <= h <= top ensures h in d.hdrs && d.hdrs[h] == HdrAt(cfg, hexAt, h) {
      if h <= f {
        assert RecordIs(cfg, Cut(cfg.headerSize, c.file), h, HdrAt(cfg, hexAt, h));
      }
    }
  }

  lemma GoodFile(cfg: Config, c: Chain)
    requires cfg.headerSize > 0 && ChainOk(cfg, c)
    ensures |c.file| % cfg.headerSize == 0 && |c.file| / cfg.headerSize == c.tip - cfg.startPoint + 1
    ensures Sound(cfg, c.file, c.tip)
    ensures forall h :: cfg.startPoint <= h <= c.tip ==> RecordIs(cfg, Cut(cfg.headerSize, c.file), h, c.hdrs[h])
  {
    hide Cut;
    CutWhole(cfg.headerSize, c.file);
    var recs := Cut(cfg.headerSize, c.file);
    forall h | cfg.startPoint <= h <= c.tip ensures RecordIs(cfg, recs, h, c.hdrs[h]) {
      assert cfg.deserialize(recs[h - cfg.startPoint]) == Some(c.hdrs[h]);
    }
    forall i | 0 <= i < |recs| ensures cfg.deserialize(recs[i]).Some? {
      assert RecordIs(cfg, recs, cfg.startPoint + i, c.hdrs[cfg.startPoint + i]);
    }
    forall i | 0 < i <= c.tip - cfg.startPoint ensures Joined(cfg, recs, i) {
      var h := cfg.startPoint + i;
      JoinedIff(cfg, recs, h, c.hdrs[h], c.hdrs[h - 1]);
    }
  }

  /** A restart against a server that has gone on: it succeeds exactly if the server still has our last header's hash
      where we had it, and then it keeps our headers and adds the server's. If the server has moved to another branch
      meanwhile no restart syncs, as a sync takes nothing off the file. */
  lemma RestartSyncsIff(cfg: Config, hexAt: int -> string, before: Chain, restarted: Chain, top: int,
                        answers: seq<Answer>)
    requires cfg.headerSize > 0 && ChainOk(cfg, before) && Fresh(restarted) && restarted.file == before.file
    requires Honest(cfg, hexAt, top) && before.tip < top && ServesAll(hexAt, before.tip, top, answers)
    ensures Convert(cfg, hexAt(before.tip)).Some?
    ensures var (end, d) := Sync(cfg, restarted, answers);
            && (end == Synced <==> before.hdrs[before.tip].hash == HdrAt(cfg, hexAt, before.tip).hash)
            && (end == Synced ==>
                 && d.tip == top && ChainOk(cfg, d) && SameUpTo(cfg, before, d, before.tip)
                 && forall h :: before.tip < h <= top ==> d.hdrs[h] == HdrAt(cfg, hexAt, h))
  {
    GoodFile(cfg, before);
    HonestHasAll(cfg, hexAt, before.tip, top);
    assert Convert(cfg, hexAt(before.tip)).Some?;
    assert HdrAt(cfg, hexAt, before.tip + 1).prev == HdrAt(cfg, hexAt, before.tip).hash;
    assert RecordIs(cfg, Cut(cfg.headerSize, before.file), before.tip, before.hdrs[before.tip]);
    hide Sync, Sound, ServesAll, ChainOk, Raws, Join, Cut, Convert, FollowOn, HdrAt;
    SyncsIffMeets(cfg, hexAt, restarted, before.tip, top, answers);
    var d := Sync(cfg, restarted, answers).1;
    if Sync(cfg, restarted, answers).0 == Synced {
      forall h | cfg.startPoint <= h <= before.tip ensures h in before.hdrs && d.hdrs[h] == before.hdrs[h] {
        assert RecordIs(cfg, Cut(cfg.headerSize, before.file), h, before.hdrs[h]);
      }
    }
  }
}
