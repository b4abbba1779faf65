/** Matching responses to requests over one server connection, with any number of requesters and one listener. */
module ServerConns {
  const UINT64: nat := 0x1_0000_0000_0000_0000

  /** A response channel, named by its request: buffer of one, and how often it was sent to and closed. */
  datatype Channel = Channel(queue: seq<nat>, closed: bool, sends: nat, closes: nat)

  const NEW_CHANNEL: Channel := Channel([], false, 0, 0)

  /** The shared part: the id counter, the handler of each pending id, the channels. */
  datatype Conn = Conn(reqID: nat, handlers: map<nat, nat>, chans: map<nat, Channel>)

  function WithNextID(c: Conn): Conn {
    c.(reqID := (c.reqID + 1) % UINT64)
  }

  function WithHandler(c: Conn, id: nat, r: nat): Conn {
    c.(chans := c.chans[r := NEW_CHANNEL], handlers := c.handlers[id := r])
  }

  function WithoutHandler(c: Conn, id: nat): Conn {
    c.(handlers := c.handlers - {id})
  }

  /** A send that neither panics nor blocks. */
  predicate CanSend(c: Conn, r: nat) {
    r in c.chans && !c.chans[r].closed && c.chans[r].queue == []
  }

  function WithSend(c: Conn, r: nat, id: nat): Conn
    requires CanSend(c, r)
  {
    c.(chans := c.chans[r := c.chans[r].(queue := [id], sends := c.chans[r].sends + 1)])
  }

  /** Closing all pending channels panics on none: each is open and pending under one id. */
  ghost predicate CanCancel(c: Conn) {
    && (forall id :: id in c.handlers ==> c.handlers[id] in c.chans && !c.chans[c.handlers[id]].closed)
    && (forall i, j :: i in c.handlers && j in c.handlers && i != j ==> c.handlers[i] != c.handlers[j])
  }

  function Shut(ch: Channel): Channel {
    ch.(closed := true, closes := ch.closes + 1)
  }

  function WithCancelled(c: Conn): Conn {
    c.(handlers := map[],
       chans := map r | r in c.chans :: if r in c.handlers.Values then Shut(c.chans[r]) else c.chans[r])
  }

  class ServerConn {
    var reqID: nat
    var respHandlers: map<nat, nat>
    var chans: map<nat, Channel>

    function State(): Conn
      reads this
    {
      Conn(reqID, respHandlers, chans)
    }

    constructor ()
      ensures State() == Conn(0, map[], map[])
    {
      reqID, respHandlers, chans := 0, map[], map[];
    }

    method NextID() returns (id: nat)
      modifies `reqID
      ensures State() == WithNextID(old(State())) && id == reqID == (old(reqID) + 1) % 0x1_0000_0000_0000_0000
    {
      reqID := (reqID + 1) % UINT64;
      id := reqID;
    }

    method RegisterRequest(id: nat, r: nat)
      requires r !in chans
      modifies this
      ensures State() == WithHandler(old(State()), id, r)
    {
      chans := chans[r := NEW_CHANNEL];
      respHandlers := respHandlers[id := r];
    }

    /** The handler of an id, at most once; false for an unknown or repeated id. */
    method ResponseChan(id: nat) returns (found: bool, r: nat)
      modifies `respHandlers
      ensures State() == WithoutHandler(old(State()), id)
      ensures found <==> id in old(respHandlers)
      ensures found ==> r == old(respHandlers)[id]
    {
      found, r := id in respHandlers, 0;
      if found {
        r := respHandlers[id];
      }
      respHandlers := respHandlers - {id};
    }

    method Send(r: nat, id: nat)
      requires CanSend(State(), r)
      modifies `chans
      ensures State() == WithSend(old(State()), r, id)
    {
      chans := chans[r := chans[r].(queue := [id], sends := chans[r].sends + 1)];
    }

    /** Closes and forgets every pending channel, in no particular order. */
    method CancelRequests()
      requires CanCancel(State())
      modifies this
      ensures State() == WithCancelled(old(State()))
    {
      hide HalfCancelled, CanCancel, WithCancelled;
      ghost var was := State();
      NoneCancelled(was);
      while respHandlers != map[]
        invariant HalfCancelled(was, State())
        decreases |respHandlers.Keys|
      {
        assert respHandlers.Keys != {};
        var id :| id in respHandlers;
        ghost var before := State();
        OneCancelled(was, State(), id);
        SmallerWithout(respHandlers, id);
        chans := chans[respHandlers[id] := Shut(chans[respHandlers[id]])];
        respHandlers := respHandlers - {id};
        assert State() == before.(handlers := respHandlers, chans := chans);
      }
      AllCancelled(was, State());
    }
  }

  /** On the way to cancelling all of was: what is no longer pending is shut, the rest is as it was. */
  ghost predicate HalfCancelled(was: Conn, c: Conn) {
    && c.reqID == was.reqID && c.chans.Keys == was.chans.Keys && CanCancel(was)
    && (forall id :: id in c.handlers ==> id in was.handlers && c.handlers[id] == was.handlers[id])
    && (forall id :: id in was.handlers ==>
          c.chans[was.handlers[id]]
            == if id in c.handlers then was.chans[was.handlers[id]] else Shut(was.chans[was.handlers[id]]))
    && (forall r :: r in was.chans && r !in was.handlers.Values ==> c.chans[r] == was.chans[r])
  }

  lemma NoneCancelled(c: Conn)
    requires CanCancel(c)
    ensures HalfCancelled(c, c)
  {
  }

  lemma OneCancelled(was: Conn, c: Conn, id: nat)
    requires HalfCancelled(was, c) && id in c.handlers
    ensures c.handlers[id] in c.chans
    ensures var r := c.handlers[id];
            HalfCancelled(was, c.(handlers := c.handlers - {id}, chans := c.chans[r := Shut(c.chans[r])]))
  {
    assert c.handlers[id] in was.handlers.Values;
  }

  lemma SmallerWithout(m: map<nat, nat>, k: nat)
    requires k in m
    ensures |(m - {k}).Keys| < |m.Keys|
  {
    assert m.Keys == (m - {k}).Keys + {k};
  }

  lemma AllCancelled(was: Conn, c: Conn)
    requires HalfCancelled(was, c) && c.handlers == map[]
    ensures c == WithCancelled(was)
  {
    assert c.chans == WithCancelled(was).chans;
  }

  /** Where a requester is. Done holds the id of what it received, if it received anything. */
  datatype Requester = Numbered(id: nat) | Waiting(id: nat) | Done(id: nat, got: Reply)

  datatype Reply = Nothing | Closed | Response(of: nat)

  /** Holding: the listener has taken a handler and is about to send. */
  datatype Listener = Reading | Holding(chan: nat, id: nat) | Stopped

  datatype World = World(conn: Conn, requesters: map<nat, Requester>, listener: Listener, cancelled: bool)

  /** What can happen next. Message carries any id the server cares to send. */
  datatype Action =
    | TakeID(r: nat)
    | Register(r: nat)
    | GiveUp(r: nat)
    | Receive(r: nat)
    | Message(id: nat)
    | Deliver
    | Stop

  predicate Enabled(w: World, a: Action) {
    match a
    case TakeID(r) => r !in w.requesters && r !in w.conn.chans
    case Register(r) => r in w.requesters && w.requesters[r].Numbered?
    case GiveUp(r) => r in w.requesters && !w.requesters[r].Done?
    case Receive(r) => r in w.requesters && w.requesters[r].Waiting? && r in w.conn.chans
                       && (w.conn.chans[r].queue != [] || w.conn.chans[r].closed)
    case Message(id) => w.listener.Reading?
    case Deliver => w.listener.Holding?
    case Stop => w.listener.Reading?
  }

  /** A send that would panic or block leaves the world as it was; SafeRun shows there is none. */
  function Next(w: World, a: Action): World
    requires Enabled(w, a)
  {
    var c := w.conn;
    match a
    case TakeID(r) =>
      w.(conn := WithNextID(c), requesters := w.requesters[r := Numbered(WithNextID(c).reqID)])
    case Register(r) =>
      var id := w.requesters[r].id;
      w.(conn := WithHandler(c, id, r), requesters := w.requesters[r := Waiting(id)])
    case GiveUp(r) =>
      w.(requesters := w.requesters[r := Done(w.requesters[r].id, Nothing)],
         cancelled := w.cancelled || w.requesters[r].Waiting?)
    case Receive(r) =>
      var ch := c.chans[r];
      if ch.queue == [] then w.(requesters := w.requesters[r := Done(w.requesters[r].id, Closed)])
      else w.(conn := c.(chans := c.chans[r := ch.(queue := [])]),
              requesters := w.requesters[r := Done(w.requesters[r].id, Response(ch.queue[0]))])
    case Message(id) =>
      if id in c.handlers then w.(conn := WithoutHandler(c, id), listener := Holding(c.handlers[id], id)) else w
    case Deliver =>
      if CanSend(c, w.listener.chan)
      then w.(conn := WithSend(c, w.listener.chan, w.listener.id), listener := Reading)
      else w
    case Stop =>
      w.(conn := WithCancelled(c), listener := Stopped, cancelled := true)
  }

  const START: World := World(Conn(0, map[], map[]), map[], Reading, false)

  /** Still to be served: pending under its id, or in the listener's hand. */
  predicate Pending(w: World, r: nat)
    requires r in w.requesters
  {
    var id := w.requesters[r].id;
    (id in w.conn.handlers && w.conn.handlers[id] == r) || w.listener == Holding(r, id)
  }

  /** The channel of a request is untouched while the request is pending, and afterwards was either sent its own
      response, once, or closed, once. */
  ghost predicate ServedOnce(w: World, r: nat)
    requires r in w.requesters && r in w.conn.chans
  {
    var ch, id := w.conn.chans[r], w.requesters[r].id;
    && (Pending(w, r) ==> ch == NEW_CHANNEL)
    && (!Pending(w, r) ==> ch.sends + ch.closes == 1)
    && (ch.closed <==> ch.closes > 0)
    && (ch.queue == [] || (ch.queue == [id] && ch.sends == 1))
  }

  /** Ids are distinct and counted without a gap. */
  ghost predicate IdsOk(w: World) {
    && w.conn.reqID == |w.requesters| < UINT64
    && (forall r :: r in w.requesters ==> 0 < w.requesters[r].id <= w.conn.reqID)
    && (forall r, q :: r in w.requesters && q in w.requesters && r != q ==> w.requesters[r].id != w.requesters[q].id)
  }

  ghost predicate HandlersOk(w: World) {
    && (forall id :: id in w.conn.handlers ==>
          var r := w.conn.handlers[id]; r in w.requesters && r in w.conn.chans && w.requesters[r].id == id)
    && (w.listener.Holding? ==>
          var r := w.listener.chan;
          r in w.requesters && r in w.conn.chans && w.requesters[r].id == w.listener.id
            && w.listener.id !in w.conn.handlers)
  }

  ghost predicate ChannelsOk(w: World) {
    && (forall r :: r in w.conn.chans ==> r in w.requesters && !w.requesters[r].Numbered? && ServedOnce(w, r))
    && (forall r :: r in w.requesters && w.requesters[r].Waiting? ==> r in w.conn.chans)
  }

  /** The requester has received the response to its own request. */
  predicate Answered(w: World, r: nat)
    requires r in w.requesters
  {
    w.requesters[r] == Done(w.requesters[r].id, Response(w.requesters[r].id))
  }

  /** The requester stopped waiting with nothing. */
  predicate LeftEmpty(w: World, r: nat)
    requires r in w.requesters
  {
    r in w.conn.chans && w.requesters[r].Done? && w.requesters[r].got.Nothing?
  }

  /** It is answered exactly when a response was sent to it and is no longer in its channel; only a closed channel
      reports itself closed, and none is before the listener stops. */
  ghost predicate ReplyOk(w: World, r: nat)
    requires r in w.requesters
  {
    var q := w.requesters[r];
    && (r in w.conn.chans ==> (Answered(w, r) <==> w.conn.chans[r].sends == 1 && w.conn.chans[r].queue == []))
    && (q.Done? && q.got.Response? ==> Answered(w, r) && r in w.conn.chans)
    && (q.Done? && q.got.Closed? ==> r in w.conn.chans && w.conn.chans[r].closes == 1)
    && (r in w.conn.chans && w.conn.chans[r].closes > 0 ==> w.listener.Stopped?)
  }

  /** Nobody stops waiting with nothing unless the node is being cancelled. */
  ghost predicate CancelledIff(w: World) {
    w.cancelled <==> w.listener.Stopped? || exists r :: r in w.requesters && LeftEmpty(w, r)
  }

  ghost predicate RepliesOk(w: World) {
    (forall r :: r in w.requesters ==> ReplyOk(w, r)) && CancelledIff(w)
  }

  ghost predicate Inv(w: World) {
    IdsOk(w) && HandlersOk(w) && ChannelsOk(w) && RepliesOk(w)
  }

  /** Whatever the listener does next, it sends to no closed or full channel and closes no channel twice. */
  ghost predicate SafeNext(w: World) {
    && (w.listener.Holding? ==> CanSend(w.conn, w.listener.chan))
    && (w.listener.Reading? ==> CanCancel(w.conn))
  }

  lemma InvIsSafe(w: World)
    requires Inv(w)
    ensures SafeNext(w)
  {
    if w.listener.Holding? {
      assert ServedOnce(w, w.listener.chan);
    }
    forall id | id in w.conn.handlers
      ensures w.conn.handlers[id] in w.conn.chans && !w.conn.chans[w.conn.handlers[id]].closed {
      assert ServedOnce(w, w.conn.handlers[id]);
    }
  }

  ghost predicate Run(worlds: seq<World>, actions: seq<Action>) {
    && |worlds| == |actions| + 1 && worlds[0] == START
    && forall i :: 0 <= i < |actions| ==> RunAt(worlds, actions, i)
  }

  ghost predicate RunAt(worlds: seq<World>, actions: seq<Action>, i: nat)
    requires i < |actions| && |worlds| == |actions| + 1
  {
    Enabled(worlds[i], actions[i]) && worlds[i + 1] == Next(worlds[i], actions[i])
      && |worlds[i + 1].requesters| < UINT64
  }

  lemma SameIds(w: World, v: World)
    requires IdsOk(w) && v.conn.reqID == w.conn.reqID && v.requesters.Keys == w.requesters.Keys
    requires forall r :: r in w.requesters ==> v.requesters[r].id == w.requesters[r].id
    ensures IdsOk(v)
  {
    assert |v.requesters| == |v.requesters.Keys| && |w.requesters| == |w.requesters.Keys|;
  }

  lemma OneMore(m: map<nat, Requester>, r: nat, x: Requester)
    requires r !in m
    ensures |m[r := x]| == |m| + 1
  {
    assert m[r := x].Keys == m.Keys + {r};
    assert |m[r := x]| == |m[r := x].Keys| && |m| == |m.Keys|;
  }

  lemma TakeIDKeepsIds(w: World, r: nat, v: World)
    requires IdsOk(w) && r !in w.requesters && v.conn == WithNextID(w.conn)
             && v.requesters == w.requesters[r := Numbered(v.conn.reqID)]
    requires |v.requesters| < UINT64
    ensures IdsOk(v)
  {
    OneMore(w.requesters, r, Numbered(v.conn.reqID));
    assert v.conn.reqID == w.conn.reqID + 1;
  }

  lemma StepKeepsIds(w: World, a: Action)
    requires Inv(w) && Enabled(w, a) && |Next(w, a).requesters| < UINT64
    ensures IdsOk(Next(w, a))
  {
    hide HandlersOk, ChannelsOk;
    hide IdsOk;
    if a.TakeID? {
      TakeIDKeepsIds(w, a.r, Next(w, a));
    } else {
      SameIds(w, Next(w, a));
    }
  }

  lemma RegisterKeepsHandlers(w: World, q: nat)
    requires Inv(w) && Enabled(w, Register(q))
    ensures HandlersOk(Next(w, Register(q)))
  {
    assert q !in w.conn.chans;
    hide ServedOnce, ChannelsOk;
  }

  lemma MessageKeepsHandlers(w: World, id: nat)
    requires HandlersOk(w) && Enabled(w, Message(id))
    ensures HandlersOk(Next(w, Message(id)))
  {
  }

  lemma OthersKeepHandlers(w: World, a: Action)
    requires HandlersOk(w) && Enabled(w, a) && !a.Register? && !a.Message?
    ensures HandlersOk(Next(w, a))
  {
    hide CanSend;
  }

  lemma StepKeepsHandlers(w: World, a: Action)
    requires Inv(w) && Enabled(w, a)
    ensures HandlersOk(Next(w, a))
  {
    hide IdsOk, ChannelsOk, HandlersOk, Next, Enabled;
    match a
    case Register(q) => RegisterKeepsHandlers(w, q);
    case Message(id) => MessageKeepsHandlers(w, id);
    case _ => OthersKeepHandlers(w, a);
  }

  /** What one step means for one channel. */
  lemma StepKeepsChannel(w: World, a: Action, r: nat)
    requires Inv(w) && Enabled(w, a) && r in Next(w, a).conn.chans
    ensures r in Next(w, a).requesters && !Next(w, a).requesters[r].Numbered? && ServedOnce(Next(w, a), r)
  {
    match a
    case TakeID(q) => Untouched(w, a, r);
    case GiveUp(q) => Untouched(w, a, r);
    case Register(q) => RegisterKeepsChannel(w, q, r);
    case Receive(q) => ReceiveKeepsChannel(w, q, r);
    case Message(id) => MessageKeepsChannel(w, id, r);
    case Deliver => DeliverKeepsChannel(w, r);
    case Stop => StopKeepsChannel(w, r);
  }

  lemma Untouched(w: World, a: Action, r: nat)
    requires Inv(w) && Enabled(w, a) && (a.TakeID? || a.GiveUp?) && r in w.conn.chans
    ensures r in Next(w, a).requesters && !Next(w, a).requesters[r].Numbered? && ServedOnce(Next(w, a), r)
  {
    hide IdsOk, HandlersOk;
    assert ServedOnce(w, r);
  }

  lemma RegisterKeepsChannel(w: World, q: nat, r: nat)
    requires Inv(w) && Enabled(w, Register(q)) && r in Next(w, Register(q)).conn.chans
    ensures r in w.requesters && !Next(w, Register(q)).requesters[r].Numbered? && ServedOnce(Next(w, Register(q)), r)
  {
    hide HandlersOk;
    if r != q {
      assert ServedOnce(w, r);
      assert w.requesters[r].id != w.requesters[q].id;
    }
  }

  lemma ReceiveKeepsChannel(w: World, q: nat, r: nat)
    requires Inv(w) && Enabled(w, Receive(q)) && r in w.conn.chans
    ensures r in w.requesters && !Next(w, Receive(q)).requesters[r].Numbered? && ServedOnce(Next(w, Receive(q)), r)
  {
    hide IdsOk, HandlersOk;
    assert ServedOnce(w, r);
  }

  lemma MessageKeepsChannel(w: World, id: nat, r: nat)
    requires Inv(w) && Enabled(w, Message(id)) && r in w.conn.chans
    ensures r in w.requesters && !w.requesters[r].Numbered? && ServedOnce(Next(w, Message(id)), r)
  {
    assert ServedOnce(w, r);
    hide ChannelsOk;
    if id in w.conn.handlers && w.requesters[r].id == id {
      assert w.conn.handlers[id] == r;
    }
  }

  lemma DeliverKeepsChannel(w: World, r: nat)
    requires Inv(w) && Enabled(w, Deliver) && r in w.conn.chans
    ensures r in w.requesters && !w.requesters[r].Numbered? && ServedOnce(Next(w, Deliver), r)
  {
    InvIsSafe(w);
    assert ServedOnce(w, r) && ServedOnce(w, w.listener.chan);
    hide ChannelsOk, IdsOk;
  }

  lemma StopKeepsChannel(w: World, r: nat)
    requires Inv(w) && Enabled(w, Stop) && r in w.conn.chans
    ensures r in w.requesters && !w.requesters[r].Numbered? && ServedOnce(Next(w, Stop), r)
  {
    assert ServedOnce(w, r);
    hide ChannelsOk, IdsOk;
    if r in w.conn.handlers.Values {
      var id :| id in w.conn.handlers && w.conn.handlers[id] == r;
      assert w.requesters[r].id == id;
    }
  }

  /** Whoever waits has a channel to wait on. */
  lemma StepKeepsWaiting(w: World, a: Action)
    requires ChannelsOk(w) && Enabled(w, a)
    ensures var v := Next(w, a); forall r :: r in v.requesters && v.requesters[r].Waiting? ==> r in v.conn.chans
  {
    hide ServedOnce;
  }

  lemma StepKeepsChannels(w: World, a: Action)
    requires Inv(w) && Enabled(w, a)
    ensures ChannelsOk(Next(w, a))
  {
    StepKeepsWaiting(w, a);
    forall r | r in Next(w, a).conn.chans
      ensures r in Next(w, a).requesters && !Next(w, a).requesters[r].Numbered? && ServedOnce(Next(w, a), r)
    {
      StepKeepsChannel(w, a, r);
    }
    hide Inv, Enabled, ServedOnce, Next;
  }

  /** A requester that takes what is in its channel gets its own response if one was sent, and a closed channel
      otherwise; nobody else notices. */
  lemma ReceiveGets(w: World, r: nat)
    requires Inv(w) && Enabled(w, Receive(r))
    ensures var ch, id, v := w.conn.chans[r], w.requesters[r].id, Next(w, Receive(r));
            && ch.sends + ch.closes == 1
            && (ch.sends == 1 ==> v.requesters == w.requesters[r := Done(id, Response(id))])
            && (ch.closes == 1 ==> v.requesters == w.requesters[r := Done(id, Closed)])
            && v.conn.chans == w.conn.chans[r := ch.(queue := [])]
            && v.conn.handlers == w.conn.handlers && v.listener == w.listener && v.cancelled == w.cancelled
  {
    hide IdsOk, HandlersOk, RepliesOk;
    assert ServedOnce(w, r);
  }

  /** The server's message with the id of a pending request reaches the requester, and nobody else. */
  lemma MessageReaches(w: World, r: nat)
    requires Inv(w) && w.listener.Reading? && r in w.requesters && w.requesters[r].Waiting?
    requires var id := w.requesters[r].id; id in w.conn.handlers && w.conn.handlers[id] == r
    ensures var id := w.requesters[r].id;
            var v := Next(w, Message(id));
            && Enabled(v, Deliver)
            && var x := Next(v, Deliver);
               && x.conn.chans == w.conn.chans[r := Channel([id], false, 1, 0)]
               && x.conn.handlers == w.conn.handlers - {id}
               && x.requesters == w.requesters && x.listener == Reading && x.cancelled == w.cancelled
               && Enabled(x, Receive(r)) && Answered(Next(x, Receive(r)), r)
  {
    hide IdsOk, HandlersOk, RepliesOk;
    assert ServedOnce(w, r);
  }

  /** A message for no pending request is dropped. */
  lemma StrangerIsDropped(w: World, id: nat)
    requires w.listener.Reading? && id !in w.conn.handlers
    ensures Next(w, Message(id)) == w
  {
  }

  /** When the listener stops, everybody still waiting has something to take: a response sent before, or a closed
      channel. */
  lemma StopReleases(w: World)
    requires Inv(w) && Enabled(w, Stop)
    ensures var v := Next(w, Stop);
            && v.listener.Stopped? && v.cancelled && v.conn.handlers == map[]
            && forall r :: r in v.requesters && v.requesters[r].Waiting? ==>
                 && Enabled(v, Receive(r))
                 && (v.conn.chans[r].closed <==> w.requesters[r].id in w.conn.handlers)
  {
    forall r | r in w.requesters && w.requesters[r].Waiting?
      ensures r in w.conn.chans && Enabled(Next(w, Stop), Receive(r))
      ensures Next(w, Stop).conn.chans[r].closed <==> w.requesters[r].id in w.conn.handlers
    {
      ReleasedOne(w, r);
    }
  }

  lemma ReleasedOne(w: World, r: nat)
    requires Inv(w) && Enabled(w, Stop) && r in w.requesters && w.requesters[r].Waiting?
    ensures r in w.conn.chans && Enabled(Next(w, Stop), Receive(r))
    ensures Next(w, Stop).conn.chans[r].closed <==> w.requesters[r].id in w.conn.handlers
  {
    assert ServedOnce(w, r) && ReplyOk(w, r) && r in w.conn.chans;
    assert r in w.conn.handlers.Values <==> w.requesters[r].id in w.conn.handlers by { PendingHere(w, r); }
    hide IdsOk, HandlersOk, ChannelsOk, RepliesOk;
  }

  /** A request is pending under its own id or not at all. */
  lemma PendingHere(w: World, r: nat)
    requires IdsOk(w) && HandlersOk(w) && r in w.requesters
    ensures r in w.conn.handlers.Values <==> w.requesters[r].id in w.conn.handlers
  {
    var id := w.requesters[r].id;
    if id in w.conn.handlers {
      assert w.conn.handlers[id] == r;
    }
  }

  /** What one step means for one requester: it stays as it was but for its own actions. */
  lemma StepKeepsRequester(w: World, a: Action, r: nat)
    requires Enabled(w, a) && r in w.requesters
    requires !((a.Register? || a.GiveUp? || a.Receive?) && a.r == r)
    ensures r in Next(w, a).requesters && Next(w, a).requesters[r] == w.requesters[r]
  {
  }

  lemma StepKeepsReply(w: World, a: Action, r: nat)
    requires Inv(w) && Enabled(w, a) && r in Next(w, a).requesters
    ensures ReplyOk(Next(w, a), r)
  {
    hide IdsOk, CancelledIff;
    if r in w.requesters {
      assert ReplyOk(w, r) && (r in w.conn.chans ==> ServedOnce(w, r));
    }
    match a
    case TakeID(_) =>
    case Register(_) =>
    case Message(_) =>
    case GiveUp(_) =>
    case Receive(q) => ReceiveGets(w, q);
    case Deliver => DeliverKeepsReply(w, r);
    case Stop => StopKeepsReply(w, r);
  }

  lemma DeliverKeepsReply(w: World, r: nat)
    requires Inv(w) && Enabled(w, Deliver) && r in w.requesters
    ensures ReplyOk(Next(w, Deliver), r)
  {
    InvIsSafe(w);
    assert ReplyOk(w, r) && ServedOnce(w, w.listener.chan);
    hide IdsOk, CancelledIff, ChannelsOk, RepliesOk;
  }

  lemma StopKeepsReply(w: World, r: nat)
    requires Inv(w) && Enabled(w, Stop) && r in w.requesters
    ensures ReplyOk(Next(w, Stop), r)
  {
    assert ReplyOk(w, r);
    if r in w.conn.handlers.Values {
      var id :| id in w.conn.handlers && w.conn.handlers[id] == r;
      assert ServedOnce(w, r);
    }
    hide IdsOk, CancelledIff, ChannelsOk, RepliesOk, HandlersOk;
  }

  lemma StepKeepsCancelled(w: World, a: Action)
    requires Inv(w) && Enabled(w, a)
    ensures CancelledIff(Next(w, a))
  {
    hide IdsOk, HandlersOk;
    var v := Next(w, a);
    assert forall r :: r in w.conn.chans ==> !w.requesters[r].Numbered?;
    assert forall r :: r in w.requesters && w.requesters[r].Waiting? ==> r in w.conn.chans;
    hide ChannelsOk, ReplyOk;
    if a.GiveUp? {
      forall r | r in w.requesters && r != a.r ensures LeftEmpty(v, r) <==> LeftEmpty(w, r) {}
      assert LeftEmpty(v, a.r) <==> w.requesters[a.r].Waiting?;
      assert !LeftEmpty(w, a.r);
    } else {
      forall r | r in w.requesters ensures LeftEmpty(v, r) <==> LeftEmpty(w, r) {}
      assert forall r :: r in v.requesters && r !in w.requesters ==> !LeftEmpty(v, r);
    }
  }

  lemma StepKeepsReplies(w: World, a: Action)
    requires Inv(w) && Enabled(w, a)
    ensures RepliesOk(Next(w, a))
  {
    hide Inv, ReplyOk, CancelledIff, Next, Enabled;
    forall r | r in Next(w, a).requesters ensures ReplyOk(Next(w, a), r) {
      StepKeepsReply(w, a, r);
    }
    StepKeepsCancelled(w, a);
  }

  /** Under every interleaving of requesters with the listener, and whatever ids the server sends: the listener
      never blocks or panics, every channel gets at most one of one response and one close, and exactly one
      once its request is no longer pending, and a requester ends with the response to its own request exactly when
      one was sent and taken. */
  lemma {:induction false} SafeRun(worlds: seq<World>, actions: seq<Action>, n: nat)
    requires Run(worlds, actions) && n <= |actions|
    ensures Inv(worlds[n]) && SafeNext(worlds[n])
    decreases n
  {
    hide Next, Inv, IdsOk, HandlersOk, ChannelsOk, RepliesOk, SafeNext, Enabled;
    if n > 0 {
      SafeRun(worlds, actions, n - 1);
      assert RunAt(worlds, actions, n - 1);
      StepKeepsIds(worlds[n - 1], actions[n - 1]);
      StepKeepsHandlers(worlds[n - 1], actions[n - 1]);
      StepKeepsChannels(worlds[n - 1], actions[n - 1]);
      StepKeepsReplies(worlds[n - 1], actions[n - 1]);
      AllFour(worlds[n]);
    } else {
      StartIsGood();
    }
    InvIsSafe(worlds[n]);
  }

  lemma StartIsGood()
    ensures Inv(START)
  {
  }

  lemma AllFour(w: World)
    requires IdsOk(w) && HandlersOk(w) && ChannelsOk(w) && RepliesOk(w)
    ensures Inv(w)
  {
    hide IdsOk, HandlersOk, ChannelsOk, RepliesOk;
  }
}
