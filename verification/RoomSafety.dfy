/**
 Every interleaving of the relay's connections: registering, looking up a peer, completing a send,
 draining a queue, dropping the receiver, and the disconnect that lands later.
 */
module RoomSafety {
  import opened Prelude
  import opened Limits
  import opened Rooms

  // A frame whose receiver was looked up and which still waits for queue space.
  datatype Sending = Sending(to: Conn, payload: seq<nat>)

  datatype Phase =
    | Running(sending: Option<Sending>)
    | Leaving(peerClose: Option<CloseFrame>)  // receiver dropped, disconnect still to come
    | Telling(to: Conn, frame: CloseFrame)    // room taken out, its survivor still to be told
    | Gone

  datatype Peer = Peer(handle: Handle, role: Role, phase: Phase)

  datatype World = World(hub: Hub, seen: map<Ip, seq<Time>>, peers: map<Conn, Peer>)

  datatype Config = Config(cap: nat, registrationsPerSecond: nat)

  datatype Step =
    | Register(request: Request)
    | Lookup(conn: Conn, payload: seq<nat>)
    | Deliver(conn: Conn)
    | Drain(conn: Conn)
    | DropReceiver(conn: Conn, peerClose: Option<CloseFrame>)
    | Disconnect(conn: Conn)
    | Tell(conn: Conn)

  predicate IsRunning(w: World, c: Conn) {
    c in w.peers && w.peers[c].phase.Running?
  }

  predicate Idle(w: World, c: Conn) {
    IsRunning(w, c) && w.peers[c].phase.sending == None
  }

  function ChannelOf(s: Hub, c: Conn): Channel {
    if c in s.channels then s.channels[c] else Channel(false, [], [], [])
  }

  // A send completes at once into a closed channel (the frame is dropped) and waits for a full one.
  predicate CanSend(w: World, c: Conn) {
    IsRunning(w, c) && w.peers[c].phase.sending.Some?
    && var ch := ChannelOf(w.hub, w.peers[c].phase.sending.value.to);
       !ch.open || |ch.queue| < QUEUE_DEPTH
  }

  predicate Enabled(w: World, step: Step) {
    match step
    case Register(_) => true
    case Lookup(c, _) => Idle(w, c)
    case Deliver(c) => CanSend(w, c)
    case Drain(c) => Idle(w, c) && ChannelOf(w.hub, c).queue != []
    case DropReceiver(c, _) => Idle(w, c)
    case Disconnect(c) => c in w.peers && w.peers[c].phase.Leaving?
    case Tell(c) => c in w.peers && w.peers[c].phase.Telling?
  }

  function Phased(w: World, c: Conn, phase: Phase): World {
    if c in w.peers then w.(peers := w.peers[c := w.peers[c].(phase := phase)]) else w
  }

  function Rechannelled(w: World, c: Conn, ch: Channel): World {
    if c in w.hub.channels then w.(hub := w.hub.(channels := w.hub.channels[c := ch])) else w
  }

  function AfterRegister(cfg: Config, w: World, q: Request): World {
    var allowed := Admits(cfg.registrationsPerSecond, w.seen, q.ip, q.now);
    var answer := RegisterAnswer(w.hub, q, allowed, cfg.cap);
    World(Registered(w.hub, q, allowed, cfg.cap),
          if AsksLimiter(w.hub, q) then AfterAllow(cfg.registrationsPerSecond, w.seen, q.ip, q.now) else w.seen,
          if answer.Joined? then w.peers[answer.conn := Peer(q.handle, q.role, Running(None))] else w.peers)
  }

  function AfterLookup(w: World, c: Conn, payload: seq<nat>): World
    requires c in w.peers
  {
    var to := PeerOf(w.hub, w.peers[c].handle, w.peers[c].role);
    if to.None? then w else Phased(w, c, Running(Some(Sending(to.value, payload))))
  }

  function AfterDeliver(w: World, c: Conn): World
    requires CanSend(w, c)
  {
    var out := w.peers[c].phase.sending.value;
    Phased(Rechannelled(w, out.to, TrySend(ChannelOf(w.hub, out.to), Binary(c, out.payload))), c, Running(None))
  }

  function AfterDrain(w: World, c: Conn): World
    requires ChannelOf(w.hub, c).queue != []
  {
    Rechannelled(w, c, ChannelOf(w.hub, c).(queue := ChannelOf(w.hub, c).queue[1..]))
  }

  function AfterDrop(w: World, c: Conn, peerClose: Option<CloseFrame>): World {
    Phased(Rechannelled(w, c, ChannelOf(w.hub, c).(open := false, queue := [])), c, Leaving(peerClose))
  }

  // The locked half of a disconnect.
  function AfterDisconnect(w: World, c: Conn): World
    requires c in w.peers && w.peers[c].phase.Leaving?
  {
    var p := w.peers[c];
    var survivor := LeftBehind(w.hub, p.handle, p.role, c);
    Phased(w.(hub := Disconnected(w.hub, p.handle, p.role, c)), c,
           if survivor.Some? then Telling(survivor.value, Farewell(p.role, p.phase.peerClose)) else Gone)
  }

  // The close is offered with no lock held.
  function AfterTell(w: World, c: Conn): World
    requires c in w.peers && w.peers[c].phase.Telling?
  {
    Phased(w.(hub := Offer(w.hub, Some(w.peers[c].phase.to), w.peers[c].phase.frame)), c, Gone)
  }

  function Next(cfg: Config, w: World, step: Step): World
    requires Enabled(w, step)
  {
    match step
    case Register(q) => AfterRegister(cfg, w, q)
    case Lookup(c, payload) => AfterLookup(w, c, payload)
    case Deliver(c) => AfterDeliver(w, c)
    case Drain(c) => AfterDrain(w, c)
    case DropReceiver(c, peerClose) => AfterDrop(w, c, peerClose)
    case Disconnect(c) => AfterDisconnect(w, c)
    case Tell(c) => AfterTell(w, c)
  }

  const START: World := World(Hub(map[], map[], 0), map[], map[])

  predicate Possible(cfg: Config, w: World, steps: seq<Step>)
    decreases |steps|
  {
    steps == [] || (Enabled(w, steps[0]) && Possible(cfg, Next(cfg, w, steps[0]), steps[1..]))
  }

  function Run(cfg: Config, w: World, steps: seq<Step>): World
    requires Possible(cfg, w, steps)
    decreases |steps|
  {
    if steps == [] then w else Run(cfg, Next(cfg, w, steps[0]), steps[1..])
  }

  // ---- the invariant ----

  predicate InRoom(w: World, c: Conn) {
    c in w.peers && Owns(w.hub, w.peers[c].handle, w.peers[c].role, c)
  }

  // A slot holds a connection that registered for exactly that slot and has not disconnected.
  predicate SlotOf(w: World, h: Handle, role: Role, c: Conn) {
    && c in w.peers && c in w.hub.channels
    && w.peers[c].handle == h && w.peers[c].role == role
    && (w.peers[c].phase.Running? || w.peers[c].phase.Leaving?)
  }

  predicate RoomInv(w: World) {
    forall h :: h in w.hub.rooms ==>
      && w.hub.rooms[h].host.Some? && SlotOf(w, h, Host, w.hub.rooms[h].host.value)
      && (w.hub.rooms[h].device.Some? ==> SlotOf(w, h, Device, w.hub.rooms[h].device.value))
  }

  // The close codes a survivor can be offered.
  predicate CloseCode(frame: CloseFrame) {
    frame.code == GOING_AWAY || 4000 <= frame.code <= 4999
  }

  // `d` has taken out the room it shared with `c` and still has to tell it.
  predicate Tells(peers: map<Conn, Peer>, d: Conn, c: Conn) {
    d in peers && peers[d].phase.Telling? && peers[d].phase.to == c
  }

  predicate Awaits(peers: map<Conn, Peer>, c: Conn) {
    exists d :: d in peers && Tells(peers, d, c)
  }

  // The closes still waiting in a queue.
  function Closes(queue: seq<Message>): seq<CloseFrame> {
    if queue == [] then []
    else (match queue[0] case Close(frame) => [frame] case Binary(_, _) => []) + Closes(queue[1..])
  }

  lemma {:induction false} ClosesConcatenate(a: seq<Message>, b: seq<Message>)
    ensures Closes(a + b) == Closes(a) + Closes(b)
  {
    if a == [] {
      assert a + b == b;
    } else {
      assert (a + b)[1..] == a[1..] + b;
      ClosesConcatenate(a[1..], b);
    }
  }

  // The queue took the one close it was offered, or lost it; it still holds the one it took, or none.
  predicate SoundCloses(ch: Channel) {
    && |ch.offered| <= 1 && (ch.offered != [] ==> CloseCode(ch.offered[0]))
    && (ch.taken == [] || ch.taken == ch.offered)
    && (Closes(ch.queue) == [] || Closes(ch.queue) == ch.taken)
  }

  // A channel's own state: in its room and offered nothing, or out of it and, while open, either
  // offered exactly one close or still to be told.
  predicate SoundChannel(ch: Channel, phase: Phase, inRoom: bool, awaits: bool) {
    && ch.open == phase.Running?
    && |ch.queue| <= QUEUE_DEPTH && (!ch.open ==> ch.queue == [])
    && SoundCloses(ch)
    && (inRoom ==> ch.offered == [] && !awaits)
    && (awaits ==> ch.offered == [])
    && (ch.open && !inRoom ==> awaits || |ch.offered| == 1)
  }

  predicate Told(w: World, c: Conn) {
    && c in w.hub.channels && c in w.peers && c < w.hub.nextConn
    && SoundChannel(w.hub.channels[c], w.peers[c].phase, InRoom(w, c), Awaits(w.peers, c))
  }

  predicate ChannelInv(w: World) {
    w.peers.Keys == w.hub.channels.Keys && forall c :: c in w.hub.channels ==> Told(w, c)
  }

  // No connection is left for two others to tell.
  predicate TellInv(peers: map<Conn, Peer>) {
    forall d, e :: d in peers && e in peers && peers[d].phase.Telling? && Tells(peers, e, peers[d].phase.to) ==> d == e
  }

  // Two ends of one handle.
  predicate Facing(peers: map<Conn, Peer>, from: Conn, to: Conn) {
    from in peers && to in peers
    && peers[from].handle == peers[to].handle && peers[to].role == Other(peers[from].role)
  }

  predicate QueueFacing(peers: map<Conn, Peer>, c: Conn, queue: seq<Message>) {
    forall k :: 0 <= k < |queue| && queue[k].Binary? ==> Facing(peers, queue[k].from, c)
  }

  predicate PhaseFacing(peers: map<Conn, Peer>, c: Conn, phase: Phase) {
    && (phase.Running? && phase.sending.Some? ==> Facing(peers, c, phase.sending.value.to))
    && (phase.Telling? ==> Facing(peers, c, phase.to) && CloseCode(phase.frame))
  }

  predicate IsolationInv(w: World) {
    && (forall c :: c in w.hub.channels ==> QueueFacing(w.peers, c, w.hub.channels[c].queue))
    && (forall c :: c in w.peers ==> PhaseFacing(w.peers, c, w.peers[c].phase))
  }

  predicate Inv(cfg: Config, w: World) {
    RoomInv(w) && ChannelInv(w) && IsolationInv(w) && TellInv(w.peers) && |w.hub.rooms| <= cfg.cap
  }

  // ---- each step keeps it ----

  // The world after a room whose `gone` side is closed is discarded, with `frame` for the survivor.
  function WithoutRoom(w: World, h: Handle, gone: Role, frame: CloseFrame): World
    requires h in w.hub.rooms
  {
    w.(hub := Discarded(w.hub, h, gone, frame))
  }

  lemma DiscardedChannels(s: Hub, h: Handle, gone: Role, frame: CloseFrame)
    requires h in s.rooms
    ensures var t, survivor := Discarded(s, h, gone, frame), Slot(s.rooms[h], Other(gone));
      && t.rooms == s.rooms - {h} && t.nextConn == s.nextConn && t.channels.Keys == s.channels.Keys
      && forall c :: c in s.channels ==>
        t.channels[c] == if survivor == Some(c)
          then AfterOffer(s.channels[c], frame) else s.channels[c]
  {
  }

  lemma OfferIsSound(ch: Channel, phase: Phase, inRoom: bool, awaits: bool, frame: CloseFrame)
    requires SoundChannel(ch, phase, inRoom, awaits) && ch.offered == [] && CloseCode(frame)
    ensures SoundChannel(AfterOffer(ch, frame), phase, false, false)
  {
    ClosesConcatenate(ch.queue, [Close(frame)]);
    assert Closes([Close(frame)]) == [frame];
  }

  lemma DiscardKeepsTold(w: World, h: Handle, gone: Role, frame: CloseFrame, c: Conn)
    requires RoomInv(w) && h in w.hub.rooms && CloseCode(frame)
    requires Vacated(w.hub, Slot(w.hub.rooms[h], gone))
    requires Told(w, c)
    ensures Told(WithoutRoom(w, h, gone, frame), c)
  {
    DiscardedChannels(w.hub, h, gone, frame);
    var t, ch := WithoutRoom(w, h, gone, frame), w.hub.channels[c];
    var survivor := Slot(w.hub.rooms[h], Other(gone));
    assert survivor.Some? ==> SlotOf(w, h, Other(gone), survivor.value);
    if survivor == Some(c) {
      assert InRoom(w, c) && !InRoom(t, c);
      OfferIsSound(ch, w.peers[c].phase, InRoom(w, c), Awaits(w.peers, c), frame);
    } else if w.peers[c].handle == h {
      assert InRoom(w, c) ==> !ch.open;
    } else {
      assert InRoom(w, c) == InRoom(t, c);
    }
  }

  lemma DiscardKeepsRooms(w: World, h: Handle, gone: Role, frame: CloseFrame)
    requires RoomInv(w) && h in w.hub.rooms
    ensures RoomInv(WithoutRoom(w, h, gone, frame))
    ensures |WithoutRoom(w, h, gone, frame).hub.rooms| <= |w.hub.rooms|
  {
    DiscardedChannels(w.hub, h, gone, frame);
    var t := WithoutRoom(w, h, gone, frame);
    forall k | k in t.hub.rooms
      ensures t.hub.rooms[k].host.Some? && SlotOf(t, k, Host, t.hub.rooms[k].host.value)
      ensures t.hub.rooms[k].device.Some? ==> SlotOf(t, k, Device, t.hub.rooms[k].device.value)
    {
      assert SlotOf(w, k, Host, w.hub.rooms[k].host.value);
    }
    assert t.hub.rooms.Keys == w.hub.rooms.Keys - {h};
    assert |t.hub.rooms.Keys| <= |w.hub.rooms.Keys|;
  }

  lemma DiscardKeepsIsolation(w: World, h: Handle, gone: Role, frame: CloseFrame)
    requires IsolationInv(w) && h in w.hub.rooms
    ensures IsolationInv(WithoutRoom(w, h, gone, frame))
  {
    DiscardedChannels(w.hub, h, gone, frame);
    var t := WithoutRoom(w, h, gone, frame);
    forall c | c in t.hub.channels
      ensures QueueFacing(t.peers, c, t.hub.channels[c].queue)
    {
      assert QueueFacing(w.peers, c, w.hub.channels[c].queue);
    }
  }

  lemma DiscardKeeps(cfg: Config, w: World, h: Handle, gone: Role, frame: CloseFrame)
    requires Inv(cfg, w) && h in w.hub.rooms && CloseCode(frame)
    requires Vacated(w.hub, Slot(w.hub.rooms[h], gone))
    ensures Inv(cfg, WithoutRoom(w, h, gone, frame))
  {
    var t := WithoutRoom(w, h, gone, frame);
    forall c | c in w.hub.channels
      ensures Told(t, c)
    {
      DiscardKeepsTold(w, h, gone, frame, c);
    }
    DiscardedChannels(w.hub, h, gone, frame);
    DiscardKeepsRooms(w, h, gone, frame);
    DiscardKeepsIsolation(w, h, gone, frame);
  }

  lemma TeardownKeeps(cfg: Config, w: World, h: Handle)
    requires Inv(cfg, w)
    ensures Inv(cfg, w.(hub := TeardownFinished(w.hub, h)))
    ensures h in TeardownFinished(w.hub, h).rooms ==> ClosedRole(w.hub, w.hub.rooms[h]).None?
  {
    if h in w.hub.rooms && ClosedRole(w.hub, w.hub.rooms[h]).Some? {
      var gone := ClosedRole(w.hub, w.hub.rooms[h]).value;
      DiscardKeeps(cfg, w, h, gone, GoneFrame(gone));
    }
  }

  // A channel that keeps its history, in a world whose phases may have moved on for `c` alone.
  function Moved(w: World, c: Conn, ch: Channel, phase: Phase): World {
    Phased(Rechannelled(w, c, ch), c, phase)
  }

  lemma MoveKeepsRooms(w: World, c: Conn, ch: Channel, phase: Phase)
    requires RoomInv(w) && c in w.peers && c in w.hub.channels
    requires phase.Running? || phase.Leaving? || !InRoom(w, c)
    ensures RoomInv(Moved(w, c, ch, phase))
    ensures forall d :: InRoom(Moved(w, c, ch, phase), d) == InRoom(w, d)
  {
    var t := Moved(w, c, ch, phase);
    forall h | h in t.hub.rooms
      ensures t.hub.rooms[h].host.Some? && SlotOf(t, h, Host, t.hub.rooms[h].host.value)
      ensures t.hub.rooms[h].device.Some? ==> SlotOf(t, h, Device, t.hub.rooms[h].device.value)
    {
      assert SlotOf(w, h, Host, w.hub.rooms[h].host.value);
    }
  }

  // Those who tell are the same when nobody starts or stops telling.
  lemma SameTellers(peers: map<Conn, Peer>, c: Conn, phase: Phase, d: Conn)
    requires c in peers && !peers[c].phase.Telling? && !phase.Telling?
    ensures Awaits(peers[c := peers[c].(phase := phase)], d) == Awaits(peers, d)
  {
    var moved := peers[c := peers[c].(phase := phase)];
    assert forall e :: Tells(moved, e, d) == Tells(peers, e, d);
  }

  lemma PhaseKeepsTellInv(peers: map<Conn, Peer>, c: Conn, phase: Phase)
    requires TellInv(peers) && c in peers && !phase.Telling?
    ensures TellInv(peers[c := peers[c].(phase := phase)])
  {
    var moved := peers[c := peers[c].(phase := phase)];
    assert forall d, x :: Tells(moved, d, x) ==> Tells(peers, d, x);
  }

  lemma MoveKeepsChannels(w: World, c: Conn, ch: Channel, phase: Phase)
    requires RoomInv(w) && ChannelInv(w) && c in w.peers
    requires !w.peers[c].phase.Telling? && !phase.Telling?
    requires SoundChannel(ch, phase, InRoom(w, c), Awaits(w.peers, c)) && (phase == Gone ==> !InRoom(w, c))
    ensures ChannelInv(Moved(w, c, ch, phase))
  {
    assert Told(w, c);
    MoveKeepsRooms(w, c, ch, phase);
    forall d
      ensures Awaits(Moved(w, c, ch, phase).peers, d) == Awaits(w.peers, d)
    {
      SameTellers(w.peers, c, phase, d);
    }
    forall d | d in w.hub.channels
      ensures Told(Moved(w, c, ch, phase), d)
    {
      assert Told(w, d);
    }
  }

  lemma SameSeats(peers: map<Conn, Peer>, c: Conn, phase: Phase, d: Conn, queue: seq<Message>, other: Phase)
    requires c in peers
    ensures var moved := peers[c := peers[c].(phase := phase)];
      QueueFacing(moved, d, queue) == QueueFacing(peers, d, queue)
      && PhaseFacing(moved, d, other) == PhaseFacing(peers, d, other)
  {
    var moved := peers[c := peers[c].(phase := phase)];
    assert forall a, b :: Facing(moved, a, b) == Facing(peers, a, b);
  }

  lemma MoveKeepsIsolation(w: World, c: Conn, ch: Channel, phase: Phase)
    requires ChannelInv(w) && IsolationInv(w) && c in w.peers
    requires QueueFacing(w.peers, c, ch.queue) && PhaseFacing(w.peers, c, phase)
    ensures IsolationInv(Moved(w, c, ch, phase))
  {
    var t := Moved(w, c, ch, phase);
    forall d | d in t.hub.channels
      ensures QueueFacing(t.peers, d, t.hub.channels[d].queue)
      ensures PhaseFacing(t.peers, d, t.peers[d].phase)
    {
      SameSeats(w.peers, c, phase, d, t.hub.channels[d].queue, t.peers[d].phase);
      assert QueueFacing(w.peers, d, w.hub.channels[d].queue) && PhaseFacing(w.peers, d, w.peers[d].phase);
    }
  }

  lemma MoveKeeps(cfg: Config, w: World, c: Conn, ch: Channel, phase: Phase)
    requires Inv(cfg, w) && c in w.peers
    requires !w.peers[c].phase.Telling? && !phase.Telling?
    requires SoundChannel(ch, phase, InRoom(w, c), Awaits(w.peers, c)) && (phase == Gone ==> !InRoom(w, c))
    requires QueueFacing(w.peers, c, ch.queue) && PhaseFacing(w.peers, c, phase)
    ensures Inv(cfg, Moved(w, c, ch, phase))
  {
    MoveKeepsRooms(w, c, ch, phase);
    MoveKeepsChannels(w, c, ch, phase);
    MoveKeepsIsolation(w, c, ch, phase);
    PhaseKeepsTellInv(w.peers, c, phase);
  }

  // A channel that changes while nobody's phase does.
  lemma ChannelKeeps(cfg: Config, w: World, c: Conn, ch: Channel)
    requires Inv(cfg, w) && c in w.peers
    requires SoundChannel(ch, w.peers[c].phase, InRoom(w, c), Awaits(w.peers, c)) && QueueFacing(w.peers, c, ch.queue)
    ensures Inv(cfg, Rechannelled(w, c, ch))
  {
    var t := Rechannelled(w, c, ch);
    forall h | h in t.hub.rooms
      ensures t.hub.rooms[h].host.Some? && SlotOf(t, h, Host, t.hub.rooms[h].host.value)
      ensures t.hub.rooms[h].device.Some? ==> SlotOf(t, h, Device, t.hub.rooms[h].device.value)
    {
      assert SlotOf(w, h, Host, w.hub.rooms[h].host.value);
    }
    forall d | d in t.hub.channels
      ensures Told(t, d)
      ensures QueueFacing(t.peers, d, t.hub.channels[d].queue)
    {
      assert Told(w, d) && InRoom(t, d) == InRoom(w, d);
      assert QueueFacing(w.peers, d, w.hub.channels[d].queue);
    }
  }

  lemma QueueKeeps(cfg: Config, w: World, c: Conn, queue: seq<Message>)
    requires Inv(cfg, w) && c in w.peers && |queue| <= QUEUE_DEPTH
    requires (!ChannelOf(w.hub, c).open ==> queue == []) && QueueFacing(w.peers, c, queue)
    requires Closes(queue) == [] || Closes(queue) == Closes(ChannelOf(w.hub, c).queue)
    ensures Inv(cfg, Rechannelled(w, c, ChannelOf(w.hub, c).(queue := queue)))
  {
    assert Told(w, c);
    ChannelKeeps(cfg, w, c, w.hub.channels[c].(queue := queue));
  }

  lemma SameChannel(w: World, c: Conn)
    requires c in w.hub.channels
    ensures Rechannelled(w, c, w.hub.channels[c]) == w
  {
    assert w.hub.channels[c := w.hub.channels[c]] == w.hub.channels;
  }

  lemma PhaseKeeps(cfg: Config, w: World, c: Conn, phase: Phase)
    requires Inv(cfg, w) && c in w.peers && PhaseFacing(w.peers, c, phase)
    requires !w.peers[c].phase.Telling? && !phase.Telling?
    requires phase.Running? == w.peers[c].phase.Running? && (phase == Gone ==> !InRoom(w, c))
    ensures Inv(cfg, Phased(w, c, phase))
  {
    assert Told(w, c);
    assert QueueFacing(w.peers, c, w.hub.channels[c].queue);
    MoveKeeps(cfg, w, c, w.hub.channels[c], phase);
    SameChannel(w, c);
  }

  lemma LookupKeeps(cfg: Config, w: World, c: Conn, payload: seq<nat>)
    requires Inv(cfg, w) && Idle(w, c)
    ensures Inv(cfg, AfterLookup(w, c, payload))
  {
    var p := w.peers[c];
    var to := PeerOf(w.hub, p.handle, p.role);
    if to.Some? {
      assert SlotOf(w, p.handle, Other(p.role), to.value);
      PhaseKeeps(cfg, w, c, Running(Some(Sending(to.value, payload))));
    }
  }

  lemma DeliverKeeps(cfg: Config, w: World, c: Conn)
    requires Inv(cfg, w) && CanSend(w, c)
    ensures Inv(cfg, AfterDeliver(w, c))
  {
    var out := w.peers[c].phase.sending.value;
    assert PhaseFacing(w.peers, c, w.peers[c].phase);
    var queue := TrySend(ChannelOf(w.hub, out.to), Binary(c, out.payload)).queue;
    assert QueueFacing(w.peers, out.to, queue) by {
      assert Told(w, out.to);
      assert QueueFacing(w.peers, out.to, w.hub.channels[out.to].queue);
    }
    assert (!ChannelOf(w.hub, out.to).open ==> queue == []) && |queue| <= QUEUE_DEPTH by {
      assert Told(w, out.to);
    }
    ClosesConcatenate(ChannelOf(w.hub, out.to).queue, [Binary(c, out.payload)]);
    QueueKeeps(cfg, w, out.to, queue);
    PhaseKeeps(cfg, Rechannelled(w, out.to, ChannelOf(w.hub, out.to).(queue := queue)), c, Running(None));
  }

  lemma DrainKeeps(cfg: Config, w: World, c: Conn)
    requires Inv(cfg, w) && Idle(w, c) && ChannelOf(w.hub, c).queue != []
    ensures Inv(cfg, AfterDrain(w, c))
  {
    assert Told(w, c);
    var queue := w.hub.channels[c].queue;
    assert QueueFacing(w.peers, c, queue);
    assert |Closes(queue)| <= 1 && |Closes(queue[1..])| <= |Closes(queue)|;
    QueueKeeps(cfg, w, c, queue[1..]);
  }

  lemma DropKeeps(cfg: Config, w: World, c: Conn, peerClose: Option<CloseFrame>)
    requires Inv(cfg, w) && Idle(w, c)
    ensures Inv(cfg, AfterDrop(w, c, peerClose))
  {
    assert Told(w, c);
    MoveKeeps(cfg, w, c, w.hub.channels[c].(open := false, queue := []), Leaving(peerClose));
  }

  // A disconnect by the holder of a slot, whose room then has `c` left in it.
  lemma TakenOut(w: World, d: Conn, c: Conn)
    requires RoomInv(w) && d in w.peers && w.peers[d].phase.Leaving? && InRoom(w, d)
    requires LeftBehind(w.hub, w.peers[d].handle, w.peers[d].role, d) == Some(c)
    ensures var t := AfterDisconnect(w, d);
      && InRoom(w, c) && d != c && Facing(w.peers, d, c)
      && (forall x :: InRoom(t, x) <==> InRoom(w, x) && x != c && x != d)
      && (forall x :: Awaits(t.peers, x) <==> Awaits(w.peers, x) || x == c)
  {
    var t, h := AfterDisconnect(w, d), w.peers[d].handle;
    assert SlotOf(w, h, Other(w.peers[d].role), c);
    assert forall x :: InRoom(w, x) && w.peers[x].handle == h ==> x == c || x == d;
    assert forall e, x :: Tells(t.peers, e, x) <==> Tells(w.peers, e, x) || (e == d && x == c);
    assert Tells(t.peers, d, c);
    forall x
      ensures Awaits(t.peers, x) <==> Awaits(w.peers, x) || x == c
    {
      if e :| e in w.peers && Tells(w.peers, e, x) {
        assert Tells(t.peers, e, x);
      }
    }
  }

  lemma TakingOutKeepsRooms(w: World, d: Conn)
    requires RoomInv(w) && d in w.peers && w.peers[d].phase.Leaving?
    ensures RoomInv(AfterDisconnect(w, d)) && |AfterDisconnect(w, d).hub.rooms| <= |w.hub.rooms|
  {
    var t := AfterDisconnect(w, d);
    forall h | h in t.hub.rooms
      ensures t.hub.rooms[h].host.Some? && SlotOf(t, h, Host, t.hub.rooms[h].host.value)
      ensures t.hub.rooms[h].device.Some? ==> SlotOf(t, h, Device, t.hub.rooms[h].device.value)
    {
      assert SlotOf(w, h, Host, w.hub.rooms[h].host.value);
    }
    assert t.hub.rooms.Keys <= w.hub.rooms.Keys;
    assert |t.hub.rooms.Keys| <= |w.hub.rooms.Keys|;
  }

  lemma TakingOutKeepsIsolation(w: World, d: Conn)
    requires RoomInv(w) && IsolationInv(w) && d in w.peers && w.peers[d].phase.Leaving?
    ensures IsolationInv(AfterDisconnect(w, d))
  {
    var t, p := AfterDisconnect(w, d), w.peers[d];
    var phase := t.peers[d].phase;
    assert PhaseFacing(w.peers, d, phase) by {
      if phase.Telling? {
        assert SlotOf(w, p.handle, Other(p.role), phase.to);
      }
    }
    forall x | x in t.peers
      ensures PhaseFacing(t.peers, x, t.peers[x].phase)
    {
      SameSeats(w.peers, d, phase, x, [], t.peers[x].phase);
      assert PhaseFacing(w.peers, x, w.peers[x].phase);
    }
    forall x | x in t.hub.channels
      ensures QueueFacing(t.peers, x, t.hub.channels[x].queue)
    {
      SameSeats(w.peers, d, phase, x, t.hub.channels[x].queue, Gone);
      assert QueueFacing(w.peers, x, w.hub.channels[x].queue);
    }
  }

  lemma TakingOutKeepsChannels(w: World, d: Conn, c: Conn)
    requires RoomInv(w) && ChannelInv(w) && d in w.peers && w.peers[d].phase.Leaving? && InRoom(w, d)
    requires LeftBehind(w.hub, w.peers[d].handle, w.peers[d].role, d) == Some(c)
    ensures ChannelInv(AfterDisconnect(w, d))
  {
    TakenOut(w, d, c);
    forall x | x in AfterDisconnect(w, d).hub.channels
      ensures Told(AfterDisconnect(w, d), x)
    {
      assert Told(w, x);
    }
  }

  lemma LeavingAloneMovesNobody(w: World, d: Conn, x: Conn)
    requires RoomInv(w) && d in w.peers && w.peers[d].phase.Leaving?
    requires LeftBehind(w.hub, w.peers[d].handle, w.peers[d].role, d) == None
    ensures InRoom(AfterDisconnect(w, d), x) <==> InRoom(w, x) && x != d
  {
  }

  // A Host that leaves nobody behind, or a disconnect that comes too late.
  lemma LeavingAloneKeepsChannels(w: World, d: Conn)
    requires RoomInv(w) && ChannelInv(w) && d in w.peers && w.peers[d].phase.Leaving?
    requires LeftBehind(w.hub, w.peers[d].handle, w.peers[d].role, d) == None
    ensures ChannelInv(AfterDisconnect(w, d))
  {
    var t, h := AfterDisconnect(w, d), w.peers[d].handle;
    forall x | x in t.hub.channels
      ensures Told(t, x)
    {
      assert Told(w, x);
      SameTellers(w.peers, d, Gone, x);
      LeavingAloneMovesNobody(w, d, x);
    }
  }

  lemma DisconnectKeeps(cfg: Config, w: World, d: Conn)
    requires Inv(cfg, w) && d in w.peers && w.peers[d].phase.Leaving?
    ensures Inv(cfg, AfterDisconnect(w, d))
  {
    TakingOutKeepsRooms(w, d);
    TakingOutKeepsIsolation(w, d);
    var survivor := LeftBehind(w.hub, w.peers[d].handle, w.peers[d].role, d);
    if survivor.Some? {
      TakingOutKeepsChannels(w, d, survivor.value);
      NobodyTellsARoommate(w, d, survivor.value);
    } else {
      LeavingAloneKeepsChannels(w, d);
    }
  }

  lemma NobodyTellsARoommate(w: World, d: Conn, c: Conn)
    requires RoomInv(w) && ChannelInv(w) && TellInv(w.peers) && d in w.peers && w.peers[d].phase.Leaving?
    requires InRoom(w, d) && LeftBehind(w.hub, w.peers[d].handle, w.peers[d].role, d) == Some(c)
    ensures TellInv(AfterDisconnect(w, d).peers)
  {
    TakenOut(w, d, c);
    assert Told(w, c);
    assert forall e :: e in w.peers ==> !Tells(w.peers, e, c);
  }

  // Telling ends the wait of exactly the one told.
  lemma ToldNow(w: World, d: Conn, x: Conn)
    requires TellInv(w.peers) && d in w.peers && w.peers[d].phase.Telling?
    ensures Awaits(AfterTell(w, d).peers, x) <==> Awaits(w.peers, x) && x != w.peers[d].phase.to
  {
    var t := AfterTell(w, d);
    assert forall e :: Tells(t.peers, e, x) <==> Tells(w.peers, e, x) && e != d;
    assert Tells(w.peers, d, w.peers[d].phase.to);
    if e :| e in w.peers && Tells(w.peers, e, x) && e != d {
      assert Tells(t.peers, e, x);
    }
  }

  lemma TellKeepsRooms(w: World, d: Conn)
    requires RoomInv(w) && d in w.peers && w.peers[d].phase.Telling?
    ensures RoomInv(AfterTell(w, d)) && forall x :: InRoom(AfterTell(w, d), x) == InRoom(w, x)
  {
    var t := AfterTell(w, d);
    assert t.hub.rooms == w.hub.rooms;
    forall h | h in t.hub.rooms
      ensures t.hub.rooms[h].host.Some? && SlotOf(t, h, Host, t.hub.rooms[h].host.value)
      ensures t.hub.rooms[h].device.Some? ==> SlotOf(t, h, Device, t.hub.rooms[h].device.value)
    {
      assert SlotOf(w, h, Host, w.hub.rooms[h].host.value);
    }
  }

  lemma TellKeepsChannels(w: World, d: Conn)
    requires RoomInv(w) && ChannelInv(w) && IsolationInv(w) && TellInv(w.peers)
    requires d in w.peers && w.peers[d].phase.Telling?
    ensures ChannelInv(AfterTell(w, d))
  {
    var t, c := AfterTell(w, d), w.peers[d].phase.to;
    assert PhaseFacing(w.peers, d, w.peers[d].phase);
    assert Tells(w.peers, d, c);
    TellKeepsRooms(w, d);
    forall x | x in t.hub.channels
      ensures Told(t, x)
    {
      assert Told(w, x);
      ToldNow(w, d, x);
      if x == c {
        OfferIsSound(w.hub.channels[c], w.peers[c].phase, InRoom(w, c), true, w.peers[d].phase.frame);
      }
    }
  }

  lemma TellKeepsIsolation(w: World, d: Conn)
    requires IsolationInv(w) && d in w.peers && w.peers[d].phase.Telling?
    ensures IsolationInv(AfterTell(w, d))
  {
    var t := AfterTell(w, d);
    forall x | x in t.hub.channels
      ensures QueueFacing(t.peers, x, t.hub.channels[x].queue)
    {
      SameSeats(w.peers, d, Gone, x, t.hub.channels[x].queue, Gone);
      assert QueueFacing(w.peers, x, w.hub.channels[x].queue);
    }
    forall x | x in t.peers
      ensures PhaseFacing(t.peers, x, t.peers[x].phase)
    {
      SameSeats(w.peers, d, Gone, x, [], t.peers[x].phase);
      assert PhaseFacing(w.peers, x, w.peers[x].phase);
    }
  }

  lemma TellKeeps(cfg: Config, w: World, d: Conn)
    requires Inv(cfg, w) && d in w.peers && w.peers[d].phase.Telling?
    ensures Inv(cfg, AfterTell(w, d))
  {
    TellKeepsRooms(w, d);
    TellKeepsChannels(w, d);
    TellKeepsIsolation(w, d);
    PhaseKeepsTellInv(w.peers, d, Gone);
  }

  // A new connection takes a free slot of a settled handle.
  function Joining(t: World, q: Request, room: Room): World {
    World(Opened(t.hub.(rooms := t.hub.rooms[q.handle := room])), t.seen,
          t.peers[t.hub.nextConn := Peer(q.handle, q.role, Running(None))])
  }

  predicate FreeSlot(t: World, q: Request, room: Room) {
    if q.role == Host
    then q.handle !in t.hub.rooms && room == Room(Some(t.hub.nextConn), None, q.now, q.pairing)
    else
      && q.handle in t.hub.rooms && t.hub.rooms[q.handle].device == None
      && room == t.hub.rooms[q.handle].(device := Some(t.hub.nextConn))
  }

  lemma NextConnIsFresh(t: World)
    requires ChannelInv(t)
    ensures t.hub.nextConn !in t.peers && t.hub.nextConn !in t.hub.channels
  {
    assert forall c :: c in t.hub.channels ==> Told(t, c);
  }

  lemma JoinKeepsRooms(t: World, q: Request, room: Room)
    requires RoomInv(t) && ChannelInv(t) && FreeSlot(t, q, room)
    ensures RoomInv(Joining(t, q, room))
  {
    var u := Joining(t, q, room);
    NextConnIsFresh(t);
    forall h | h in u.hub.rooms
      ensures u.hub.rooms[h].host.Some? && SlotOf(u, h, Host, u.hub.rooms[h].host.value)
      ensures u.hub.rooms[h].device.Some? ==> SlotOf(u, h, Device, u.hub.rooms[h].device.value)
    {
      if h in t.hub.rooms {
        assert SlotOf(t, h, Host, t.hub.rooms[h].host.value);
      }
    }
  }

  // A newcomer tells nobody, and nobody tells it.
  lemma JoinKeepsTellers(t: World, q: Request, room: Room)
    requires ChannelInv(t) && IsolationInv(t)
    ensures forall c :: Awaits(Joining(t, q, room).peers, c) == Awaits(t.peers, c)
    ensures !Awaits(t.peers, t.hub.nextConn)
  {
    var u, mine := Joining(t, q, room), t.hub.nextConn;
    NextConnIsFresh(t);
    forall c
      ensures Awaits(u.peers, c) == Awaits(t.peers, c)
    {
      assert forall e :: Tells(u.peers, e, c) == Tells(t.peers, e, c);
    }
    assert forall d :: d in t.peers ==> PhaseFacing(t.peers, d, t.peers[d].phase);
  }

  // The newcomer is in its room, and everyone else where it was.
  lemma JoinMovesNobody(t: World, q: Request, room: Room, c: Conn)
    requires ChannelInv(t) && FreeSlot(t, q, room) && c in t.peers
    ensures InRoom(Joining(t, q, room), c) == InRoom(t, c)
    ensures InRoom(Joining(t, q, room), t.hub.nextConn)
  {
    NextConnIsFresh(t);
  }

  lemma JoinKeepsTold(t: World, q: Request, room: Room, c: Conn)
    requires ChannelInv(t) && IsolationInv(t) && FreeSlot(t, q, room) && c in t.hub.channels
    ensures Told(Joining(t, q, room), c)
  {
    assert Told(t, c);
    NextConnIsFresh(t);
    JoinMovesNobody(t, q, room, c);
    JoinKeepsTellers(t, q, room);
  }

  lemma NewcomerIsTold(t: World, q: Request, room: Room)
    requires ChannelInv(t) && IsolationInv(t) && FreeSlot(t, q, room)
    ensures Told(Joining(t, q, room), t.hub.nextConn)
  {
    JoinKeepsTellers(t, q, room);
    assert InRoom(Joining(t, q, room), t.hub.nextConn);
  }

  lemma JoinKeepsChannels(t: World, q: Request, room: Room)
    requires ChannelInv(t) && IsolationInv(t) && FreeSlot(t, q, room)
    ensures ChannelInv(Joining(t, q, room))
  {
    var u := Joining(t, q, room);
    forall c | c in u.hub.channels
      ensures Told(u, c)
    {
      if c in t.hub.channels {
        JoinKeepsTold(t, q, room, c);
      } else {
        NewcomerIsTold(t, q, room);
      }
    }
  }

  lemma JoinKeepsIsolation(t: World, q: Request, room: Room)
    requires ChannelInv(t) && IsolationInv(t)
    ensures IsolationInv(Joining(t, q, room))
  {
    var u, mine := Joining(t, q, room), t.hub.nextConn;
    NextConnIsFresh(t);
    assert forall a, b :: Facing(t.peers, a, b) ==> Facing(u.peers, a, b);
    forall c | c in u.hub.channels && c != mine
      ensures QueueFacing(u.peers, c, u.hub.channels[c].queue)
    {
      assert QueueFacing(t.peers, c, t.hub.channels[c].queue);
    }
    forall c | c in u.peers && c != mine
      ensures PhaseFacing(u.peers, c, u.peers[c].phase)
    {
      assert PhaseFacing(t.peers, c, t.peers[c].phase);
    }
  }

  lemma JoinKeepsTellInv(t: World, q: Request, room: Room)
    requires ChannelInv(t) && TellInv(t.peers)
    ensures TellInv(Joining(t, q, room).peers)
  {
    NextConnIsFresh(t);
    assert forall d, c :: Tells(Joining(t, q, room).peers, d, c) == Tells(t.peers, d, c);
  }

  lemma JoinKeeps(cfg: Config, t: World, q: Request, room: Room)
    requires Inv(cfg, t) && FreeSlot(t, q, room)
    requires q.role == Host ==> |t.hub.rooms| < cfg.cap
    ensures Inv(cfg, Joining(t, q, room))
  {
    JoinKeepsRooms(t, q, room);
    JoinKeepsChannels(t, q, room);
    JoinKeepsIsolation(t, q, room);
    JoinKeepsTellInv(t, q, room);
    var grown := t.hub.rooms[q.handle := room];
    assert grown.Keys == t.hub.rooms.Keys + {q.handle};
    assert |grown| == |grown.Keys| && |t.hub.rooms| == |t.hub.rooms.Keys|;
  }

  // What a registration leaves: the settled hub, or that hub with the newcomer in its slot.
  lemma RegisterJoins(cfg: Config, w: World, q: Request)
    requires Inv(cfg, w)
    ensures var t, u := w.(hub := TeardownFinished(w.hub, q.handle)), AfterRegister(cfg, w, q);
      u == t.(seen := u.seen)
      || (q.handle in u.hub.rooms && FreeSlot(t, q, u.hub.rooms[q.handle])
          && (q.role == Host ==> |t.hub.rooms| < cfg.cap)
          && u == Joining(t, q, u.hub.rooms[q.handle]).(seen := u.seen))
  {
  }

  lemma RegisterKeeps(cfg: Config, w: World, q: Request)
    requires Inv(cfg, w)
    ensures Inv(cfg, AfterRegister(cfg, w, q))
  {
    TeardownKeeps(cfg, w, q.handle);
    RegisterJoins(cfg, w, q);
    var t, u := w.(hub := TeardownFinished(w.hub, q.handle)), AfterRegister(cfg, w, q);
    if u == t.(seen := u.seen) {
      SeenIsIrrelevant(cfg, t, u.seen);
    } else {
      JoinKeeps(cfg, t, q, u.hub.rooms[q.handle]);
      SeenIsIrrelevant(cfg, Joining(t, q, u.hub.rooms[q.handle]), u.seen);
    }
  }

  lemma SeenIsIrrelevant(cfg: Config, w: World, seen: map<Ip, seq<Time>>)
    requires Inv(cfg, w)
    ensures Inv(cfg, w.(seen := seen))
  {
    var t := w.(seen := seen);
    assert forall c :: Told(w, c) ==> Told(t, c);
    assert forall h, role, c :: SlotOf(w, h, role, c) ==> SlotOf(t, h, role, c);
  }

  lemma StepKeepsInv(cfg: Config, w: World, step: Step)
    requires Inv(cfg, w) && Enabled(w, step)
    ensures Inv(cfg, Next(cfg, w, step))
  {
    match step
    case Register(q) => RegisterKeeps(cfg, w, q);
    case Lookup(c, payload) => LookupKeeps(cfg, w, c, payload);
    case Deliver(c) => DeliverKeeps(cfg, w, c);
    case Drain(c) => DrainKeeps(cfg, w, c);
    case DropReceiver(c, peerClose) => DropKeeps(cfg, w, c, peerClose);
    case Disconnect(c) => DisconnectKeeps(cfg, w, c);
    case Tell(c) => TellKeeps(cfg, w, c);
  }

  lemma {:induction false} RunKeepsInv(cfg: Config, w: World, steps: seq<Step>)
    requires Inv(cfg, w) && Possible(cfg, w, steps)
    ensures Inv(cfg, Run(cfg, w, steps))
    decreases |steps|
  {
    if steps != [] {
      StepKeepsInv(cfg, w, steps[0]);
      RunKeepsInv(cfg, Next(cfg, w, steps[0]), steps[1..]);
    }
  }
}
