/**
 Forwarding through the relay: a frame is looked up, waits for queue space, is queued, and is drained by
 its addressee. Along every run each frame of one sender reaches the other end verbatim, in order and once.
 */
module RoomForwarding {
  import opened Prelude
  import opened Limits
  import opened Rooms
  import opened RoomSafety
  import opened RoomClosing

  type Payload = seq<nat>

  // The payloads of one sender, in the order of the messages.
  function SentBy(messages: seq<Message>, p: Conn): seq<Payload> {
    if messages == [] then []
    else
      (match messages[0] case Binary(from, payload) => if from == p then [payload] else [] case Close(_) => [])
      + SentBy(messages[1..], p)
  }

  lemma {:induction false} SentByConcatenates(a: seq<Message>, b: seq<Message>, p: Conn)
    ensures SentBy(a + b, p) == SentBy(a, p) + SentBy(b, p)
  {
    if a == [] {
      assert a + b == b;
    } else {
      assert (a + b)[1..] == a[1..] + b;
      SentByConcatenates(a[1..], b, p);
    }
  }

  // What `p` still waits to queue for `c`.
  function InFlight(w: World, p: Conn, c: Conn): seq<Payload> {
    if p in w.peers && w.peers[p].phase.Running? && w.peers[p].phase.sending.Some?
      && w.peers[p].phase.sending.value.to == c
    then [w.peers[p].phase.sending.value.payload] else []
  }

  function Pending(w: World, p: Conn, c: Conn): seq<Payload> {
    SentBy(ChannelOf(w.hub, c).queue, p) + InFlight(w, p, c)
  }

  // ---- what a run forwards and what it drains ----

  // `c` sits in a room of the handle, in the seat across from `p`'s role.
  predicate Opposite(w: World, p: Conn, c: Conn) {
    InRoom(w, c) && Facing(w.peers, p, c)
  }

  predicate HasRoommate(w: World, p: Conn) {
    exists c :: c in w.peers && Roommates(w, p, c)
  }

  // A frame that `p` has for the other side, while `c` sits there.
  function ForwardsNow(w: World, step: Step, p: Conn, c: Conn): seq<Payload> {
    if step.Lookup? && step.conn == p && Opposite(w, p, c) then [step.payload] else []
  }

  function DrainsNow(w: World, step: Step, c: Conn): seq<Message> {
    if step == Drain(c) && ChannelOf(w.hub, c).queue != [] then [ChannelOf(w.hub, c).queue[0]] else []
  }

  // The frames `p` had for `c` along a run.
  function Forwarded(cfg: Config, w: World, steps: seq<Step>, p: Conn, c: Conn): seq<Payload>
    requires Possible(cfg, w, steps)
    decreases |steps|
  {
    if steps == [] then []
    else ForwardsNow(w, steps[0], p, c) + Forwarded(cfg, Next(cfg, w, steps[0]), steps[1..], p, c)
  }

  // Every frame `p` had while it shared its room with anybody.
  function AllForwarded(cfg: Config, w: World, steps: seq<Step>, p: Conn): seq<Payload>
    requires Possible(cfg, w, steps)
    decreases |steps|
  {
    if steps == [] then []
    else
      (if steps[0].Lookup? && steps[0].conn == p && HasRoommate(w, p) then [steps[0].payload] else [])
      + AllForwarded(cfg, Next(cfg, w, steps[0]), steps[1..], p)
  }

  // The messages `c` drained.
  function Drained(cfg: Config, w: World, steps: seq<Step>, c: Conn): seq<Message>
    requires Possible(cfg, w, steps)
    decreases |steps|
  {
    if steps == [] then [] else DrainsNow(w, steps[0], c) + Drained(cfg, Next(cfg, w, steps[0]), steps[1..], c)
  }

  // ---- each step conserves ----

  // A connection that still has its receiver, or has not joined yet.
  predicate Undropped(w: World, c: Conn) {
    c in w.hub.channels ==> Open(w.hub, c)
  }

  predicate Conserves(w: World, step: Step, u: World, p: Conn, c: Conn) {
    Pending(w, p, c) + ForwardsNow(w, step, p, c) == SentBy(DrainsNow(w, step, c), p) + Pending(u, p, c)
  }

  // Looking up by handle and role finds whoever sits opposite.
  lemma PeerIsOpposite(w: World, p: Conn, c: Conn)
    requires RoomInv(w) && p in w.peers
    ensures PeerOf(w.hub, w.peers[p].handle, w.peers[p].role) == Some(c) <==> Opposite(w, p, c)
  {
    if PeerOf(w.hub, w.peers[p].handle, w.peers[p].role) == Some(c) {
      assert SlotOf(w, w.peers[p].handle, Other(w.peers[p].role), c);
    }
  }

  // A frame is on its way to whoever sits opposite; with nobody there it is dropped and nothing changes.
  lemma LookupFindsThePeer(cfg: Config, w: World, p: Conn, payload: Payload, c: Conn)
    requires Reachable(cfg, w) && Idle(w, p)
    ensures var u := Next(cfg, w, Lookup(p, payload));
      && (Opposite(w, p, c) ==>
            u == w.(peers := w.peers[p := w.peers[p].(phase := Running(Some(Sending(c, payload))))]))
      && ((forall d :: !Opposite(w, p, d)) ==> u == w)
  {
    ReachableInv(cfg, w);
    PeerIsOpposite(w, p, c);
    var to := PeerOf(w.hub, w.peers[p].handle, w.peers[p].role);
    if to.Some? {
      PeerIsOpposite(w, p, to.value);
    }
  }

  lemma LookupConserves(cfg: Config, w: World, d: Conn, payload: Payload, p: Conn, c: Conn)
    requires RoomInv(w) && Enabled(w, Lookup(d, payload))
    ensures Conserves(w, Lookup(d, payload), Next(cfg, w, Lookup(d, payload)), p, c)
  {
    assert AfterLookup(w, d, payload).hub == w.hub;
    PeerIsOpposite(w, d, c);
  }

  lemma DeliverElsewhere(w: World, d: Conn, p: Conn, c: Conn)
    requires CanSend(w, d) && w.peers[d].phase.sending.value.to != c
    ensures ChannelOf(AfterDeliver(w, d).hub, c) == ChannelOf(w.hub, c)
    ensures InFlight(AfterDeliver(w, d), p, c) == InFlight(w, p, c)
  {
  }

  lemma DeliverHere(w: World, d: Conn, p: Conn, c: Conn)
    requires CanSend(w, d) && w.peers[d].phase.sending.value.to == c && Open(w.hub, c)
    ensures ChannelOf(AfterDeliver(w, d).hub, c).queue
         == ChannelOf(w.hub, c).queue + [Binary(d, w.peers[d].phase.sending.value.payload)]
    ensures d == p ==> InFlight(w, p, c) == [w.peers[d].phase.sending.value.payload]
    ensures InFlight(AfterDeliver(w, d), p, c) == if d == p then [] else InFlight(w, p, c)
  {
  }

  lemma AddresseeIsKnown(w: World, d: Conn)
    requires ChannelInv(w) && IsolationInv(w) && CanSend(w, d)
    ensures w.peers[d].phase.sending.value.to in w.hub.channels
  {
    assert PhaseFacing(w.peers, d, w.peers[d].phase);
  }

  lemma DeliverConserves(cfg: Config, w: World, d: Conn, p: Conn, c: Conn)
    requires Enabled(w, Deliver(d)) && Undropped(w, c)
    requires w.peers[d].phase.sending.value.to in w.hub.channels
    ensures Conserves(w, Deliver(d), AfterDeliver(w, d), p, c)
  {
    var out := w.peers[d].phase.sending.value;
    if out.to == c {
      DeliverHere(w, d, p, c);
      SentByConcatenates(ChannelOf(w.hub, c).queue, [Binary(d, out.payload)], p);
      assert SentBy([Binary(d, out.payload)], p) == if d == p then [out.payload] else [];
    } else {
      DeliverElsewhere(w, d, p, c);
    }
  }

  lemma FirstOut(queue: seq<Message>, p: Conn, more: seq<Payload>)
    requires queue != []
    ensures SentBy(queue, p) + more == SentBy([queue[0]], p) + (SentBy(queue[1..], p) + more)
  {
    assert [queue[0]] + queue[1..] == queue;
    SentByConcatenates([queue[0]], queue[1..], p);
    Regroup(SentBy([queue[0]], p), SentBy(queue[1..], p), more);
  }

  lemma DrainConserves(cfg: Config, w: World, d: Conn, p: Conn, c: Conn)
    requires Enabled(w, Drain(d))
    ensures Conserves(w, Drain(d), Next(cfg, w, Drain(d)), p, c)
  {
    var queue := ChannelOf(w.hub, c).queue;
    assert InFlight(AfterDrain(w, d), p, c) == InFlight(w, p, c);
    if d == c {
      assert ChannelOf(AfterDrain(w, d).hub, c).queue == queue[1..];
      FirstOut(queue, p, InFlight(w, p, c));
    } else {
      assert ChannelOf(AfterDrain(w, d).hub, c) == ChannelOf(w.hub, c);
    }
  }

  // A queue that changes at most by a close at its end, and a sender that goes on as it was.
  lemma ClosesDoNotMatter(w: World, step: Step, u: World, p: Conn, c: Conn, frame: CloseFrame)
    requires step.DropReceiver? || step.Disconnect? || step.Tell? || step.Register?
    requires var before, after := ChannelOf(w.hub, c).queue, ChannelOf(u.hub, c).queue;
      after == before || after == before + [Close(frame)]
    requires InFlight(w, p, c) == InFlight(u, p, c)
    ensures Conserves(w, step, u, p, c)
  {
    SentByConcatenates(ChannelOf(w.hub, c).queue, [Close(frame)], p);
    assert SentBy([Close(frame)], p) == [];
  }

  lemma RegisterSenders(cfg: Config, w: World, q: Request, p: Conn, c: Conn)
    requires ChannelInv(w)
    ensures InFlight(AfterRegister(cfg, w, q), p, c) == InFlight(w, p, c)
  {
    NextConnIsFresh(w);
    if p in w.peers {
      RegisterTouches(cfg, w, q, p);
    }
  }

  lemma RegisterConserves(cfg: Config, w: World, q: Request, p: Conn, c: Conn)
    requires ChannelInv(w)
    ensures Conserves(w, Register(q), AfterRegister(cfg, w, q), p, c)
  {
    var frame := RegisterQueues(cfg, w, q, c);
    RegisterSenders(cfg, w, q, p, c);
    ClosesDoNotMatter(w, Register(q), AfterRegister(cfg, w, q), p, c, frame);
  }

  lemma DroppedDoesNotRun(w: World, c: Conn)
    requires ChannelInv(w) && !Undropped(w, c)
    ensures !IsRunning(w, c)
  {
    assert Told(w, c);
  }

  lemma DroppedStays(cfg: Config, w: World, step: Step, c: Conn)
    requires ChannelInv(w) && Enabled(w, step) && !Undropped(w, c)
    ensures !Undropped(Next(cfg, w, step), c) && DrainsNow(w, step, c) == []
  {
    DroppedDoesNotRun(w, c);
    if step.Register? {
      RegisterTouches(cfg, w, step.request, c);
    } else {
      DroppedIsLeftAlone(cfg, w, step, c);
    }
  }

  lemma DroppedIsLeftAlone(cfg: Config, w: World, step: Step, c: Conn)
    requires Enabled(w, step) && !step.Register? && !Undropped(w, c) && !IsRunning(w, c)
    ensures !Undropped(Next(cfg, w, step), c)
  {
  }

  // Leaving and telling, which queue at most a close.
  lemma LeavingSendsNothing(cfg: Config, w: World, step: Step, p: Conn, c: Conn) returns (frame: CloseFrame)
    requires Enabled(w, step) && (step.DropReceiver? || step.Disconnect? || step.Tell?)
    requires Undropped(Next(cfg, w, step), c)
    ensures var before, after := ChannelOf(w.hub, c).queue, ChannelOf(Next(cfg, w, step).hub, c).queue;
      after == before || after == before + [Close(frame)]
    ensures InFlight(Next(cfg, w, step), p, c) == InFlight(w, p, c)
  {
    frame := if step.Tell? then w.peers[step.conn].phase.frame else GoneFrame(Host);
  }

  lemma StepConserves(cfg: Config, w: World, step: Step, p: Conn, c: Conn)
    requires Inv(cfg, w) && Enabled(w, step) && Undropped(Next(cfg, w, step), c)
    ensures Undropped(w, c) && Conserves(w, step, Next(cfg, w, step), p, c)
  {
    if !Undropped(w, c) {
      DroppedStays(cfg, w, step, c);
    } else if step.Register? {
      RegisterConserves(cfg, w, step.request, p, c);
    } else if step.Lookup? {
      LookupConserves(cfg, w, step.conn, step.payload, p, c);
    } else if step.Deliver? {
      AddresseeIsKnown(w, step.conn);
      DeliverConserves(cfg, w, step.conn, p, c);
    } else if step.Drain? {
      DrainConserves(cfg, w, step.conn, p, c);
    } else {
      var frame := LeavingSendsNothing(cfg, w, step, p, c);
      ClosesDoNotMatter(w, step, Next(cfg, w, step), p, c, frame);
    }
  }

  // ---- whole runs ----

  lemma Chain<T>(a: seq<T>, f: seq<T>, d: seq<T>, b: seq<T>, g: seq<T>, e: seq<T>, z: seq<T>)
    requires a + f == d + b && b + g == e + z
    ensures a + (f + g) == (d + e) + z
  {
    calc {
      a + (f + g);
      (a + f) + g;
      (d + b) + g;
      d + (b + g);
      d + (e + z);
      (d + e) + z;
    }
  }

  lemma ChainPrefix<T>(a: seq<T>, f: seq<T>, d: seq<T>, b: seq<T>, g: seq<T>, e: seq<T>)
    requires a + f == d + b && e <= b + g
    ensures d + e <= a + (f + g)
  {
    var z := (b + g)[|e|..];
    assert b + g == e + z;
    Chain(a, f, d, b, g, e, z);
  }

  lemma NoStepConserves(cfg: Config, w: World, steps: seq<Step>, p: Conn, c: Conn)
    requires steps == []
    ensures Pending(w, p, c) + Forwarded(cfg, w, steps, p, c)
         == SentBy(Drained(cfg, w, steps, c), p) + Pending(Run(cfg, w, steps), p, c)
  {
    var pending := Pending(w, p, c);
    assert pending + [] == pending && [] + pending == pending;
  }

  lemma OneMoreConserves(cfg: Config, w: World, steps: seq<Step>, p: Conn, c: Conn)
    requires steps != [] && Possible(cfg, w, steps)
    requires var u, rest := Next(cfg, w, steps[0]), steps[1..];
      && Conserves(w, steps[0], u, p, c)
      && Pending(u, p, c) + Forwarded(cfg, u, rest, p, c)
         == SentBy(Drained(cfg, u, rest, c), p) + Pending(Run(cfg, u, rest), p, c)
    ensures Pending(w, p, c) + Forwarded(cfg, w, steps, p, c)
         == SentBy(Drained(cfg, w, steps, c), p) + Pending(Run(cfg, w, steps), p, c)
  {
    var u, step, rest := Next(cfg, w, steps[0]), steps[0], steps[1..];
    var drained := Drained(cfg, u, rest, c);
    SentByConcatenates(DrainsNow(w, step, c), drained, p);
    Chain(Pending(w, p, c), ForwardsNow(w, step, p, c), SentBy(DrainsNow(w, step, c), p), Pending(u, p, c),
          Forwarded(cfg, u, rest, p, c), SentBy(drained, p), Pending(Run(cfg, u, rest), p, c));
  }

  // Along any run at whose end `c` has not dropped its receiver: what was waiting for `c` from `p` and
  // what `p` forwarded to it is what `c` drained from `p` and what is waiting now.
  lemma {:induction false} RunConserves(cfg: Config, w: World, steps: seq<Step>, p: Conn, c: Conn)
    requires Inv(cfg, w) && Possible(cfg, w, steps) && Undropped(Run(cfg, w, steps), c)
    ensures Undropped(w, c)
    ensures Pending(w, p, c) + Forwarded(cfg, w, steps, p, c)
         == SentBy(Drained(cfg, w, steps, c), p) + Pending(Run(cfg, w, steps), p, c)
    decreases |steps|
  {
    if steps == [] {
      NoStepConserves(cfg, w, steps, p, c);
    } else {
      StepKeepsInv(cfg, w, steps[0]);
      RunConserves(cfg, Next(cfg, w, steps[0]), steps[1..], p, c);
      StepConserves(cfg, w, steps[0], p, c);
      OneMoreConserves(cfg, w, steps, p, c);
    }
  }

  // Whatever happens to `c`, what it drained from `p` is an initial stretch of what `p` forwarded to it.
  lemma {:induction false} DrainedInOrder(cfg: Config, w: World, steps: seq<Step>, p: Conn, c: Conn)
    requires Inv(cfg, w) && Possible(cfg, w, steps)
    ensures SentBy(Drained(cfg, w, steps, c), p) <= Pending(w, p, c) + Forwarded(cfg, w, steps, p, c)
    decreases |steps|
  {
    if steps != [] {
      var u, step := Next(cfg, w, steps[0]), steps[0];
      if Undropped(u, c) {
        StepKeepsInv(cfg, w, step);
        DrainedInOrder(cfg, u, steps[1..], p, c);
        StepConserves(cfg, w, step, p, c);
        var drained := Drained(cfg, u, steps[1..], c);
        SentByConcatenates(DrainsNow(w, step, c), drained, p);
        ChainPrefix(Pending(w, p, c), ForwardsNow(w, step, p, c), SentBy(DrainsNow(w, step, c), p), Pending(u, p, c),
                    Forwarded(cfg, u, steps[1..], p, c), SentBy(drained, p));
      } else {
        DroppedDrainsNothing(cfg, w, step, steps[1..], c);
      }
    }
  }

  lemma {:induction false} AfterDropNothing(cfg: Config, w: World, steps: seq<Step>, c: Conn)
    requires Inv(cfg, w) && Possible(cfg, w, steps) && !Undropped(w, c)
    ensures Drained(cfg, w, steps, c) == []
    decreases |steps|
  {
    if steps != [] {
      DroppedStays(cfg, w, steps[0], c);
      StepKeepsInv(cfg, w, steps[0]);
      AfterDropNothing(cfg, Next(cfg, w, steps[0]), steps[1..], c);
    }
  }

  lemma DroppedDrainsNothing(cfg: Config, w: World, step: Step, rest: seq<Step>, c: Conn)
    requires Inv(cfg, w) && Enabled(w, step) && Possible(cfg, Next(cfg, w, step), rest)
    requires !Undropped(Next(cfg, w, step), c)
    ensures DrainsNow(w, step, c) == [] && Drained(cfg, Next(cfg, w, step), rest, c) == []
  {
    StepKeepsInv(cfg, w, step);
    AfterDropNothing(cfg, Next(cfg, w, step), rest, c);
    DrainingKeepsTheReceiver(cfg, w, step, c);
  }

  lemma DrainingKeepsTheReceiver(cfg: Config, w: World, step: Step, c: Conn)
    requires ChannelInv(w) && Enabled(w, step) && !Undropped(Next(cfg, w, step), c)
    ensures DrainsNow(w, step, c) == []
  {
    if c in w.hub.channels {
      assert Told(w, c);
    }
  }

  lemma NothingAtTheStart(cfg: Config, p: Conn, c: Conn)
    ensures Inv(cfg, START) && Pending(START, p, c) == []
  {
  }

  lemma EmptyFront<T>(none: seq<T>, all: seq<T>)
    requires none == []
    ensures none + all == all
  {
  }

  lemma NothingPending(cfg: Config, w: World, steps: seq<Step>, p: Conn, c: Conn)
    requires Inv(cfg, w) && Possible(cfg, w, steps) && Pending(w, p, c) == []
    ensures SentBy(Drained(cfg, w, steps, c), p) <= Forwarded(cfg, w, steps, p, c)
    ensures Undropped(Run(cfg, w, steps), c) ==>
      Forwarded(cfg, w, steps, p, c) == SentBy(Drained(cfg, w, steps, c), p) + Pending(Run(cfg, w, steps), p, c)
  {
    EmptyFront(Pending(w, p, c), Forwarded(cfg, w, steps, p, c));
    DrainedInOrder(cfg, w, steps, p, c);
    if Undropped(Run(cfg, w, steps), c) {
      RunConserves(cfg, w, steps, p, c);
    }
  }

  // While `c` runs, the frames `p` forwarded to it are those `c` drained from `p`, then those queued for
  // it, then the one still waiting for space: verbatim, in order, none lost and none repeated.
  lemma NothingIsLost(cfg: Config, steps: seq<Step>, p: Conn, c: Conn)
    requires Possible(cfg, START, steps) && Open(Run(cfg, START, steps).hub, c)
    ensures Forwarded(cfg, START, steps, p, c)
         == SentBy(Drained(cfg, START, steps, c), p) + Pending(Run(cfg, START, steps), p, c)
  {
    NothingAtTheStart(cfg, p, c);
    NothingPending(cfg, START, steps, p, c);
  }

  // Nothing `c` drains from `p` is altered, out of order, repeated or skipped, even once `c` has left.
  lemma NothingIsReordered(cfg: Config, steps: seq<Step>, p: Conn, c: Conn)
    requires Possible(cfg, START, steps)
    ensures SentBy(Drained(cfg, START, steps, c), p) <= Forwarded(cfg, START, steps, p, c)
  {
    NothingAtTheStart(cfg, p, c);
    NothingPending(cfg, START, steps, p, c);
  }

  // ---- roommates ----

  // Whoever sits opposite in one's own room does so for as long as one is in it.
  lemma RegisterKeepsRoommate(cfg: Config, w: World, q: Request, p: Conn, c: Conn)
    requires ChannelInv(w) && Roommates(w, p, c)
    ensures InRoom(AfterRegister(cfg, w, q), p) ==> Roommates(AfterRegister(cfg, w, q), p, c)
  {
    assert Told(w, p) && Told(w, c);
    RegisterTouches(cfg, w, q, p);
    RegisterTouches(cfg, w, q, c);
    PartnerIsSlot(w, p, c);
    if w.peers[p].handle != q.handle {
      OtherRegisterKeepsRoom(cfg, w, q, w.peers[p].handle);
    }
  }

  lemma OthersKeepRoommate(cfg: Config, w: World, step: Step, p: Conn, c: Conn)
    requires Enabled(w, step) && !step.Register? && Roommates(w, p, c)
    ensures InRoom(Next(cfg, w, step), p) ==> Roommates(Next(cfg, w, step), p, c)
  {
    var u := Next(cfg, w, step);
    assert u.hub.rooms == w.hub.rooms || (step.Disconnect? && u.hub.rooms == w.hub.rooms - {w.peers[step.conn].handle});
  }

  lemma StillInRoom(cfg: Config, w: World, step: Step, p: Conn)
    requires ChannelInv(w) && Enabled(w, step) && p in w.peers && InRoom(Next(cfg, w, step), p)
    ensures InRoom(w, p)
  {
    if !InRoom(w, p) {
      OutStaysOut(cfg, w, step, p);
    }
  }

  lemma {:induction false} PartnerToTheEnd(cfg: Config, w: World, steps: seq<Step>, p: Conn, c: Conn)
    requires Inv(cfg, w) && Possible(cfg, w, steps) && p in w.peers && InRoom(Run(cfg, w, steps), p)
    ensures InRoom(w, p) && (Roommates(w, p, c) ==> Roommates(Run(cfg, w, steps), p, c))
    decreases |steps|
  {
    if steps != [] {
      var u := Next(cfg, w, steps[0]);
      StepKeepsInv(cfg, w, steps[0]);
      PeersStay(cfg, w, steps[0], p);
      PartnerToTheEnd(cfg, u, steps[1..], p, c);
      StillInRoom(cfg, w, steps[0], p);
      if Roommates(w, p, c) {
        StepKeepsRoommate(cfg, w, steps[0], p, c);
      }
    }
  }

  lemma PeersStay(cfg: Config, w: World, step: Step, p: Conn)
    requires ChannelInv(w) && Enabled(w, step) && p in w.peers
    ensures p in Next(cfg, w, step).peers
  {
    if step.Register? {
      RegisterTouches(cfg, w, step.request, p);
    }
  }

  lemma StepKeepsRoommate(cfg: Config, w: World, step: Step, p: Conn, c: Conn)
    requires ChannelInv(w) && Enabled(w, step) && Roommates(w, p, c)
    ensures InRoom(Next(cfg, w, step), p) ==> Roommates(Next(cfg, w, step), p, c)
  {
    if step.Register? {
      RegisterKeepsRoommate(cfg, w, step.request, p, c);
    } else {
      OthersKeepRoommate(cfg, w, step, p, c);
    }
  }

  // So a roommate it has at some point is the one it has at the end.
  lemma OnlyTheOneRoommate(cfg: Config, w: World, steps: seq<Step>, p: Conn, c: Conn)
    requires Inv(cfg, w) && Possible(cfg, w, steps) && p in w.peers && Roommates(Run(cfg, w, steps), p, c)
    ensures HasRoommate(w, p) <==> Opposite(w, p, c)
  {
    PartnerToTheEnd(cfg, w, steps, p, c);
    if HasRoommate(w, p) {
      var d :| d in w.peers && Roommates(w, p, d);
      PartnerToTheEnd(cfg, w, steps, p, d);
      PartnerIsSlot(Run(cfg, w, steps), p, c);
      PartnerIsSlot(Run(cfg, w, steps), p, d);
    }
  }

  // Whoever shares a room now has only ever had frames for the roommate it has there.
  lemma {:induction false} AllToTheRoommate(cfg: Config, w: World, steps: seq<Step>, p: Conn, c: Conn)
    requires Inv(cfg, w) && Possible(cfg, w, steps) && Roommates(Run(cfg, w, steps), p, c)
    ensures AllForwarded(cfg, w, steps, p) == Forwarded(cfg, w, steps, p, c)
    decreases |steps|
  {
    if steps != [] {
      StepKeepsInv(cfg, w, steps[0]);
      if p in w.peers {
        OnlyTheOneRoommate(cfg, w, steps, p, c);
      }
      AllToTheRoommate(cfg, Next(cfg, w, steps[0]), steps[1..], p, c);
    }
  }

  // Two roommates: every frame one of them ever had while it was not alone is, in order and unaltered,
  // one the other has drained, one queued for it, or the one still waiting for space.
  lemma RoommatesGetEverything(cfg: Config, steps: seq<Step>, p: Conn, c: Conn)
    requires Possible(cfg, START, steps)
    requires Roommates(Run(cfg, START, steps), p, c) && Open(Run(cfg, START, steps).hub, c)
    ensures AllForwarded(cfg, START, steps, p)
         == SentBy(Drained(cfg, START, steps, c), p) + Pending(Run(cfg, START, steps), p, c)
  {
    NothingAtTheStart(cfg, p, c);
    AllToTheRoommate(cfg, START, steps, p, c);
    NothingIsLost(cfg, steps, p, c);
  }
}
