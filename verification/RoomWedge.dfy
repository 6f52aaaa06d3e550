/**
 Forwarding waits for queue space with no time limit, and a connection that waits neither drains its
 own queue nor leaves. Two roommates that wait for each other's full queue wait for good.
 */
module RoomWedge {
  import opened Prelude
  import opened Limits
  import opened Rooms
  import opened RoomSafety
  import opened RoomClosing
  import opened RoomRuns

  // `p` waits for space in the open, full queue of `c`.
  predicate WaitsOn(w: World, p: Conn, c: Conn) {
    && p in w.peers && c in w.peers && c in w.hub.channels
    && w.peers[p].phase.Running? && w.peers[p].phase.sending.Some? && w.peers[p].phase.sending.value.to == c
    && w.hub.channels[c].open && |w.hub.channels[c].queue| >= QUEUE_DEPTH
  }

  predicate Wedged(w: World, p: Conn, c: Conn) {
    WaitsOn(w, p, c) && WaitsOn(w, c, p)
  }

  predicate StepOf(step: Step, c: Conn) {
    !step.Register? && step.conn == c
  }

  predicate CanMove(w: World, c: Conn) {
    Idle(w, c) || CanSend(w, c)
  }

  // ---- for good ----

  lemma OfferLeavesFullQueues(s: Hub, slot: Option<Conn>, frame: CloseFrame, c: Conn)
    requires c in s.channels && s.channels[c].open && |s.channels[c].queue| >= QUEUE_DEPTH
    ensures var t := Offer(s, slot, frame);
      c in t.channels && t.channels[c].open && t.channels[c].queue == s.channels[c].queue
  {
  }

  lemma RegisterLeavesWaiting(cfg: Config, w: World, q: Request, p: Conn, c: Conn)
    requires ChannelInv(w) && WaitsOn(w, p, c)
    ensures WaitsOn(AfterRegister(cfg, w, q), p, c)
  {
    RegisterTouches(cfg, w, q, c);
    RegisterTouches(cfg, w, q, p);
    if q.handle in w.hub.rooms && ClosedRole(w.hub, w.hub.rooms[q.handle]).Some? {
      var gone := ClosedRole(w.hub, w.hub.rooms[q.handle]).value;
      OfferLeavesFullQueues(w.hub.(rooms := w.hub.rooms - {q.handle}), Slot(w.hub.rooms[q.handle], Other(gone)),
                            GoneFrame(gone), c);
    }
  }

  lemma OthersLeaveWaiting(cfg: Config, w: World, step: Step, p: Conn, c: Conn)
    requires WaitsOn(w, p, c) && !CanMove(w, c) && Enabled(w, step) && !step.Register?
    ensures WaitsOn(Next(cfg, w, step), p, c)
  {
    if step.Tell? {
      OfferLeavesFullQueues(w.hub, Some(w.peers[step.conn].phase.to), w.peers[step.conn].phase.frame, c);
    }
  }

  // A wait for somebody who cannot move goes on.
  lemma WaitStays(cfg: Config, w: World, step: Step, p: Conn, c: Conn)
    requires ChannelInv(w) && WaitsOn(w, p, c) && !CanMove(w, c) && Enabled(w, step)
    ensures WaitsOn(Next(cfg, w, step), p, c)
  {
    if step.Register? {
      RegisterLeavesWaiting(cfg, w, step.request, p, c);
    } else {
      OthersLeaveWaiting(cfg, w, step, p, c);
    }
  }

  lemma WedgedStays(cfg: Config, w: World, step: Step, p: Conn, c: Conn)
    requires ChannelInv(w) && Wedged(w, p, c) && Enabled(w, step)
    ensures Wedged(Next(cfg, w, step), p, c)
  {
    WaitStays(cfg, w, step, p, c);
    WaitStays(cfg, w, step, c, p);
  }

  // Whatever anyone does afterwards, neither moves again.
  lemma {:induction false} WedgedForGood(cfg: Config, w: World, steps: seq<Step>, p: Conn, c: Conn)
    requires Inv(cfg, w) && Possible(cfg, w, steps) && Wedged(w, p, c)
    ensures Wedged(Run(cfg, w, steps), p, c)
    decreases |steps|
  {
    if steps != [] {
      WedgedStays(cfg, w, steps[0], p, c);
      StepKeepsInv(cfg, w, steps[0]);
      WedgedForGood(cfg, Next(cfg, w, steps[0]), steps[1..], p, c);
    }
  }

  // ---- exactly when ----

  // While a connection is in its room, what it is sending is for its roommate.
  predicate Addressed(w: World, p: Conn) {
    (p in w.peers && w.peers[p].phase.Running? && w.peers[p].phase.sending.Some? && InRoom(w, p)) ==>
      PeerOf(w.hub, w.peers[p].handle, w.peers[p].role) == Some(w.peers[p].phase.sending.value.to)
  }

  lemma RegisterKeepsAddress(cfg: Config, w: World, q: Request, p: Conn)
    requires ChannelInv(w) && Addressed(w, p)
    ensures Addressed(AfterRegister(cfg, w, q), p)
  {
    var u := AfterRegister(cfg, w, q);
    NextConnIsFresh(w);
    if p in w.peers {
      assert Told(w, p);
      RegisterTouches(cfg, w, q, p);
      if InRoom(u, p) {
        RegisterSlots(cfg, w, q, w.peers[p].handle, w.peers[p].role, p);
        if w.peers[p].handle != q.handle {
          OtherRegisterKeepsRoom(cfg, w, q, w.peers[p].handle);
        }
      }
    }
  }

  lemma StepKeepsAddress(cfg: Config, w: World, step: Step, p: Conn)
    requires ChannelInv(w) && Enabled(w, step) && Addressed(w, p)
    ensures Addressed(Next(cfg, w, step), p)
  {
    if step.Register? {
      RegisterKeepsAddress(cfg, w, step.request, p);
    } else if step.Disconnect? {
      TakingOutKeepsAddress(w, step.conn, p);
    } else {
      QueuesKeepAddress(cfg, w, step, p);
    }
  }

  lemma QueuesKeepAddress(cfg: Config, w: World, step: Step, p: Conn)
    requires Enabled(w, step) && !step.Register? && !step.Disconnect? && Addressed(w, p)
    ensures Addressed(Next(cfg, w, step), p)
  {
    assert Next(cfg, w, step).hub.rooms == w.hub.rooms;
  }

  lemma TakingOutKeepsAddress(w: World, d: Conn, p: Conn)
    requires d in w.peers && w.peers[d].phase.Leaving? && Addressed(w, p)
    ensures Addressed(AfterDisconnect(w, d), p)
  {
  }

  lemma {:induction false} RunKeepsAddress(cfg: Config, w: World, steps: seq<Step>, p: Conn)
    requires Inv(cfg, w) && Possible(cfg, w, steps) && Addressed(w, p)
    ensures Addressed(Run(cfg, w, steps), p)
    decreases |steps|
  {
    if steps != [] {
      StepKeepsAddress(cfg, w, steps[0], p);
      StepKeepsInv(cfg, w, steps[0]);
      RunKeepsAddress(cfg, Next(cfg, w, steps[0]), steps[1..], p);
    }
  }

  // A running connection that cannot move waits for a full, open queue.
  lemma StuckWaits(cfg: Config, w: World, p: Conn)
    requires Inv(cfg, w) && IsRunning(w, p)
    ensures CanMove(w, p) <==> !(w.peers[p].phase.sending.Some? && WaitsOn(w, p, w.peers[p].phase.sending.value.to))
  {
    if w.peers[p].phase.sending.Some? {
      assert PhaseFacing(w.peers, p, w.peers[p].phase);
    }
  }

  lemma SomeoneCanMove(w: World, x: Conn)
    requires CanMove(w, x)
    ensures exists step :: Enabled(w, step) && StepOf(step, x)
  {
    var step := if Idle(w, x) then Lookup(x, []) else Deliver(x);
    assert Enabled(w, step) && StepOf(step, x);
  }

  lemma RoommatesWait(cfg: Config, w: World, p: Conn, c: Conn)
    requires Inv(cfg, w) && Roommates(w, p, c) && IsRunning(w, p) && IsRunning(w, c)
    requires Addressed(w, p) && Addressed(w, c)
    ensures Wedged(w, p, c) <==> !CanMove(w, p) && !CanMove(w, c)
  {
    PartnerIsSlot(w, p, c);
    StuckWaits(cfg, w, p);
    StuckWaits(cfg, w, c);
  }

  lemma CannotMove(w: World, x: Conn, step: Step)
    requires IsRunning(w, x) && !CanMove(w, x) && Enabled(w, step)
    ensures !StepOf(step, x)
  {
  }

  // Two running roommates are stuck, with no step of either possible now or ever, exactly when each
  // waits for the other's full queue.
  lemma StuckExactlyWhenWedged(cfg: Config, w: World, p: Conn, c: Conn)
    requires Reachable(cfg, w) && Roommates(w, p, c) && IsRunning(w, p) && IsRunning(w, c)
    ensures (forall step :: Enabled(w, step) ==> !StepOf(step, p) && !StepOf(step, c)) <==> Wedged(w, p, c)
    ensures Wedged(w, p, c) ==> forall steps :: Possible(cfg, w, steps) ==> Wedged(Run(cfg, w, steps), p, c)
  {
    var steps: seq<Step> :| Possible(cfg, START, steps) && Run(cfg, START, steps) == w;
    ReachableInv(cfg, w);
    RunKeepsAddress(cfg, START, steps, p);
    RunKeepsAddress(cfg, START, steps, c);
    RoommatesWait(cfg, w, p, c);
    if !Wedged(w, p, c) {
      SomeoneCanMove(w, if CanMove(w, p) then p else c);
    } else {
      forall step | Enabled(w, step)
        ensures !StepOf(step, p) && !StepOf(step, c)
      {
        CannotMove(w, p, step);
        CannotMove(w, c, step);
      }
      forall later | Possible(cfg, w, later)
        ensures Wedged(Run(cfg, w, later), p, c)
      {
        WedgedForGood(cfg, w, later, p, c);
      }
    }
  }

  // ---- a run that gets there ----

  // Thirty-three frames each way, with nobody draining, wedge a Host and its Device.
  lemma AWedgeIsReached(cfg: Config, h: Handle, ip: Ip, payload: seq<nat>) returns (w: World)
    requires cfg.cap >= 1 && cfg.registrationsPerSecond >= 1
    ensures Reachable(cfg, w) && Roommates(w, HOST, DEVICE) && Wedged(w, HOST, DEVICE)
  {
    var start, full := Pair(h, ip), QUEUE_DEPTH;
    assert start == Laden(h, ip, payload, 0, 0, Running(None), Running(None));
    var a := HostFills(cfg, h, ip, payload, full);
    var b := DeviceFills(cfg, h, ip, payload, full, full);
    RunsConcatenate(cfg, start, a, b);
    HostSends(cfg, h, ip, payload, full, full, Running(None));
    DeviceSends(cfg, h, ip, payload, full, full, Running(Some(Sending(DEVICE, payload))));
    var c := [Lookup(HOST, payload), Lookup(DEVICE, payload)];
    Twice(cfg, Run(cfg, start, a + b), Lookup(HOST, payload), Lookup(DEVICE, payload));
    RunsConcatenate(cfg, start, a + b, c);
    w := Run(cfg, start, (a + b) + c);
    ReachesFromPair(cfg, h, ip, (a + b) + c);
  }
}
