/**
 What the room invariant means for the people connected: who shares a room, who is told what when a
 room goes, and which registrations succeed.
 */
module RoomClosing {
  import opened Prelude
  import opened Limits
  import opened Rooms
  import opened RoomSafety

  // ---- every reachable state ----

  ghost predicate Reachable(cfg: Config, w: World) {
    exists steps: seq<Step> :: Possible(cfg, START, steps) && Run(cfg, START, steps) == w
  }

  lemma ReachableInv(cfg: Config, w: World)
    requires Reachable(cfg, w)
    ensures Inv(cfg, w)
  {
    var steps: seq<Step> :| Possible(cfg, START, steps) && Run(cfg, START, steps) == w;
    RunKeepsInv(cfg, START, steps);
  }

  // Every room has its Host, the cap holds, and no channel sits in two slots.
  lemma RoomsAreSound(cfg: Config, w: World)
    requires Reachable(cfg, w)
    ensures |w.hub.rooms| <= cfg.cap
    ensures forall h :: h in w.hub.rooms ==> w.hub.rooms[h].host.Some?
    ensures forall h, k, r, q, c :: Owns(w.hub, h, r, c) && Owns(w.hub, k, q, c) ==> h == k && r == q
  {
    ReachableInv(cfg, w);
    forall h, r, c | Owns(w.hub, h, r, c)
      ensures SlotOf(w, h, r, c)
    {
      assert SlotOf(w, h, Host, w.hub.rooms[h].host.value);
    }
  }

  // An open connection is in its room and was offered nothing; or it is out of it, was offered nothing,
  // and exactly one leaver still has to tell it; or it is out of it and was offered exactly one close.
  // That one its queue took, and may still hold, or lost for want of room.
  lemma NobodyIsForgotten(cfg: Config, w: World, c: Conn)
    requires Reachable(cfg, w) && Open(w.hub, c)
    ensures IsRunning(w, c)
    ensures var offered := w.hub.channels[c].offered;
      if InRoom(w, c) then offered == [] && !Awaits(w.peers, c)
      else if offered == [] then exists d :: Tells(w.peers, d, c) && forall e :: Tells(w.peers, e, c) ==> e == d
      else |offered| == 1 && CloseCode(offered[0]) && !Awaits(w.peers, c) && (Took(w, c) || Lost(w, c))
  {
    ReachableInv(cfg, w);
    assert Told(w, c);
    if Awaits(w.peers, c) {
      var d :| d in w.peers && Tells(w.peers, d, c);
      assert forall e :: Tells(w.peers, e, c) ==> e == d;
    }
  }

  function OfferedTo(s: Hub, c: Conn): seq<CloseFrame> {
    ChannelOf(s, c).offered
  }

  function TakenBy(s: Hub, c: Conn): seq<CloseFrame> {
    ChannelOf(s, c).taken
  }

  // Out of its room, and the close it was offered went into its queue.
  predicate Took(w: World, c: Conn) {
    && !InRoom(w, c) && |OfferedTo(w.hub, c)| == 1 && TakenBy(w.hub, c) == OfferedTo(w.hub, c)
    && (Closes(ChannelOf(w.hub, c).queue) == [] || Closes(ChannelOf(w.hub, c).queue) == TakenBy(w.hub, c))
  }

  // Out of its room, and the close it was offered found no room: its queue holds none.
  predicate Lost(w: World, c: Conn) {
    && !InRoom(w, c) && |OfferedTo(w.hub, c)| == 1 && TakenBy(w.hub, c) == []
    && Closes(ChannelOf(w.hub, c).queue) == []
  }

  // A queued frame was sent by the other end of the same handle.
  lemma FramesStayOnTheirHandle(cfg: Config, w: World, c: Conn, k: nat)
    requires Reachable(cfg, w) && c in w.hub.channels && k < |w.hub.channels[c].queue|
    requires w.hub.channels[c].queue[k].Binary?
    ensures Facing(w.peers, w.hub.channels[c].queue[k].from, c)
  {
    ReachableInv(cfg, w);
    assert QueueFacing(w.peers, c, w.hub.channels[c].queue);
  }

  // A disconnect changes the map exactly when its connection still holds its slot.
  lemma StaleDisconnectIsANoOp(cfg: Config, w: World, c: Conn)
    requires Reachable(cfg, w) && Enabled(w, Disconnect(c))
    ensures Next(cfg, w, Disconnect(c)).hub == w.hub <==> !InRoom(w, c)
  {
    var p := w.peers[c];
    if InRoom(w, c) {
      assert p.handle !in Next(cfg, w, Disconnect(c)).hub.rooms;
    }
  }

  // ---- who is told what ----

  predicate Roommates(w: World, p: Conn, c: Conn) {
    InRoom(w, p) && InRoom(w, c) && Facing(w.peers, p, c)
  }

  // The close one step owes to `c`, on account of `p`: what `p` still has to tell it; or a plain
  // departure when a registration of the handle finds its roommate's channel closed (were both
  // closed, the Host counts as the one that left).
  function Owed(w: World, step: Step, p: Conn, c: Conn): Option<CloseFrame> {
    if step == Tell(p) && Tells(w.peers, p, c) then Some(w.peers[p].phase.frame)
    else if step.Register? && Roommates(w, p, c) && step.request.handle == w.peers[c].handle
      && !Open(w.hub, p) && (w.peers[p].role == Host || Open(w.hub, c))
    then Some(GoneFrame(w.peers[p].role))
    else None
  }

  // What a channel makes of the `offers` of one step: it takes them exactly while it has room, at the
  // end of its queue; otherwise they leave no trace in it.
  predicate Receives(before: Channel, after: Channel, offers: seq<CloseFrame>) {
    && after.offered == before.offered + offers
    && after.taken == before.taken + (if HasRoom(before) then offers else [])
    && (offers != [] ==>
          after.queue == before.queue + (if HasRoom(before) then [Close(offers[0])] else []))
  }

  lemma PartnerIsSlot(w: World, p: Conn, c: Conn)
    requires Roommates(w, p, c)
    ensures var room := w.hub.rooms[w.peers[c].handle];
      && Slot(room, w.peers[c].role) == Some(c) && Slot(room, w.peers[p].role) == Some(p)
      && (ClosedRole(w.hub, room) == Some(w.peers[p].role)
          <==> !Open(w.hub, p) && (w.peers[p].role == Host || Open(w.hub, c)))
  {
  }

  lemma DiscardOffers(w: World, h: Handle, gone: Role, frame: CloseFrame, c: Conn)
    requires h in w.hub.rooms && c in w.hub.channels
    ensures Receives(ChannelOf(w.hub, c), ChannelOf(Discarded(w.hub, h, gone, frame), c),
                     if Slot(w.hub.rooms[h], Other(gone)) == Some(c) then [frame] else [])
  {
    DiscardedChannels(w.hub, h, gone, frame);
  }

  // A room none of whose connections has dropped its receiver.
  predicate Live(s: Hub, h: Handle) {
    h in s.rooms && ClosedRole(s, s.rooms[h]) == None
  }

  // A registration adds a channel and otherwise changes only what finishing the teardown changed.
  lemma RegisterTouches(cfg: Config, w: World, q: Request, c: Conn)
    requires ChannelInv(w) && c in w.hub.channels
    ensures var u, t := AfterRegister(cfg, w, q), TeardownFinished(w.hub, q.handle);
      && c in t.channels && c in u.hub.channels && u.hub.channels[c] == t.channels[c]
      && c in w.peers && c in u.peers && u.peers[c] == w.peers[c]
  {
    NextConnIsFresh(w);
    if q.handle in w.hub.rooms && ClosedRole(w.hub, w.hub.rooms[q.handle]).Some? {
      var gone := ClosedRole(w.hub, w.hub.rooms[q.handle]).value;
      DiscardedChannels(w.hub, q.handle, gone, GoneFrame(gone));
    }
  }

  // Finishing a teardown touches only the channels of that handle, and none while the room is live.
  lemma TeardownTouches(w: World, h: Handle, c: Conn)
    requires RoomInv(w) && c in w.hub.channels && c in w.peers && (w.peers[c].handle != h || Live(w.hub, h))
    ensures var t := TeardownFinished(w.hub, h); c in t.channels && t.channels[c] == w.hub.channels[c]
  {
    if h in w.hub.rooms && ClosedRole(w.hub, w.hub.rooms[h]).Some? {
      var gone := ClosedRole(w.hub, w.hub.rooms[h]).value;
      DiscardedChannels(w.hub, h, gone, GoneFrame(gone));
      var mate := Slot(w.hub.rooms[h], Other(gone));
      assert mate.Some? ==> SlotOf(w, h, Other(gone), mate.value);
    }
  }

  // `offers` is what one step adds to what `c` was offered.
  predicate PaysExactly(w: World, step: Step, c: Conn, offers: seq<CloseFrame>) {
    if offers == [] then forall p :: p in w.peers ==> Owed(w, step, p, c) == None
    else exists p :: p in w.peers && Owed(w, step, p, c).Some? && offers == [Owed(w, step, p, c).value]
  }

  lemma RegisterOffers(cfg: Config, w: World, q: Request, c: Conn) returns (offers: seq<CloseFrame>)
    requires Inv(cfg, w) && c in w.hub.channels
    ensures Receives(ChannelOf(w.hub, c), ChannelOf(AfterRegister(cfg, w, q).hub, c), offers)
    ensures PaysExactly(w, Register(q), c, offers)
  {
    offers := [];
    RegisterTouches(cfg, w, q, c);
    if w.peers[c].handle != q.handle || q.handle !in w.hub.rooms || Live(w.hub, q.handle) {
      if q.handle in w.hub.rooms {
        TeardownTouches(w, q.handle, c);
      }
      forall p
        ensures Owed(w, Register(q), p, c) == None
      {
        if Roommates(w, p, c) {
          PartnerIsSlot(w, p, c);
        }
      }
    } else {
      offers := DoomedOffers(w, q, c);
    }
  }

  // A registration that finds the room of `c`'s handle doomed.
  lemma DoomedOffers(w: World, q: Request, c: Conn) returns (offers: seq<CloseFrame>)
    requires RoomInv(w) && c in w.hub.channels && c in w.peers && w.peers[c].handle == q.handle
    requires q.handle in w.hub.rooms && !Live(w.hub, q.handle)
    ensures Receives(ChannelOf(w.hub, c), ChannelOf(TeardownFinished(w.hub, q.handle), c), offers)
    ensures PaysExactly(w, Register(q), c, offers)
  {
    var room := w.hub.rooms[q.handle];
    var gone := ClosedRole(w.hub, room).value;
    var p := Slot(room, gone).value;
    assert SlotOf(w, q.handle, gone, p);
    DiscardOffers(w, q.handle, gone, GoneFrame(gone), c);
    if Slot(room, Other(gone)) == Some(c) {
      offers := [GoneFrame(gone)];
      assert SlotOf(w, q.handle, Other(gone), c);
      assert Roommates(w, p, c);
      PartnerIsSlot(w, p, c);
      assert Owed(w, Register(q), p, c) == Some(GoneFrame(gone));
    } else {
      offers := [];
      forall d
        ensures Owed(w, Register(q), d, c) == None
      {
        if Roommates(w, d, c) {
          PartnerIsSlot(w, d, c);
        }
      }
    }
  }

  lemma TellOffers(w: World, d: Conn, c: Conn) returns (offers: seq<CloseFrame>)
    requires IsolationInv(w) && c in w.hub.channels && Enabled(w, Tell(d))
    ensures Receives(ChannelOf(w.hub, c), ChannelOf(AfterTell(w, d).hub, c), offers)
    ensures PaysExactly(w, Tell(d), c, offers)
  {
    assert PhaseFacing(w.peers, d, w.peers[d].phase);
    offers := if w.peers[d].phase.to == c then [w.peers[d].phase.frame] else [];
    assert Tells(w.peers, d, c) ==> Owed(w, Tell(d), d, c) == Some(w.peers[d].phase.frame);
  }

  lemma OtherStepsOfferNothing(cfg: Config, w: World, step: Step, c: Conn)
    requires Enabled(w, step) && !step.Register? && !step.Tell?
    ensures Receives(ChannelOf(w.hub, c), ChannelOf(Next(cfg, w, step).hub, c), [])
    ensures PaysExactly(w, step, c, [])
  {
  }

  lemma StepOffers(cfg: Config, w: World, step: Step, c: Conn) returns (offers: seq<CloseFrame>)
    requires Inv(cfg, w) && Enabled(w, step) && c in w.hub.channels
    ensures Receives(ChannelOf(w.hub, c), ChannelOf(Next(cfg, w, step).hub, c), offers)
    ensures PaysExactly(w, step, c, offers)
  {
    if step.Register? {
      offers := RegisterOffers(cfg, w, step.request, c);
    } else if step.Tell? {
      offers := TellOffers(w, step.conn, c);
    } else {
      OtherStepsOfferNothing(cfg, w, step, c);
      offers := [];
    }
  }

  // One step offers a connection exactly the close it owes it, if it owes one, and nothing else. The
  // queue takes it exactly when it is open and holds fewer than 32 messages; otherwise the close is lost.
  lemma OffersAreExact(cfg: Config, w: World, step: Step, c: Conn) returns (offers: seq<CloseFrame>)
    requires Reachable(cfg, w) && Enabled(w, step) && c in w.hub.channels
    ensures Receives(ChannelOf(w.hub, c), ChannelOf(Next(cfg, w, step).hub, c), offers)
    ensures PaysExactly(w, step, c, offers)
  {
    ReachableInv(cfg, w);
    offers := StepOffers(cfg, w, step, c);
  }

  // The two steps that take something out of the queue of `c`.
  predicate Takes(step: Step, c: Conn) {
    (step.Drain? || step.DropReceiver?) && step.conn == c
  }

  // A registration adds at most a close to a queue.
  lemma RegisterQueues(cfg: Config, w: World, q: Request, c: Conn) returns (frame: CloseFrame)
    requires ChannelInv(w)
    ensures var before, after := ChannelOf(w.hub, c).queue, ChannelOf(AfterRegister(cfg, w, q).hub, c).queue;
      after == before || after == before + [Close(frame)]
  {
    frame := GoneFrame(Host);
    NextConnIsFresh(w);
    if q.handle in w.hub.rooms && ClosedRole(w.hub, w.hub.rooms[q.handle]).Some? {
      frame := GoneFrame(ClosedRole(w.hub, w.hub.rooms[q.handle]).value);
    }
    if c in w.hub.channels {
      RegisterTouches(cfg, w, q, c);
    }
  }

  lemma OthersGrowQueues(cfg: Config, w: World, step: Step, c: Conn)
    requires Enabled(w, step) && !step.Register? && !Takes(step, c)
    ensures ChannelOf(w.hub, c).queue <= ChannelOf(Next(cfg, w, step).hub, c).queue
  {
  }

  // Nobody else takes anything out of a queue.
  lemma QueueOnlyGrows(cfg: Config, w: World, step: Step, c: Conn)
    requires ChannelInv(w) && Enabled(w, step) && c in w.hub.channels
    requires !Takes(step, c)
    ensures ChannelOf(w.hub, c).queue <= ChannelOf(Next(cfg, w, step).hub, c).queue
  {
    if step.Register? {
      var frame := RegisterQueues(cfg, w, step.request, c);
    } else {
      OthersGrowQueues(cfg, w, step, c);
    }
  }

  lemma ClosesGrow(before: seq<Message>, after: seq<Message>, frame: CloseFrame)
    requires before <= after && Closes(before) == [frame] && |Closes(after)| <= 1
    ensures Closes(after) == [frame]
  {
    var more := after[|before|..];
    assert after == before + more;
    ClosesConcatenate(before, more);
  }

  lemma ClosesShrink(queue: seq<Message>, frame: CloseFrame)
    requires queue != [] && Closes(queue) == [frame]
    ensures Closes(queue[1..]) == [frame] <==> queue[0] != Close(frame)
  {
    var rest := Closes(queue[1..]);
    if queue[0].Close? {
      assert ([queue[0].frame] + rest)[0] == queue[0].frame;
      assert |[queue[0].frame] + rest| == 1;
    } else {
      assert [] + rest == rest;
    }
  }

  lemma QueuedCloseStays(cfg: Config, w: World, step: Step, c: Conn, frame: CloseFrame)
    requires Inv(cfg, w) && Enabled(w, step) && c in w.hub.channels && !Takes(step, c)
    requires Closes(ChannelOf(w.hub, c).queue) == [frame]
    ensures Closes(ChannelOf(Next(cfg, w, step).hub, c).queue) == [frame]
  {
    QueueOnlyGrows(cfg, w, step, c);
    StepKeepsInv(cfg, w, step);
    AtMostOneClose(Next(cfg, w, step), c);
    ClosesGrow(ChannelOf(w.hub, c).queue, ChannelOf(Next(cfg, w, step).hub, c).queue, frame);
  }

  lemma AtMostOneClose(w: World, c: Conn)
    requires ChannelInv(w)
    ensures |Closes(ChannelOf(w.hub, c).queue)| <= 1
  {
    if c in w.hub.channels {
      assert Told(w, c);
    }
  }

  lemma QueuedCloseIsTaken(cfg: Config, w: World, step: Step, c: Conn, frame: CloseFrame)
    requires Enabled(w, step) && c in w.hub.channels && Takes(step, c)
    requires Closes(ChannelOf(w.hub, c).queue) == [frame]
    ensures Closes(ChannelOf(Next(cfg, w, step).hub, c).queue) == [frame] <==>
      step.Drain? && ChannelOf(w.hub, c).queue[0] != Close(frame)
  {
    ClosesShrink(ChannelOf(w.hub, c).queue, frame);
  }

  // A close in a queue stays there until the owner of the queue drains it or drops its receiver.
  lemma QueuedCloseWaits(cfg: Config, w: World, step: Step, c: Conn, frame: CloseFrame)
    requires Reachable(cfg, w) && Enabled(w, step) && c in w.hub.channels
    requires Closes(ChannelOf(w.hub, c).queue) == [frame]
    ensures Closes(ChannelOf(Next(cfg, w, step).hub, c).queue) == [frame] <==>
      && !(step == Drain(c) && ChannelOf(w.hub, c).queue[0] == Close(frame))
      && !(step.DropReceiver? && step.conn == c)
  {
    ReachableInv(cfg, w);
    if Takes(step, c) {
      QueuedCloseIsTaken(cfg, w, step, c, frame);
    } else {
      QueuedCloseStays(cfg, w, step, c, frame);
    }
  }

  // What became of the one offer is final.
  lemma OfferStays(cfg: Config, w: World, step: Step, c: Conn)
    requires Inv(cfg, w) && Enabled(w, step) && c in w.hub.channels && OfferedTo(w.hub, c) != []
    ensures OfferedTo(Next(cfg, w, step).hub, c) == OfferedTo(w.hub, c)
    ensures TakenBy(Next(cfg, w, step).hub, c) == TakenBy(w.hub, c)
  {
    var offers := StepOffers(cfg, w, step, c);
    StepKeepsInv(cfg, w, step);
    assert Told(w, c) && Told(Next(cfg, w, step), c);
  }

  lemma {:induction false} OfferIsFinal(cfg: Config, w: World, steps: seq<Step>, c: Conn)
    requires Inv(cfg, w) && Possible(cfg, w, steps) && c in w.hub.channels && OfferedTo(w.hub, c) != []
    ensures OfferedTo(Run(cfg, w, steps).hub, c) == OfferedTo(w.hub, c)
    ensures TakenBy(Run(cfg, w, steps).hub, c) == TakenBy(w.hub, c)
    ensures Inv(cfg, Run(cfg, w, steps)) && c in Run(cfg, w, steps).hub.channels
    decreases |steps|
  {
    if steps != [] {
      OfferStays(cfg, w, steps[0], c);
      StepKeepsInv(cfg, w, steps[0]);
      OfferIsFinal(cfg, Next(cfg, w, steps[0]), steps[1..], c);
    }
  }

  // A connection whose close was lost is never told again: it stays out of every room, with no close in
  // its queue, for as long as it runs.
  lemma LostForGood(cfg: Config, w: World, steps: seq<Step>, c: Conn)
    requires Reachable(cfg, w) && Possible(cfg, w, steps) && Lost(w, c)
    ensures Lost(Run(cfg, w, steps), c)
  {
    ReachableInv(cfg, w);
    OfferIsFinal(cfg, w, steps, c);
    assert Told(Run(cfg, w, steps), c);
  }

  lemma UntoldInItsRoom(cfg: Config, w: World, c: Conn)
    requires Reachable(cfg, w) && InRoom(w, c)
    ensures OfferedTo(w.hub, c) == []
  {
    ReachableInv(cfg, w);
    assert Told(w, c);
  }

  lemma HandsOver(w: World, p: Conn, c: Conn)
    requires Roommates(w, p, c) && w.peers[p].phase.Leaving?
    ensures var u := AfterDisconnect(w, p);
      && !InRoom(u, c) && ChannelOf(u.hub, c) == ChannelOf(w.hub, c) && Tells(u.peers, p, c)
      && u.peers[p].phase.frame == Farewell(w.peers[p].role, w.peers[p].phase.peerClose)
  {
    PartnerIsSlot(w, p, c);
  }

  // The locked half of a disconnect offers nothing: it leaves the roommate out of the room, for the
  // leaver to tell its farewell.
  lemma DisconnectHandsOver(cfg: Config, w: World, p: Conn, c: Conn)
    requires Reachable(cfg, w) && Roommates(w, p, c) && w.peers[p].phase.Leaving?
    ensures var u := Next(cfg, w, Disconnect(p));
      && !InRoom(u, c) && OfferedTo(u.hub, c) == [] && Tells(u.peers, p, c)
      && u.peers[p].phase.frame == Farewell(w.peers[p].role, w.peers[p].phase.peerClose)
  {
    UntoldInItsRoom(cfg, w, c);
    HandsOver(w, p, c);
  }

  // What a leaver has to tell: its own close when that carries an application code, 4000 to 4999, and
  // otherwise a departure that names the side that is gone.
  lemma FarewellIs(gone: Role, peerClose: Option<CloseFrame>)
    ensures Farewell(gone, peerClose) ==
      match peerClose
      case Some(CloseFrame(code, reason)) =>
        if code / 1000 == 4 then CloseFrame(code, reason) else GoneFrame(gone)
      case None => GoneFrame(gone)
    ensures GoneFrame(Host) == CloseFrame(1001, "the Host is gone")
    ensures GoneFrame(Device) == CloseFrame(1001, "the Device is gone")
    ensures ApplicationCode(peerClose) <==> peerClose.Some? && peerClose.value.code / 1000 == 4
  {
  }

  // ---- does the survivor hear its peer's own close? ----

  // No step of a stretch registers on the handle, takes the survivor's receiver away, or disconnects
  // the leaver.
  predicate Quiet(steps: seq<Step>, h: Handle, p: Conn, c: Conn) {
    forall k :: 0 <= k < |steps| ==>
      && !(steps[k].Register? && steps[k].request.handle == h)
      && !(steps[k].DropReceiver? && steps[k].conn == c)
      && steps[k] != Disconnect(p)
  }

  predicate Bereaved(w: World, p: Conn, c: Conn, peerClose: Option<CloseFrame>) {
    Roommates(w, p, c) && w.peers[p].phase == Leaving(peerClose) && IsRunning(w, c)
  }

  lemma OtherRegisterKeepsRoom(cfg: Config, w: World, q: Request, h: Handle)
    requires q.handle != h
    ensures var u := AfterRegister(cfg, w, q);
      (h in u.hub.rooms <==> h in w.hub.rooms) && (h in w.hub.rooms ==> u.hub.rooms[h] == w.hub.rooms[h])
  {
  }

  lemma QuietRegister(cfg: Config, w: World, q: Request, p: Conn, c: Conn, peerClose: Option<CloseFrame>)
    requires ChannelInv(w) && Bereaved(w, p, c, peerClose) && q.handle != w.peers[c].handle
    ensures Bereaved(AfterRegister(cfg, w, q), p, c, peerClose)
    ensures AfterRegister(cfg, w, q).peers[c] == w.peers[c] && AfterRegister(cfg, w, q).peers[p] == w.peers[p]
  {
    OtherRegisterKeepsRoom(cfg, w, q, w.peers[c].handle);
    RegisterTouches(cfg, w, q, c);
    RegisterTouches(cfg, w, q, p);
  }

  lemma QuietDisconnect(w: World, d: Conn, p: Conn, c: Conn, peerClose: Option<CloseFrame>)
    requires Bereaved(w, p, c, peerClose) && Enabled(w, Disconnect(d)) && d != p
    ensures Bereaved(AfterDisconnect(w, d), p, c, peerClose)
    ensures AfterDisconnect(w, d).peers[c] == w.peers[c] && AfterDisconnect(w, d).peers[p] == w.peers[p]
  {
    PartnerIsSlot(w, p, c);
    var leaver, h := w.peers[d], w.peers[c].handle;
    var t := Disconnected(w.hub, leaver.handle, leaver.role, d);
    assert h in t.rooms && t.rooms[h] == w.hub.rooms[h] by {
      if leaver.handle == h {
        assert !InRoom(w, d);
      }
    }
    assert AfterDisconnect(w, d).hub == t;
  }

  lemma QuietQueues(cfg: Config, w: World, step: Step, p: Conn, c: Conn, peerClose: Option<CloseFrame>)
    requires Enabled(w, step) && Bereaved(w, p, c, peerClose) && !step.Register? && !step.Disconnect?
    requires !(step.DropReceiver? && step.conn == c)
    ensures Bereaved(Next(cfg, w, step), p, c, peerClose)
    ensures Next(cfg, w, step).peers[c].handle == w.peers[c].handle
    ensures Next(cfg, w, step).peers[p].role == w.peers[p].role
  {
    assert Next(cfg, w, step).hub.rooms == w.hub.rooms;
  }

  lemma QuietStepKeepsRoommates(cfg: Config, w: World, step: Step, p: Conn, c: Conn, peerClose: Option<CloseFrame>)
    requires ChannelInv(w) && Enabled(w, step) && Bereaved(w, p, c, peerClose)
    requires !(step.Register? && step.request.handle == w.peers[c].handle)
    requires step != Disconnect(p) && !(step.DropReceiver? && step.conn == c)
    ensures Bereaved(Next(cfg, w, step), p, c, peerClose)
    ensures Next(cfg, w, step).peers[c].handle == w.peers[c].handle
    ensures Next(cfg, w, step).peers[p].role == w.peers[p].role
  {
    if step.Register? {
      QuietRegister(cfg, w, step.request, p, c, peerClose);
    } else if step.Disconnect? {
      QuietDisconnect(w, step.conn, p, c, peerClose);
    } else {
      QuietQueues(cfg, w, step, p, c, peerClose);
    }
  }

  lemma {:induction false} QuietKeepsRoommates(cfg: Config, w: World, steps: seq<Step>, p: Conn, c: Conn,
                                               peerClose: Option<CloseFrame>)
    requires Inv(cfg, w) && Possible(cfg, w, steps) && Bereaved(w, p, c, peerClose)
    requires Quiet(steps, w.peers[c].handle, p, c)
    ensures Inv(cfg, Run(cfg, w, steps)) && Bereaved(Run(cfg, w, steps), p, c, peerClose)
    ensures Run(cfg, w, steps).peers[c].handle == w.peers[c].handle
    ensures Run(cfg, w, steps).peers[p].role == w.peers[p].role
    decreases |steps|
  {
    if steps != [] {
      QuietStepKeepsRoommates(cfg, w, steps[0], p, c, peerClose);
      StepKeepsInv(cfg, w, steps[0]);
      QuietKeepsRoommates(cfg, Next(cfg, w, steps[0]), steps[1..], p, c, peerClose);
    }
  }

  // `c` is out of its room and was offered `frame`, or is still to be told it by `p`.
  predicate Hears(w: World, p: Conn, c: Conn, frame: CloseFrame) {
    c in w.hub.channels && c in w.peers && !InRoom(w, c)
    && (OfferedTo(w.hub, c) == [frame]
        || (OfferedTo(w.hub, c) == [] && Tells(w.peers, p, c) && w.peers[p].phase.frame == frame))
  }

  // After a registration a slot holds whom it held, or the newcomer.
  lemma RegisterSlots(cfg: Config, w: World, q: Request, h: Handle, role: Role, c: Conn)
    requires Owns(AfterRegister(cfg, w, q).hub, h, role, c)
    ensures Owns(w.hub, h, role, c) || c == w.hub.nextConn
  {
  }

  lemma OutStaysOutAtRegister(cfg: Config, w: World, q: Request, c: Conn)
    requires ChannelInv(w) && c in w.hub.channels && c in w.peers && !InRoom(w, c)
    ensures !InRoom(AfterRegister(cfg, w, q), c)
  {
    RegisterTouches(cfg, w, q, c);
    NextConnIsFresh(w);
    if InRoom(AfterRegister(cfg, w, q), c) {
      RegisterSlots(cfg, w, q, w.peers[c].handle, w.peers[c].role, c);
    }
  }

  lemma OutStaysOutOtherwise(cfg: Config, w: World, step: Step, c: Conn)
    requires Enabled(w, step) && !step.Register? && c in w.hub.channels && c in w.peers && !InRoom(w, c)
    ensures var u := Next(cfg, w, step); c in u.peers && c in u.hub.channels && !InRoom(u, c)
  {
    var u := Next(cfg, w, step);
    assert forall h, role :: Owns(u.hub, h, role, c) ==> Owns(w.hub, h, role, c);
    assert u.peers[c].handle == w.peers[c].handle && u.peers[c].role == w.peers[c].role;
  }

  lemma OutStaysOut(cfg: Config, w: World, step: Step, c: Conn)
    requires ChannelInv(w) && Enabled(w, step) && c in w.hub.channels && c in w.peers && !InRoom(w, c)
    ensures var u := Next(cfg, w, step); c in u.peers && c in u.hub.channels && !InRoom(u, c)
  {
    if step.Register? {
      OutStaysOutAtRegister(cfg, w, step.request, c);
      RegisterTouches(cfg, w, step.request, c);
    } else {
      OutStaysOutOtherwise(cfg, w, step, c);
    }
  }

  lemma TellerStays(cfg: Config, w: World, step: Step, p: Conn)
    requires ChannelInv(w) && Enabled(w, step) && p in w.peers && w.peers[p].phase.Telling? && step != Tell(p)
    ensures p in Next(cfg, w, step).peers && Next(cfg, w, step).peers[p] == w.peers[p]
  {
    if step.Register? {
      RegisterTouches(cfg, w, step.request, p);
    }
  }

  lemma ToBeToldStays(cfg: Config, w: World, step: Step, p: Conn, c: Conn, frame: CloseFrame)
    requires Inv(cfg, w) && Enabled(w, step) && c in w.hub.channels && !InRoom(w, c) && step != Tell(p)
    requires OfferedTo(w.hub, c) == [] && Tells(w.peers, p, c) && w.peers[p].phase.frame == frame
    ensures var u := Next(cfg, w, step);
      OfferedTo(u.hub, c) == [] && Tells(u.peers, p, c) && u.peers[p].phase.frame == frame
  {
    var offers := StepOffers(cfg, w, step, c);
    assert forall d :: d in w.peers && d != p ==> Owed(w, step, d, c) == None;
    TellerStays(cfg, w, step, p);
  }

  lemma HearsStays(cfg: Config, w: World, step: Step, p: Conn, c: Conn, frame: CloseFrame)
    requires Inv(cfg, w) && Enabled(w, step) && Hears(w, p, c, frame)
    ensures Hears(Next(cfg, w, step), p, c, frame)
  {
    OutStaysOut(cfg, w, step, c);
    if OfferedTo(w.hub, c) == [frame] {
      OfferStays(cfg, w, step, c);
    } else if step == Tell(p) {
      assert Owed(w, step, p, c) == Some(frame);
    } else {
      ToBeToldStays(cfg, w, step, p, c, frame);
    }
  }

  lemma {:induction false} HearsForGood(cfg: Config, w: World, steps: seq<Step>, p: Conn, c: Conn, frame: CloseFrame)
    requires Inv(cfg, w) && Possible(cfg, w, steps) && Hears(w, p, c, frame)
    ensures Hears(Run(cfg, w, steps), p, c, frame)
    decreases |steps|
  {
    if steps != [] {
      HearsStays(cfg, w, steps[0], p, c, frame);
      StepKeepsInv(cfg, w, steps[0]);
      HearsForGood(cfg, Next(cfg, w, steps[0]), steps[1..], p, c, frame);
    }
  }

  // When `p` tells in a run, `c` is open and holds fewer than 32 messages.
  predicate RoomWhenTold(cfg: Config, w: World, steps: seq<Step>, p: Conn, c: Conn)
    requires Possible(cfg, w, steps)
    decreases |steps|
  {
    steps != []
    && if steps[0] == Tell(p) then HasRoom(ChannelOf(w.hub, c))
       else RoomWhenTold(cfg, Next(cfg, w, steps[0]), steps[1..], p, c)
  }

  lemma TellIsTaken(cfg: Config, w: World, p: Conn, c: Conn, frame: CloseFrame)
    requires Inv(cfg, w) && Hears(w, p, c, frame) && OfferedTo(w.hub, c) == []
    ensures Enabled(w, Tell(p))
    ensures var u := Next(cfg, w, Tell(p));
      OfferedTo(u.hub, c) == [frame] && TakenBy(u.hub, c) == if HasRoom(ChannelOf(w.hub, c)) then [frame] else []
  {
    assert Told(w, c);
  }

  // What `p` told is taken exactly when there was room for it.
  lemma {:induction false} TakenIfRoom(cfg: Config, w: World, steps: seq<Step>, p: Conn, c: Conn, frame: CloseFrame)
    requires Inv(cfg, w) && Possible(cfg, w, steps) && Hears(w, p, c, frame) && OfferedTo(w.hub, c) == []
    requires !Tells(Run(cfg, w, steps).peers, p, c)
    ensures TakenBy(Run(cfg, w, steps).hub, c) == if RoomWhenTold(cfg, w, steps, p, c) then [frame] else []
    decreases |steps|
  {
    assert steps != [];
    var u := Next(cfg, w, steps[0]);
    StepKeepsInv(cfg, w, steps[0]);
    if steps[0] == Tell(p) {
      TellIsTaken(cfg, w, p, c, frame);
      OfferIsFinal(cfg, u, steps[1..], c);
    } else {
      HearsStays(cfg, w, steps[0], p, c, frame);
      ToBeToldStays(cfg, w, steps[0], p, c, frame);
      TakenIfRoom(cfg, u, steps[1..], p, c, frame);
    }
  }

  // The step that ends the room of a survivor `c` that `p` left behind.
  predicate EndsRoom(w: World, end: Step, p: Conn, c: Conn) {
    c in w.peers && (end == Disconnect(p) || (end.Register? && end.request.handle == w.peers[c].handle))
  }

  lemma RoomReclaimed(cfg: Config, w: World, q: Request, p: Conn, c: Conn, peerClose: Option<CloseFrame>)
    requires Inv(cfg, w) && Bereaved(w, p, c, peerClose) && q.handle == w.peers[c].handle
    ensures var u := AfterRegister(cfg, w, q); c in u.hub.channels && c in u.peers && !InRoom(u, c)
    ensures OfferedTo(AfterRegister(cfg, w, q).hub, c) == [GoneFrame(w.peers[p].role)]
    ensures TakenBy(AfterRegister(cfg, w, q).hub, c)
         == if HasRoom(ChannelOf(w.hub, c)) then [GoneFrame(w.peers[p].role)] else []
  {
    assert Told(w, p) && Told(w, c);
    PartnerIsSlot(w, p, c);
    OneRoommate(w, p, c);
    assert Owed(w, Register(q), p, c) == Some(GoneFrame(w.peers[p].role));
    assert forall d :: d != p ==> Owed(w, Register(q), d, c) == None;
    var offers := RegisterOffers(cfg, w, q, c);
    RegisterTouches(cfg, w, q, c);
    OfferedMeansOut(cfg, w, q, c);
  }

  lemma OfferedMeansOut(cfg: Config, w: World, q: Request, c: Conn)
    requires Inv(cfg, w) && OfferedTo(AfterRegister(cfg, w, q).hub, c) != []
    ensures !InRoom(AfterRegister(cfg, w, q), c)
  {
    RegisterKeeps(cfg, w, q);
    assert Told(AfterRegister(cfg, w, q), c);
  }

  lemma RoomTakenOut(cfg: Config, w: World, p: Conn, c: Conn, peerClose: Option<CloseFrame>)
    requires Inv(cfg, w) && Bereaved(w, p, c, peerClose)
    ensures Enabled(w, Disconnect(p)) && OfferedTo(Next(cfg, w, Disconnect(p)).hub, c) == []
    ensures Hears(Next(cfg, w, Disconnect(p)), p, c, Farewell(w.peers[p].role, peerClose))
  {
    HandsOver(w, p, c);
    assert Told(w, c);
  }

  lemma OneRoommate(w: World, p: Conn, c: Conn)
    requires Roommates(w, p, c)
    ensures forall d :: Roommates(w, d, c) ==> d == p
  {
  }

  function IfRoom(s: Hub, c: Conn, frame: CloseFrame): seq<CloseFrame> {
    if HasRoom(ChannelOf(s, c)) then [frame] else []
  }

  // However the connections interleave after `p` left a survivor `c` behind: when a registration of the
  // handle ends the room, `c` is offered a plain 1001, which its queue takes if it then has room. Nothing
  // later changes that.
  lemma SurvivorOfARegistration(cfg: Config, w: World, steps: seq<Step>, q: Request, later: seq<Step>, p: Conn,
                                c: Conn, peerClose: Option<CloseFrame>)
    requires Reachable(cfg, w) && Possible(cfg, w, steps) && Bereaved(w, p, c, peerClose)
    requires Quiet(steps, w.peers[c].handle, p, c) && q.handle == w.peers[c].handle
    ensures Possible(cfg, Next(cfg, Run(cfg, w, steps), Register(q)), later) ==>
      var v := Run(cfg, Next(cfg, Run(cfg, w, steps), Register(q)), later);
      && OfferedTo(v.hub, c) == [GoneFrame(w.peers[p].role)]
      && TakenBy(v.hub, c) == IfRoom(Run(cfg, w, steps).hub, c, GoneFrame(w.peers[p].role))
  {
    ReachableInv(cfg, w);
    QuietKeepsRoommates(cfg, w, steps, p, c, peerClose);
    var v := Run(cfg, w, steps);
    RoomReclaimed(cfg, v, q, p, c, peerClose);
    StepKeepsInv(cfg, v, Register(q));
    if Possible(cfg, Next(cfg, v, Register(q)), later) {
      OfferIsFinal(cfg, Next(cfg, v, Register(q)), later, c);
    }
  }

  // When `p`'s disconnect is what ends the room, `c` was offered `p`'s farewell, or `p` is still about to
  // tell it; once `p` has told, the queue took the farewell exactly if it had room at that moment.
  lemma SurvivorHears(cfg: Config, w: World, steps: seq<Step>, later: seq<Step>, p: Conn, c: Conn,
                      peerClose: Option<CloseFrame>)
    requires Reachable(cfg, w) && Possible(cfg, w, steps) && Bereaved(w, p, c, peerClose)
    requires Quiet(steps, w.peers[c].handle, p, c)
    ensures Enabled(Run(cfg, w, steps), Disconnect(p))
    ensures Possible(cfg, Next(cfg, Run(cfg, w, steps), Disconnect(p)), later) ==>
      var u := Next(cfg, Run(cfg, w, steps), Disconnect(p));
      var v, farewell := Run(cfg, u, later), Farewell(w.peers[p].role, peerClose);
      && Hears(v, p, c, farewell)
      && (!Tells(v.peers, p, c) ==>
            && OfferedTo(v.hub, c) == [farewell]
            && TakenBy(v.hub, c) == if RoomWhenTold(cfg, u, later, p, c) then [farewell] else [])
  {
    ReachableInv(cfg, w);
    QuietKeepsRoommates(cfg, w, steps, p, c, peerClose);
    var v := Run(cfg, w, steps);
    RoomTakenOut(cfg, v, p, c, peerClose);
    StepKeepsInv(cfg, v, Disconnect(p));
    var u, farewell := Next(cfg, v, Disconnect(p)), Farewell(w.peers[p].role, peerClose);
    if Possible(cfg, u, later) {
      HearsForGood(cfg, u, later, p, c, farewell);
      if !Tells(Run(cfg, u, later).peers, p, c) {
        TakenIfRoom(cfg, u, later, p, c, farewell);
      }
    }
  }

  // So, once `p` has nothing left to tell, its application close went into the survivor's queue verbatim
  // exactly when no registration of the handle got in before its disconnect and, when it told, the queue
  // was open with fewer than 32 messages.
  lemma VerbatimIff(cfg: Config, w: World, steps: seq<Step>, end: Step, later: seq<Step>, p: Conn, c: Conn,
                    frame: CloseFrame)
    requires Reachable(cfg, w) && Possible(cfg, w, steps) && Bereaved(w, p, c, Some(frame))
    requires Quiet(steps, w.peers[c].handle, p, c) && ApplicationCode(Some(frame)) && EndsRoom(w, end, p, c)
    ensures Enabled(Run(cfg, w, steps), end)
    ensures Possible(cfg, Next(cfg, Run(cfg, w, steps), end), later) ==>
      var u := Next(cfg, Run(cfg, w, steps), end);
      var v := Run(cfg, u, later);
      !Tells(v.peers, p, c) ==>
        && (OfferedTo(v.hub, c) == [frame] <==> end == Disconnect(p))
        && (TakenBy(v.hub, c) == [frame] <==> end == Disconnect(p) && RoomWhenTold(cfg, u, later, p, c))
  {
    SurvivorHears(cfg, w, steps, later, p, c, Some(frame));
    if end.Register? {
      SurvivorOfARegistration(cfg, w, steps, end.request, later, p, c, Some(frame));
    }
  }

  // ---- which registrations succeed ----

  function AnswerTo(cfg: Config, w: World, q: Request): Answer {
    RegisterAnswer(w.hub, q, Admits(cfg.registrationsPerSecond, w.seen, q.ip, q.now), cfg.cap)
  }

  predicate Joins(cfg: Config, w: World, q: Request) {
    AnswerTo(cfg, w, q).Joined?
  }

  // A Host gets its handle exactly when no live room has it, its address is within its allowance and
  // the other rooms leave one free under the cap; otherwise it is told the first of these that fails.
  lemma HostJoinsIff(cfg: Config, w: World, q: Request)
    requires Reachable(cfg, w) && q.role == Host
    ensures var allowed := Admits(cfg.registrationsPerSecond, w.seen, q.ip, q.now);
      var room := |w.hub.rooms.Keys - {q.handle}| < cfg.cap;
      && (Joins(cfg, w, q) <==> !Live(w.hub, q.handle) && allowed && room)
      && (AnswerTo(cfg, w, q) == Refused(HandleTaken) <==> Live(w.hub, q.handle))
      && (AnswerTo(cfg, w, q) == Refused(HandleRateLimited) <==> !Live(w.hub, q.handle) && !allowed)
      && (AnswerTo(cfg, w, q) == Refused(TooManyHandles) <==> !Live(w.hub, q.handle) && allowed && !room)
  {
    var t := TeardownFinished(w.hub, q.handle);
    if !Live(w.hub, q.handle) {
      assert t.rooms.Keys == w.hub.rooms.Keys - {q.handle};
      assert |t.rooms| == |t.rooms.Keys|;
    }
  }

  // The registration that made a room: a Host's request for the handle, `k` steps into a run, for the
  // connection that is the room's Host.
  predicate MadeAt(cfg: Config, w: World, steps: seq<Step>, k: nat, h: Handle, room: Room)
    requires Possible(cfg, w, steps) && k < |steps|
    decreases k
  {
    if k > 0 then MadeAt(cfg, Next(cfg, w, steps[0]), steps[1..], k - 1, h, room)
    else
      && steps[0].Register? && steps[0].request.handle == h && steps[0].request.role == Host
      && room.host == Some(w.hub.nextConn) && room.pairing == steps[0].request.pairing
      && room.hostRegisteredAt == steps[0].request.now
  }

  predicate SameHost(a: Room, b: Room) {
    a.host == b.host && a.pairing == b.pairing && a.hostRegisteredAt == b.hostRegisteredAt
  }

  // A step keeps what a room records of its Host, or is the registration that makes the room.
  lemma RoomStep(cfg: Config, w: World, step: Step, h: Handle)
    requires Enabled(w, step) && h in Next(cfg, w, step).hub.rooms
    ensures (h in w.hub.rooms && SameHost(w.hub.rooms[h], Next(cfg, w, step).hub.rooms[h]))
      || MadeAt(cfg, w, [step], 0, h, Next(cfg, w, step).hub.rooms[h])
  {
    if step.Register? {
      RegisterStep(cfg, w, step.request, h);
    }
  }

  lemma RegisterStep(cfg: Config, w: World, q: Request, h: Handle)
    requires h in AfterRegister(cfg, w, q).hub.rooms
    ensures var room := AfterRegister(cfg, w, q).hub.rooms[h];
      || (h in w.hub.rooms && SameHost(w.hub.rooms[h], room))
      || (q.handle == h && q.role == Host && room == Room(Some(w.hub.nextConn), None, q.now, q.pairing))
  {
  }

  lemma {:induction false} RoomIsAsMade(cfg: Config, w: World, steps: seq<Step>, h: Handle) returns (k: nat)
    requires Possible(cfg, w, steps) && h in Run(cfg, w, steps).hub.rooms
    ensures var room := Run(cfg, w, steps).hub.rooms[h];
      || (k == |steps| && h in w.hub.rooms && SameHost(w.hub.rooms[h], room))
      || (k < |steps| && MadeAt(cfg, w, steps, k, h, room))
    decreases |steps|
  {
    k := 0;
    if steps != [] {
      var u := Next(cfg, w, steps[0]);
      k := RoomIsAsMade(cfg, u, steps[1..], h);
      if k < |steps| - 1 {
        k := k + 1;
      } else {
        RoomStep(cfg, w, steps[0], h);
        k := if h in w.hub.rooms && SameHost(w.hub.rooms[h], u.hub.rooms[h]) then |steps| else 0;
      }
    }
  }

  // A room records the request its Host registered with; so a Device is late exactly when that request
  // asked for pairing and came more than 600 s before.
  lemma WindowIsTheHosts(cfg: Config, steps: seq<Step>, h: Handle, now: Time) returns (k: nat)
    requires Possible(cfg, START, steps) && h in Run(cfg, START, steps).hub.rooms
    ensures k < |steps| && steps[k].Register? && MadeAt(cfg, START, steps, k, h, Run(cfg, START, steps).hub.rooms[h])
    ensures WindowOver(Run(cfg, START, steps).hub.rooms[h], now) <==>
      steps[k].request.pairing && now > steps[k].request.now + 600 * SECOND
  {
    k := RoomIsAsMade(cfg, START, steps, h);
    MadeBy(cfg, START, steps, k, h, Run(cfg, START, steps).hub.rooms[h]);
  }

  lemma {:induction false} MadeBy(cfg: Config, w: World, steps: seq<Step>, k: nat, h: Handle, room: Room)
    requires Possible(cfg, w, steps) && k < |steps| && MadeAt(cfg, w, steps, k, h, room)
    ensures steps[k].Register? && room.pairing == steps[k].request.pairing
    ensures room.hostRegisteredAt == steps[k].request.now
    decreases k
  {
    if k > 0 {
      MadeBy(cfg, Next(cfg, w, steps[0]), steps[1..], k - 1, h, room);
    }
  }

  // Only a Host for whom the handle is free uses up its address's allowance, admitted or not; a Device
  // never does, nor a Host of a live room.
  lemma AllowanceIsUsedIff(cfg: Config, w: World, q: Request)
    ensures AfterRegister(cfg, w, q).seen ==
      if q.role == Device || Live(w.hub, q.handle) then w.seen
      else AfterAllow(cfg.registrationsPerSecond, w.seen, q.ip, q.now)
  {
  }

  predicate WindowOver(room: Room, now: Time) {
    room.pairing && Since(now, room.hostRegisteredAt) > PAIRING_WINDOW
  }

  // A Device joins exactly when its Host's room is live, a pairing Host registered at most 600 s ago
  // and the seat is empty; otherwise it is told the first of these that fails.
  lemma DeviceJoinsIff(cfg: Config, w: World, q: Request)
    requires Reachable(cfg, w) && q.role == Device
    ensures Joins(cfg, w, q) <==>
      && Live(w.hub, q.handle)
      && !WindowOver(w.hub.rooms[q.handle], q.now) && w.hub.rooms[q.handle].device == None
    ensures AnswerTo(cfg, w, q) == Refused(HandleUnknown) <==> !Live(w.hub, q.handle)
    ensures AnswerTo(cfg, w, q) == Refused(PairingExpired) <==>
      Live(w.hub, q.handle) && WindowOver(w.hub.rooms[q.handle], q.now)
    ensures AnswerTo(cfg, w, q) == Refused(HostInUse) <==>
      && Live(w.hub, q.handle)
      && !WindowOver(w.hub.rooms[q.handle], q.now) && w.hub.rooms[q.handle].device.Some?
  {
  }

  lemma RefusalKeepsRoom(cfg: Config, w: World, q: Request, h: Handle)
    requires Live(w.hub, h) && (h != q.handle || !Joins(cfg, w, q))
    ensures var u := AfterRegister(cfg, w, q); h in u.hub.rooms && u.hub.rooms[h] == w.hub.rooms[h]
  {
  }

  // A registration refused, or on another handle, leaves a live room and its channels as they were.
  lemma RefusalTouchesNoLiveRoom(cfg: Config, w: World, q: Request, h: Handle, role: Role, c: Conn)
    requires Reachable(cfg, w) && Live(w.hub, h) && (h != q.handle || !Joins(cfg, w, q))
    requires Owns(w.hub, h, role, c)
    ensures var u := AfterRegister(cfg, w, q).hub;
      && h in u.rooms && u.rooms[h] == w.hub.rooms[h]
      && c in u.channels && c in w.hub.channels && u.channels[c] == w.hub.channels[c]
  {
    ReachableInv(cfg, w);
    assert SlotOf(w, h, role, c);
    RefusalKeepsRoom(cfg, w, q, h);
    RegisterTouches(cfg, w, q, c);
    TeardownTouches(w, q.handle, c);
  }

  // Forwarding looks the peer up by handle and role, not by room: a Device still draining after its
  // Host was replaced reaches the new Host.
  lemma StragglerReachesTheNewHost(cfg: Config, w: World, q: Request, p: Conn, c: Conn)
    requires Reachable(cfg, w) && Roommates(w, p, c) && w.peers[p].role == Host
    requires !Open(w.hub, p) && Idle(w, c)
    requires q.role == Host && q.handle == w.peers[c].handle && Joins(cfg, w, q)
    ensures var u := AfterRegister(cfg, w, q);
      && !InRoom(u, c) && Idle(u, c)
      && PeerOf(u.hub, u.peers[c].handle, u.peers[c].role) == Some(w.hub.nextConn)
  {
    ReachableInv(cfg, w);
    PartnerIsSlot(w, p, c);
    NextConnIsFresh(w);
    assert Told(w, c);
  }
}
