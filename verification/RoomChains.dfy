/**
 Chains of connections that wait for each other's queues. A connection out of its room can wait for
 somebody in the room that came after, so a chain can be long; it ends at somebody who can move, or in
 two roommates that wait for each other.
 */
module RoomChains {
  import opened Prelude
  import opened Limits
  import opened Rooms
  import opened RoomSafety
  import opened RoomClosing
  import opened RoomRuns
  import opened RoomWedge

  function Target(w: World, p: Conn): Option<Conn> {
    if p in w.peers && w.peers[p].phase.Running? && w.peers[p].phase.sending.Some?
    then Some(w.peers[p].phase.sending.value.to) else None
  }

  // Following who waits for whom from `p`, at most `n` further on two wait for each other.
  predicate LeadsToWedge(w: World, p: Conn, n: nat)
    decreases n
  {
    && Target(w, p).Some? && WaitsOn(w, p, Target(w, p).value)
    && (WaitsOn(w, Target(w, p).value, p) || (n > 0 && LeadsToWedge(w, Target(w, p).value, n - 1)))
  }

  lemma {:induction false} LedStays(cfg: Config, w: World, step: Step, p: Conn, n: nat)
    requires ChannelInv(w) && LeadsToWedge(w, p, n) && Enabled(w, step)
    ensures LeadsToWedge(Next(cfg, w, step), p, n)
    decreases n
  {
    var c := Target(w, p).value;
    WaitStays(cfg, w, step, p, c);
    if WaitsOn(w, c, p) {
      WaitStays(cfg, w, step, c, p);
    } else {
      LedStays(cfg, w, step, c, n - 1);
    }
  }

  lemma {:induction false} LedForGood(cfg: Config, w: World, steps: seq<Step>, p: Conn, n: nat)
    requires Inv(cfg, w) && Possible(cfg, w, steps) && LeadsToWedge(w, p, n)
    ensures LeadsToWedge(Run(cfg, w, steps), p, n)
    decreases |steps|
  {
    if steps != [] {
      LedStays(cfg, w, steps[0], p, n);
      StepKeepsInv(cfg, w, steps[0]);
      LedForGood(cfg, Next(cfg, w, steps[0]), steps[1..], p, n);
    }
  }

  // Following who waits for whom from `p`, at most `n` further on somebody can move.
  predicate ReachesMover(w: World, p: Conn, n: nat)
    decreases n
  {
    CanMove(w, p) || (n > 0 && Target(w, p).Some? && ReachesMover(w, Target(w, p).value, n - 1))
  }

  // ---- whoever waits for a mover moves in some run ----

  lemma OnlyItsOwnSteps(cfg: Config, w: World, step: Step, p: Conn)
    requires ChannelInv(w) && Enabled(w, step) && p in w.peers && !StepOf(step, p)
    ensures p in Next(cfg, w, step).peers && Next(cfg, w, step).peers[p] == w.peers[p]
  {
    if step.Register? {
      RegisterTouches(cfg, w, step.request, p);
    }
  }

  lemma Prepend(cfg: Config, w: World, step: Step, rest: seq<Step>)
    requires Enabled(w, step) && Possible(cfg, Next(cfg, w, step), rest)
    ensures Possible(cfg, w, [step] + rest) && Run(cfg, w, [step] + rest) == Run(cfg, Next(cfg, w, step), rest)
  {
    assert ([step] + rest)[1..] == rest;
  }

  // Along a run `p` moves at some point, or is at the end where it was.
  lemma {:induction false} MovesOrStays(cfg: Config, w: World, steps: seq<Step>, p: Conn) returns (some: seq<Step>)
    requires Inv(cfg, w) && Possible(cfg, w, steps) && IsRunning(w, p)
    ensures Possible(cfg, w, some)
    ensures CanMove(Run(cfg, w, some), p) || Unmoved(cfg, w, steps, some, p)
    decreases |steps|
  {
    some := [];
    if !CanMove(w, p) && steps != [] {
      StuckStays(cfg, w, steps[0], p);
      var rest := MovesOrStays(cfg, Next(cfg, w, steps[0]), steps[1..], p);
      Prepend(cfg, w, steps[0], rest);
      some := [steps[0]] + rest;
    }
  }

  // `some` ends where `steps` do, and `p` is as it was.
  predicate Unmoved(cfg: Config, w: World, steps: seq<Step>, some: seq<Step>, p: Conn)
    requires Possible(cfg, w, steps) && Possible(cfg, w, some)
  {
    && Run(cfg, w, some) == Run(cfg, w, steps)
    && p in w.peers && p in Run(cfg, w, steps).peers && Run(cfg, w, steps).peers[p] == w.peers[p]
  }

  lemma StuckStays(cfg: Config, w: World, step: Step, p: Conn)
    requires Inv(cfg, w) && Enabled(w, step) && IsRunning(w, p) && !CanMove(w, p)
    ensures Inv(cfg, Next(cfg, w, step))
    ensures IsRunning(Next(cfg, w, step), p) && Next(cfg, w, step).peers[p] == w.peers[p]
  {
    CannotMove(w, p, step);
    OnlyItsOwnSteps(cfg, w, step, p);
    StepKeepsInv(cfg, w, step);
  }

  // An idle connection drains, and the one waiting for it can send.
  lemma DrainFrees(cfg: Config, w: World, p: Conn, c: Conn)
    requires ChannelInv(w) && WaitsOn(w, p, c) && Idle(w, c)
    ensures Enabled(w, Drain(c)) && CanSend(Next(cfg, w, Drain(c)), p)
  {
    assert Told(w, c);
  }

  // One that can send does, and is idle; the queue it leaves full behind it is its own.
  lemma SendFrees(cfg: Config, w: World, p: Conn, c: Conn)
    requires ChannelInv(w) && IsolationInv(w) && WaitsOn(w, p, c) && CanSend(w, c) && p != c
    ensures Enabled(w, Deliver(c))
    ensures WaitsOn(Next(cfg, w, Deliver(c)), p, c) && Idle(Next(cfg, w, Deliver(c)), c)
  {
    assert PhaseFacing(w.peers, c, w.peers[c].phase);
  }

  lemma MoverFrees(cfg: Config, w: World, p: Conn, c: Conn) returns (steps: seq<Step>)
    requires Inv(cfg, w) && WaitsOn(w, p, c) && CanMove(w, c)
    ensures Possible(cfg, w, steps) && CanMove(Run(cfg, w, steps), p)
  {
    assert p != c by {
      assert PhaseFacing(w.peers, p, w.peers[p].phase);
    }
    if Idle(w, c) {
      DrainFrees(cfg, w, p, c);
      Once(cfg, w, Drain(c));
      steps := [Drain(c)];
    } else {
      SendFrees(cfg, w, p, c);
      StepKeepsInv(cfg, w, Deliver(c));
      DrainFrees(cfg, Next(cfg, w, Deliver(c)), p, c);
      Twice(cfg, w, Deliver(c), Drain(c));
      steps := [Deliver(c), Drain(c)];
    }
  }

  lemma {:induction false} MovesEventually(cfg: Config, w: World, p: Conn, n: nat) returns (steps: seq<Step>)
    requires Inv(cfg, w) && IsRunning(w, p) && ReachesMover(w, p, n)
    ensures Possible(cfg, w, steps) && CanMove(Run(cfg, w, steps), p)
    decreases n
  {
    steps := [];
    if !CanMove(w, p) {
      var c := Target(w, p).value;
      StuckWaits(cfg, w, p);
      TargetRuns(cfg, w, p);
      var before := MovesEventually(cfg, w, c, n - 1);
      steps := MovesOrStays(cfg, w, before, p);
      var u := Run(cfg, w, steps);
      RunKeepsInv(cfg, w, steps);
      if !CanMove(u, p) {
        StuckWaits(cfg, u, p);
        var after := MoverFrees(cfg, u, p, c);
        RunsConcatenate(cfg, w, steps, after);
        steps := steps + after;
      }
    }
  }

  lemma TargetRuns(cfg: Config, w: World, p: Conn)
    requires Inv(cfg, w) && IsRunning(w, p) && !CanMove(w, p)
    ensures var c := Target(w, p).value;
      Target(w, p).Some? && WaitsOn(w, p, c) && IsRunning(w, c) && Facing(w.peers, p, c) && c < w.hub.nextConn
  {
    StuckWaits(cfg, w, p);
    assert PhaseFacing(w.peers, p, w.peers[p].phase);
    assert Told(w, Target(w, p).value);
  }

  // ---- every chain ends ----

  // Whoever is left over on a handle joined before the Host that has it now.
  predicate NewestRoom(w: World, h: Handle) {
    h in w.hub.rooms ==>
      && w.hub.rooms[h].host.Some?
      && (w.hub.rooms[h].device.Some? ==> w.hub.rooms[h].host.value < w.hub.rooms[h].device.value)
      && forall d :: d in w.peers && w.peers[d].handle == h && !InRoom(w, d) ==> d < w.hub.rooms[h].host.value
  }

  // A Device waits for a Host that sends to that Device or to a later one.
  predicate Onward(w: World, x: Conn) {
    x in w.peers && w.peers[x].role == Device && Target(w, x).Some? && Target(w, Target(w, x).value).Some? ==>
      x <= Target(w, Target(w, x).value).value
  }

  ghost predicate OrderInv(w: World) {
    && (forall h :: NewestRoom(w, h))
    && (forall p :: Addressed(w, p))
    && (forall x :: Onward(w, x))
  }

  lemma KnownAreOlder(w: World, d: Conn)
    requires ChannelInv(w) && d in w.peers
    ensures d < w.hub.nextConn
  {
    assert Told(w, d);
  }

  // The newcomer is in its room, so whoever is left over was there before.
  lemma RegisterLeavesOver(cfg: Config, w: World, q: Request, d: Conn)
    requires ChannelInv(w) && d in AfterRegister(cfg, w, q).peers && !InRoom(AfterRegister(cfg, w, q), d)
    ensures d in w.peers && d < w.hub.nextConn && w.peers[d] == AfterRegister(cfg, w, q).peers[d]
  {
    NextConnIsFresh(w);
    if d in w.peers {
      RegisterTouches(cfg, w, q, d);
      KnownAreOlder(w, d);
    }
  }

  // A room after a registration is new, or has the Host it had and perhaps the newcomer for a Device.
  lemma RegisterRooms(cfg: Config, w: World, q: Request, h: Handle)
    requires h in AfterRegister(cfg, w, q).hub.rooms
    ensures var room, mine := AfterRegister(cfg, w, q).hub.rooms[h], w.hub.nextConn;
      || (room.host == Some(mine) && room.device == None)
      || (h in w.hub.rooms && room == w.hub.rooms[h])
      || (h in w.hub.rooms && room == w.hub.rooms[h].(device := Some(mine)) && w.hub.rooms[h].device == None)
  {
  }

  lemma RegisterKeepsNewest(cfg: Config, w: World, q: Request, h: Handle)
    requires RoomInv(w) && ChannelInv(w) && NewestRoom(w, h)
    ensures NewestRoom(AfterRegister(cfg, w, q), h)
  {
    var u := AfterRegister(cfg, w, q);
    if h in u.hub.rooms {
      RegisterRooms(cfg, w, q, h);
      if h in w.hub.rooms {
        assert SlotOf(w, h, Host, w.hub.rooms[h].host.value);
        KnownAreOlder(w, w.hub.rooms[h].host.value);
      }
      forall d | d in u.peers && u.peers[d].handle == h && !InRoom(u, d)
        ensures d < u.hub.rooms[h].host.value
      {
        RegisterLeavesOver(cfg, w, q, d);
      }
    }
  }

  predicate SameSeat(w: World, u: World, d: Conn)
    requires d in w.peers && d in u.peers
  {
    u.peers[d].handle == w.peers[d].handle && u.peers[d].role == w.peers[d].role
  }

  lemma LeavingKeepsNewest(cfg: Config, w: World, step: Step, h: Handle)
    requires RoomInv(w) && Enabled(w, step) && !step.Register? && NewestRoom(w, h)
    ensures NewestRoom(Next(cfg, w, step), h)
  {
    var u := Next(cfg, w, step);
    if h in u.hub.rooms {
      assert u.hub.rooms[h] == w.hub.rooms[h];
      forall d | d in u.peers && u.peers[d].handle == h && !InRoom(u, d)
        ensures d < u.hub.rooms[h].host.value
      {
        SeatsStay(cfg, w, step, d);
      }
    }
  }

  lemma SeatsStay(cfg: Config, w: World, step: Step, d: Conn)
    requires Enabled(w, step) && !step.Register? && d in Next(cfg, w, step).peers
    ensures d in w.peers && SameSeat(w, Next(cfg, w, step), d)
  {
  }

  lemma OthersKeepOnward(cfg: Config, w: World, step: Step, x: Conn)
    requires ChannelInv(w) && Enabled(w, step) && !step.Lookup? && Onward(w, x)
    ensures Onward(Next(cfg, w, step), x)
  {
    TargetsStay(cfg, w, step, x);
    if Target(w, x).Some? {
      TargetsStay(cfg, w, step, Target(w, x).value);
    }
  }

  // Only a lookup gives a connection somebody to send to.
  lemma TargetsStay(cfg: Config, w: World, step: Step, x: Conn)
    requires ChannelInv(w) && Enabled(w, step) && !step.Lookup?
    ensures Target(Next(cfg, w, step), x).Some? ==>
      && Target(Next(cfg, w, step), x) == Target(w, x)
      && x in w.peers && Next(cfg, w, step).peers[x].role == w.peers[x].role
  {
    NextConnIsFresh(w);
    if step.Register? && x in w.peers {
      RegisterTouches(cfg, w, step.request, x);
    }
  }

  // A Device that finds a Host which is itself sending.
  lemma DeviceFinds(w: World, p: Conn, t: Conn)
    requires RoomInv(w) && OrderInv(w) && p in w.peers && w.peers[p].role == Device
    requires PeerOf(w.hub, w.peers[p].handle, Device) == Some(t) && Target(w, t).Some?
    ensures p <= Target(w, t).value
  {
    var h := w.peers[p].handle;
    assert SlotOf(w, h, Host, t);
    assert Addressed(w, t) && InRoom(w, t) && NewestRoom(w, h);
  }

  // A Host that finds a Device while another Device waits for that Host.
  lemma HostFinds(w: World, p: Conn, t: Conn, x: Conn)
    requires RoomInv(w) && IsolationInv(w) && OrderInv(w) && p in w.peers && w.peers[p].role == Host
    requires PeerOf(w.hub, w.peers[p].handle, Host) == Some(t)
    requires x in w.peers && w.peers[x].role == Device && Target(w, x) == Some(p)
    ensures x <= t
  {
    var h := w.peers[p].handle;
    assert PhaseFacing(w.peers, x, w.peers[x].phase);
    assert SlotOf(w, h, Device, t);
    assert Addressed(w, x) && NewestRoom(w, h);
  }

  lemma LookupKeepsOnward(w: World, p: Conn, payload: seq<nat>, x: Conn)
    requires RoomInv(w) && IsolationInv(w) && OrderInv(w) && Idle(w, p)
    ensures Onward(AfterLookup(w, p, payload), x)
  {
    var u, to := AfterLookup(w, p, payload), PeerOf(w.hub, w.peers[p].handle, w.peers[p].role);
    if to.Some? && x in u.peers && u.peers[x].role == Device && Target(u, x).Some? {
      LookupTargets(w, p, payload, x);
      LookupTargets(w, p, payload, Target(u, x).value);
      if x == p {
        if Target(w, to.value).Some? && to.value != p {
          DeviceFinds(w, p, to.value);
        }
      } else if Target(w, x) == Some(p) {
        assert PhaseFacing(w.peers, x, w.peers[x].phase);
        HostFinds(w, p, to.value, x);
      } else {
        assert Onward(w, x);
      }
    }
  }

  lemma LookupTargets(w: World, p: Conn, payload: seq<nat>, x: Conn)
    requires Idle(w, p)
    ensures var to := PeerOf(w.hub, w.peers[p].handle, w.peers[p].role);
      Target(AfterLookup(w, p, payload), x) == if x == p && to.Some? then to else Target(w, x)
  {
  }

  lemma StepKeepsOrder(cfg: Config, w: World, step: Step)
    requires Inv(cfg, w) && OrderInv(w) && Enabled(w, step)
    ensures OrderInv(Next(cfg, w, step))
  {
    var u := Next(cfg, w, step);
    forall h
      ensures NewestRoom(u, h)
    {
      if step.Register? {
        RegisterKeepsNewest(cfg, w, step.request, h);
      } else {
        LeavingKeepsNewest(cfg, w, step, h);
      }
    }
    forall p
      ensures Addressed(u, p)
    {
      StepKeepsAddress(cfg, w, step, p);
    }
    forall x
      ensures Onward(u, x)
    {
      if step.Lookup? {
        LookupKeepsOnward(w, step.conn, step.payload, x);
      } else {
        OthersKeepOnward(cfg, w, step, x);
      }
    }
  }

  lemma {:induction false} RunKeepsOrder(cfg: Config, w: World, steps: seq<Step>)
    requires Inv(cfg, w) && OrderInv(w) && Possible(cfg, w, steps)
    ensures OrderInv(Run(cfg, w, steps))
    decreases |steps|
  {
    if steps != [] {
      StepKeepsOrder(cfg, w, steps[0]);
      StepKeepsInv(cfg, w, steps[0]);
      RunKeepsOrder(cfg, Next(cfg, w, steps[0]), steps[1..]);
    }
  }

  lemma ReachableOrder(cfg: Config, w: World)
    requires Reachable(cfg, w)
    ensures Inv(cfg, w) && OrderInv(w)
  {
    ReachableInv(cfg, w);
    var steps: seq<Step> :| Possible(cfg, START, steps) && Run(cfg, START, steps) == w;
    RunKeepsOrder(cfg, START, steps);
  }

  lemma {:induction false} DeviceChainEnds(cfg: Config, w: World, p: Conn) returns (n: nat)
    requires Inv(cfg, w) && OrderInv(w) && IsRunning(w, p) && w.peers[p].role == Device
    ensures LeadsToWedge(w, p, n) || ReachesMover(w, p, n)
    decreases if p < w.hub.nextConn then w.hub.nextConn - p else 0
  {
    n := 0;
    if !CanMove(w, p) {
      TargetRuns(cfg, w, p);
      var c := Target(w, p).value;
      n := 1;
      if !CanMove(w, c) {
        TargetRuns(cfg, w, c);
        var d := Target(w, c).value;
        assert Onward(w, p);
        if d != p {
          n := DeviceChainEnds(cfg, w, d);
          n := n + 2;
        }
      }
    }
  }

  lemma ChainEnds(cfg: Config, w: World, p: Conn) returns (n: nat)
    requires Inv(cfg, w) && OrderInv(w) && IsRunning(w, p)
    ensures LeadsToWedge(w, p, n) || ReachesMover(w, p, n)
  {
    n := 0;
    if w.peers[p].role == Device {
      n := DeviceChainEnds(cfg, w, p);
    } else if !CanMove(w, p) {
      TargetRuns(cfg, w, p);
      n := DeviceChainEnds(cfg, w, Target(w, p).value);
      n := n + 1;
    }
  }

  // ---- exactly which connections never move again ----

  ghost predicate Still(w: World, p: Conn) {
    forall step :: Enabled(w, step) ==> !StepOf(step, p)
  }

  // Whatever anyone does, no step of `p` is possible, now or ever.
  ghost predicate StuckForGood(cfg: Config, w: World, p: Conn) {
    forall steps :: Possible(cfg, w, steps) ==> Still(Run(cfg, w, steps), p)
  }

  lemma StillMeans(w: World, p: Conn)
    requires IsRunning(w, p)
    ensures Still(w, p) <==> !CanMove(w, p)
  {
    if CanMove(w, p) {
      SomeoneCanMove(w, p);
    } else {
      forall step | Enabled(w, step)
        ensures !StepOf(step, p)
      {
        CannotMove(w, p, step);
      }
    }
  }

  lemma LedIsStuck(cfg: Config, w: World, p: Conn, n: nat)
    requires Inv(cfg, w) && LeadsToWedge(w, p, n)
    ensures StuckForGood(cfg, w, p)
  {
    forall steps | Possible(cfg, w, steps)
      ensures Still(Run(cfg, w, steps), p)
    {
      LedForGood(cfg, w, steps, p, n);
      StillMeans(Run(cfg, w, steps), p);
    }
  }

  // A running connection never moves again exactly when the connections it waits for, one after the
  // other, lead to two that wait for each other.
  lemma StuckForGoodIff(cfg: Config, w: World, p: Conn)
    requires Reachable(cfg, w) && IsRunning(w, p)
    ensures StuckForGood(cfg, w, p) <==> exists n: nat :: LeadsToWedge(w, p, n)
  {
    ReachableOrder(cfg, w);
    var n := ChainEnds(cfg, w, p);
    if LeadsToWedge(w, p, n) {
      LedIsStuck(cfg, w, p, n);
    } else {
      var steps := MovesEventually(cfg, w, p, n);
      StillMeans(Run(cfg, w, steps), p);
      forall m: nat
        ensures !LeadsToWedge(w, p, m)
      {
        if LeadsToWedge(w, p, m) {
          LedIsStuck(cfg, w, p, m);
        }
      }
    }
  }

  // ---- a run that leaves a Host waiting outside its room ----

  lemma ReachableNext(cfg: Config, w: World, step: Step)
    requires Reachable(cfg, w) && Enabled(w, step)
    ensures Reachable(cfg, Next(cfg, w, step))
  {
    var steps: seq<Step> :| Possible(cfg, START, steps) && Run(cfg, START, steps) == w;
    Once(cfg, w, step);
    RunsConcatenate(cfg, START, steps, [step]);
  }

  // The Device of the pair has left, and its Host runs on in no room.
  lemma AHostIsAlone(cfg: Config, h: Handle, ip: Ip) returns (w: World)
    requires cfg.cap >= 1 && cfg.registrationsPerSecond >= 1
    ensures Reachable(cfg, w) && w.hub.rooms == map[] && w.hub.nextConn == 2 && w.seen == map[ip := [0]]
    ensures Idle(w, HOST) && w.peers[HOST].handle == h && w.peers[HOST].role == Host
  {
    w := Pair(h, ip);
    ReachesFromPair(cfg, h, ip, []);
    ReachableNext(cfg, w, DropReceiver(DEVICE, None));
    w := Next(cfg, w, DropReceiver(DEVICE, None));
    ReachableNext(cfg, w, Disconnect(DEVICE));
    w := Next(cfg, w, Disconnect(DEVICE));
  }

  // Another Host takes the handle.
  lemma AHandleIsTakenOver(cfg: Config, h: Handle, ip: Ip) returns (w: World)
    requires cfg.cap >= 1 && cfg.registrationsPerSecond >= 2
    ensures Reachable(cfg, w) && Idle(w, HOST) && w.peers[HOST].handle == h && w.peers[HOST].role == Host
    ensures w.hub.rooms == map[h := Room(Some(2), None, 0, false)] && w.hub.nextConn == 3 && Open(w.hub, 2)
  {
    var q := Request(h, Host, ip, 0, false);
    w := AHostIsAlone(cfg, h, ip);
    assert TeardownFinished(w.hub, h) == w.hub;
    ReachableNext(cfg, w, Register(q));
    w := AfterRegister(cfg, w, q);
  }

  // And a Device joins it.
  lemma ANewPairIsFormed(cfg: Config, h: Handle, ip: Ip) returns (w: World)
    requires cfg.cap >= 1 && cfg.registrationsPerSecond >= 2
    ensures Reachable(cfg, w) && Idle(w, HOST) && w.peers[HOST].handle == h && w.peers[HOST].role == Host
    ensures w.hub.rooms == map[h := Room(Some(2), Some(3), 0, false)]
  {
    var q := Request(h, Device, ip, 0, false);
    w := AHandleIsTakenOver(cfg, h, ip);
    assert TeardownFinished(w.hub, h) == w.hub;
    ReachableNext(cfg, w, Register(q));
    w := AfterRegister(cfg, w, q);
  }

  // The Host left over then sends to the Device of a room that is not its own.
  lemma AStrandedHostSendsOn(cfg: Config, h: Handle, ip: Ip, payload: seq<nat>) returns (w: World)
    requires cfg.cap >= 1 && cfg.registrationsPerSecond >= 2
    ensures Reachable(cfg, w) && IsRunning(w, HOST) && w.peers[HOST].role == Host && !InRoom(w, HOST)
    ensures Target(w, HOST) == Some(3) && Owns(w.hub, h, Device, 3)
  {
    w := ANewPairIsFormed(cfg, h, ip);
    ReachableNext(cfg, w, Lookup(HOST, payload));
    w := AfterLookup(w, HOST, payload);
  }
}
