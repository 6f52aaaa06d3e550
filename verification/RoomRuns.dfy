/**
 Runs of the relay that reach what the theorems about rooms speak of: queues that fill up, a survivor
 told by its peer, and one whose peer's close is lost, to a registration or for want of room.
 */
module RoomRuns {
  import opened Prelude
  import opened Limits
  import opened Rooms
  import opened RoomSafety
  import opened RoomClosing

  const HOST: Conn := 0
  const DEVICE: Conn := 1

  lemma Once(cfg: Config, w: World, step: Step)
    requires Enabled(w, step)
    ensures Possible(cfg, w, [step]) && Run(cfg, w, [step]) == Next(cfg, w, step)
  {
    assert [step][1..] == [];
    assert Run(cfg, Next(cfg, w, step), []) == Next(cfg, w, step);
  }

  lemma Twice(cfg: Config, w: World, a: Step, b: Step)
    requires Enabled(w, a) && Enabled(Next(cfg, w, a), b)
    ensures Possible(cfg, w, [a, b]) && Run(cfg, w, [a, b]) == Next(cfg, Next(cfg, w, a), b)
  {
    assert [a, b][1..] == [b] && [b][1..] == [];
    assert Possible(cfg, Next(cfg, w, a), [b]);
    assert Run(cfg, Next(cfg, w, a), [b]) == Next(cfg, Next(cfg, w, a), b);
  }

  function Joining2(h: Handle, ip: Ip): seq<Step> {
    [Register(Request(h, Host, ip, 0, false)), Register(Request(h, Device, ip, 0, false))]
  }

  // A Host and a Device that have just joined.
  function Pair(h: Handle, ip: Ip): World {
    World(Hub(map[h := Room(Some(HOST), Some(DEVICE), 0, false)],
              map[HOST := NEW_CHANNEL, DEVICE := NEW_CHANNEL], 2),
          map[ip := [0]],
          map[HOST := Peer(h, Host, Running(None)), DEVICE := Peer(h, Device, Running(None))])
  }

  function HostAlone(h: Handle, ip: Ip): World {
    World(Hub(map[h := Room(Some(HOST), None, 0, false)], map[HOST := NEW_CHANNEL], 1),
          map[ip := [0]], map[HOST := Peer(h, Host, Running(None))])
  }

  lemma HostJoins(cfg: Config, h: Handle, ip: Ip)
    requires cfg.cap >= 1 && cfg.registrationsPerSecond >= 1
    ensures AfterRegister(cfg, START, Request(h, Host, ip, 0, false)) == HostAlone(h, ip)
  {
    var q, empty: map<Ip, seq<Time>> := Request(h, Host, ip, 0, false), map[];
    var none: seq<Time> := Recent(EventsOf(empty, ip), 0);
    assert none == [] && none + [0] == [0];
    assert AfterAllow(cfg.registrationsPerSecond, empty, ip, 0) == map[ip := [0]];
    assert TeardownFinished(START.hub, h) == START.hub;
    assert RegisterAnswer(START.hub, q, true, cfg.cap) == Joined(HOST, true);
  }

  lemma DeviceJoins(cfg: Config, h: Handle, ip: Ip)
    ensures AfterRegister(cfg, HostAlone(h, ip), Request(h, Device, ip, 0, false)) == Pair(h, ip)
  {
    assert TeardownFinished(HostAlone(h, ip).hub, h) == HostAlone(h, ip).hub;
  }

  lemma PairIsReached(cfg: Config, h: Handle, ip: Ip)
    requires cfg.cap >= 1 && cfg.registrationsPerSecond >= 1
    ensures Possible(cfg, START, Joining2(h, ip)) && Run(cfg, START, Joining2(h, ip)) == Pair(h, ip)
  {
    HostJoins(cfg, h, ip);
    DeviceJoins(cfg, h, ip);
    Twice(cfg, START, Joining2(h, ip)[0], Joining2(h, ip)[1]);
  }

  lemma {:induction false} RunsConcatenate(cfg: Config, w: World, a: seq<Step>, b: seq<Step>)
    requires Possible(cfg, w, a) && Possible(cfg, Run(cfg, w, a), b)
    ensures Possible(cfg, w, a + b) && Run(cfg, w, a + b) == Run(cfg, Run(cfg, w, a), b)
    decreases |a|
  {
    if a == [] {
      assert a + b == b;
    } else {
      assert (a + b)[1..] == a[1..] + b;
      RunsConcatenate(cfg, Next(cfg, w, a[0]), a[1..], b);
    }
  }

  lemma ReachesFromPair(cfg: Config, h: Handle, ip: Ip, steps: seq<Step>)
    requires cfg.cap >= 1 && cfg.registrationsPerSecond >= 1 && Possible(cfg, Pair(h, ip), steps)
    ensures Reachable(cfg, Run(cfg, Pair(h, ip), steps))
  {
    PairIsReached(cfg, h, ip);
    RunsConcatenate(cfg, START, Joining2(h, ip), steps);
    assert Possible(cfg, START, Joining2(h, ip) + steps);
  }

  // ---- filling queues ----

  function Frames(from: Conn, payload: seq<nat>, n: nat): (queue: seq<Message>)
    ensures |queue| == n
  {
    if n == 0 then [] else Frames(from, payload, n - 1) + [Binary(from, payload)]
  }

  // The pair, with `n` frames queued for the Device and `m` for the Host.
  function Laden(h: Handle, ip: Ip, payload: seq<nat>, n: nat, m: nat, host: Phase, device: Phase): World {
    World(Hub(map[h := Room(Some(HOST), Some(DEVICE), 0, false)],
              map[HOST := Channel(true, Frames(DEVICE, payload, m), [], []),
                  DEVICE := Channel(true, Frames(HOST, payload, n), [], [])], 2),
          map[ip := [0]], map[HOST := Peer(h, Host, host), DEVICE := Peer(h, Device, device)])
  }

  lemma HostSends(cfg: Config, h: Handle, ip: Ip, payload: seq<nat>, n: nat, m: nat, device: Phase)
    ensures var w := Laden(h, ip, payload, n, m, Running(None), device);
      var u := Laden(h, ip, payload, n, m, Running(Some(Sending(DEVICE, payload))), device);
      && Enabled(w, Lookup(HOST, payload)) && Next(cfg, w, Lookup(HOST, payload)) == u
      && (n < QUEUE_DEPTH ==>
            Enabled(u, Deliver(HOST))
            && Next(cfg, u, Deliver(HOST)) == Laden(h, ip, payload, n + 1, m, Running(None), device))
  {
  }

  lemma DeviceSends(cfg: Config, h: Handle, ip: Ip, payload: seq<nat>, n: nat, m: nat, host: Phase)
    ensures var w := Laden(h, ip, payload, n, m, host, Running(None));
      var u := Laden(h, ip, payload, n, m, host, Running(Some(Sending(HOST, payload))));
      && Enabled(w, Lookup(DEVICE, payload)) && Next(cfg, w, Lookup(DEVICE, payload)) == u
      && (m < QUEUE_DEPTH ==>
            Enabled(u, Deliver(DEVICE))
            && Next(cfg, u, Deliver(DEVICE)) == Laden(h, ip, payload, n, m + 1, host, Running(None)))
  {
  }

  lemma {:induction false} HostFills(cfg: Config, h: Handle, ip: Ip, payload: seq<nat>, n: nat)
    returns (steps: seq<Step>)
    requires n <= QUEUE_DEPTH
    ensures var w := Laden(h, ip, payload, 0, 0, Running(None), Running(None));
      Possible(cfg, w, steps) && Run(cfg, w, steps) == Laden(h, ip, payload, n, 0, Running(None), Running(None))
  {
    steps := [];
    if n > 0 {
      var w := Laden(h, ip, payload, 0, 0, Running(None), Running(None));
      steps := HostFills(cfg, h, ip, payload, n - 1);
      HostSends(cfg, h, ip, payload, n - 1, 0, Running(None));
      Twice(cfg, Run(cfg, w, steps), Lookup(HOST, payload), Deliver(HOST));
      RunsConcatenate(cfg, w, steps, [Lookup(HOST, payload), Deliver(HOST)]);
      steps := steps + [Lookup(HOST, payload), Deliver(HOST)];
    }
  }

  lemma {:induction false} DeviceFills(cfg: Config, h: Handle, ip: Ip, payload: seq<nat>, n: nat, m: nat)
    returns (steps: seq<Step>)
    requires m <= QUEUE_DEPTH
    ensures var w := Laden(h, ip, payload, n, 0, Running(None), Running(None));
      Possible(cfg, w, steps) && Run(cfg, w, steps) == Laden(h, ip, payload, n, m, Running(None), Running(None))
  {
    steps := [];
    if m > 0 {
      var w := Laden(h, ip, payload, n, 0, Running(None), Running(None));
      steps := DeviceFills(cfg, h, ip, payload, n, m - 1);
      DeviceSends(cfg, h, ip, payload, n, m - 1, Running(None));
      Twice(cfg, Run(cfg, w, steps), Lookup(DEVICE, payload), Deliver(DEVICE));
      RunsConcatenate(cfg, w, steps, [Lookup(DEVICE, payload), Deliver(DEVICE)]);
      steps := steps + [Lookup(DEVICE, payload), Deliver(DEVICE)];
    }
  }

  // ---- closes ----

  // The Host drops its receiver with a close of its own.
  function HostDropped(h: Handle, ip: Ip, frame: CloseFrame): World {
    AfterDrop(Pair(h, ip), HOST, Some(frame))
  }

  lemma HostDroppedIsReached(cfg: Config, h: Handle, ip: Ip, frame: CloseFrame)
    requires cfg.cap >= 1 && cfg.registrationsPerSecond >= 1
    ensures Reachable(cfg, HostDropped(h, ip, frame))
    ensures Bereaved(HostDropped(h, ip, frame), HOST, DEVICE, Some(frame))
  {
    var drop := DropReceiver(HOST, Some(frame));
    Once(cfg, Pair(h, ip), drop);
    ReachesFromPair(cfg, h, ip, [drop]);
  }

  // A run in which the Host's application close is lost: another registration of the handle comes
  // before its disconnect, and the Device hears a plain departure.
  lemma ACloseIsLost(cfg: Config, h: Handle, ip: Ip, frame: CloseFrame)
    requires cfg.cap >= 1 && cfg.registrationsPerSecond >= 2 && ApplicationCode(Some(frame))
    ensures var w := HostDropped(h, ip, frame);
      var end := Register(Request(h, Host, ip, 0, false));
      && Reachable(cfg, w) && Enabled(w, end)
      && OfferedTo(Next(cfg, w, end).hub, DEVICE) == [GoneFrame(Host)] != [frame]
  {
    HostDroppedIsReached(cfg, h, ip, frame);
    ReachableInv(cfg, HostDropped(h, ip, frame));
    RoomReclaimed(cfg, HostDropped(h, ip, frame), Request(h, Host, ip, 0, false), HOST, DEVICE, Some(frame));
  }

  // A run in which it is heard: the disconnect leaves the Device out of the room and not yet told,
  // then tells it.
  lemma ACloseIsHeard(cfg: Config, h: Handle, ip: Ip, frame: CloseFrame)
    requires cfg.cap >= 1 && cfg.registrationsPerSecond >= 1 && ApplicationCode(Some(frame))
    ensures var w := HostDropped(h, ip, frame);
      && Reachable(cfg, w) && Enabled(w, Disconnect(HOST))
      && var u := Next(cfg, w, Disconnect(HOST));
      && Open(u.hub, DEVICE) && !InRoom(u, DEVICE) && OfferedTo(u.hub, DEVICE) == [] && Enabled(u, Tell(HOST))
      && OfferedTo(Next(cfg, u, Tell(HOST)).hub, DEVICE) == [frame]
  {
    HostDroppedIsReached(cfg, h, ip, frame);
    DisconnectHandsOver(cfg, HostDropped(h, ip, frame), HOST, DEVICE);
  }

  // The Device's queue is full when its Host drops its receiver.
  function FullAndDropped(h: Handle, ip: Ip, payload: seq<nat>, frame: CloseFrame): World {
    AfterDrop(Laden(h, ip, payload, QUEUE_DEPTH, 0, Running(None), Running(None)), HOST, Some(frame))
  }

  lemma FullAndDroppedIsReached(cfg: Config, h: Handle, ip: Ip, payload: seq<nat>, frame: CloseFrame)
    requires cfg.cap >= 1 && cfg.registrationsPerSecond >= 1
    ensures Reachable(cfg, FullAndDropped(h, ip, payload, frame))
    ensures Bereaved(FullAndDropped(h, ip, payload, frame), HOST, DEVICE, Some(frame))
  {
    var full := Laden(h, ip, payload, QUEUE_DEPTH, 0, Running(None), Running(None));
    var drop := DropReceiver(HOST, Some(frame));
    var steps := HostFills(cfg, h, ip, payload, QUEUE_DEPTH);
    assert Pair(h, ip) == Laden(h, ip, payload, 0, 0, Running(None), Running(None));
    Once(cfg, full, drop);
    RunsConcatenate(cfg, Pair(h, ip), steps, [drop]);
    ReachesFromPair(cfg, h, ip, steps + [drop]);
  }

  lemma {:induction false} FramesHoldNoClose(from: Conn, payload: seq<nat>, n: nat)
    ensures Closes(Frames(from, payload, n)) == []
  {
    if n > 0 {
      FramesHoldNoClose(from, payload, n - 1);
      ClosesConcatenate(Frames(from, payload, n - 1), [Binary(from, payload)]);
    }
  }

  // A run in which nobody registers and the close is lost all the same: the Device has 32 frames queued
  // when its Host, first to disconnect, tells it. The Device runs on, out of every room.
  lemma ACloseFindsNoRoom(cfg: Config, h: Handle, ip: Ip, payload: seq<nat>, frame: CloseFrame)
    requires cfg.cap >= 1 && cfg.registrationsPerSecond >= 1 && ApplicationCode(Some(frame))
    ensures var w := FullAndDropped(h, ip, payload, frame);
      && Reachable(cfg, w) && Possible(cfg, w, [Disconnect(HOST), Tell(HOST)])
      && var v := Run(cfg, w, [Disconnect(HOST), Tell(HOST)]);
      && Open(v.hub, DEVICE) && OfferedTo(v.hub, DEVICE) == [frame] && Lost(v, DEVICE)
  {
    var w := FullAndDropped(h, ip, payload, frame);
    FullAndDroppedIsReached(cfg, h, ip, payload, frame);
    Twice(cfg, w, Disconnect(HOST), Tell(HOST));
    FramesHoldNoClose(HOST, payload, QUEUE_DEPTH);
  }
}
