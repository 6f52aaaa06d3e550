/**
 The relay's room map. A room holds the outbound channel of its Host and, once joined, of its Device.
 A connection registers, later drops its receiver, and later still disconnects; other connections act
 in between, so a room can hold a closed channel whose owner's teardown is still in flight.
 */
module Rooms {
  import opened Prelude
  import opened Limits

  const QUEUE_DEPTH: nat := 32
  const PAIRING_WINDOW: nat := 600 * SECOND
  const GOING_AWAY: nat := 1001

  datatype Role = Host | Device

  // The identity of one outbound channel, and so of the connection that drains it.
  type Conn = nat

  datatype CloseFrame = CloseFrame(code: nat, reason: string)

  // `from` is the connection that sent the frame.
  datatype Message = Binary(from: Conn, payload: seq<nat>) | Close(frame: CloseFrame)

  // `open` until the receiver is dropped. `offered` is the history of closes handed to `try_send`, and
  // `taken` of those among them that the queue took.
  datatype Channel =
    Channel(open: bool, queue: seq<Message>, offered: seq<CloseFrame>, taken: seq<CloseFrame>)

  const NEW_CHANNEL: Channel := Channel(true, [], [], [])

  datatype Room = Room(host: Option<Conn>, device: Option<Conn>, hostRegisteredAt: Time, pairing: bool)

  datatype Hub = Hub(rooms: map<Handle, Room>, channels: map<Conn, Channel>, nextConn: Conn)

  datatype RegisterError = HandleTaken | HostInUse | HandleUnknown | PairingExpired | HandleRateLimited | TooManyHandles

  datatype Answer = Joined(conn: Conn, isNew: bool) | Refused(error: RegisterError)

  function Other(role: Role): Role {
    if role == Host then Device else Host
  }

  function Slot(room: Room, role: Role): Option<Conn> {
    if role == Host then room.host else room.device
  }

  predicate Open(s: Hub, c: Conn) {
    c in s.channels && s.channels[c].open
  }

  predicate Vacated(s: Hub, slot: Option<Conn>) {
    slot.Some? && !Open(s, slot.value)
  }

  function ClosedRole(s: Hub, room: Room): Option<Role> {
    if Vacated(s, room.host) then Some(Host)
    else if Vacated(s, room.device) then Some(Device)
    else None
  }

  predicate HasRoom(ch: Channel) {
    ch.open && |ch.queue| < QUEUE_DEPTH
  }

  // Enqueues only into an open channel with room to spare; otherwise the message is lost.
  function TrySend(ch: Channel, m: Message): Channel {
    if HasRoom(ch) then ch.(queue := ch.queue + [m]) else ch
  }

  function AfterOffer(ch: Channel, frame: CloseFrame): Channel {
    TrySend(ch, Close(frame))
    .(offered := ch.offered + [frame], taken := if HasRoom(ch) then ch.taken + [frame] else ch.taken)
  }

  function Offer(s: Hub, slot: Option<Conn>, frame: CloseFrame): Hub {
    if slot.None? || slot.value !in s.channels then s
    else s.(channels := s.channels[slot.value := AfterOffer(s.channels[slot.value], frame)])
  }

  function GoneFrame(gone: Role): CloseFrame {
    CloseFrame(GOING_AWAY, if gone == Host then "the Host is gone" else "the Device is gone")
  }

  predicate ApplicationCode(frame: Option<CloseFrame>) {
    frame.Some? && 4000 <= frame.value.code <= 4999
  }

  // What the survivor of `gone` is told when `gone` itself disconnects.
  function Farewell(gone: Role, peerClose: Option<CloseFrame>): CloseFrame {
    if ApplicationCode(peerClose) then peerClose.value else GoneFrame(gone)
  }

  // Discards a room and closes whoever is left in it.
  function Discarded(s: Hub, h: Handle, gone: Role, frame: CloseFrame): Hub
    requires h in s.rooms
  {
    Offer(s.(rooms := s.rooms - {h}), Slot(s.rooms[h], Other(gone)), frame)
  }

  function TeardownFinished(s: Hub, h: Handle): Hub {
    if h in s.rooms && ClosedRole(s, s.rooms[h]).Some?
    then
      var gone := ClosedRole(s, s.rooms[h]).value;
      Discarded(s, h, gone, GoneFrame(gone))
    else s
  }

  function Opened(s: Hub): Hub {
    s.(channels := s.channels[s.nextConn := NEW_CHANNEL], nextConn := s.nextConn + 1)
  }

  // A Host's registration, after any teardown of the handle is finished.
  function HostAnswer(s: Hub, h: Handle, allowed: bool, cap: nat): Answer {
    if h in s.rooms then Refused(HandleTaken)
    else if !allowed then Refused(HandleRateLimited)
    else if |s.rooms| >= cap then Refused(TooManyHandles)
    else Joined(s.nextConn, true)
  }

  function DeviceAnswer(s: Hub, h: Handle, now: Time): Answer {
    if h !in s.rooms then Refused(HandleUnknown)
    else
      var room := s.rooms[h];
      if room.pairing && Since(now, room.hostRegisteredAt) > PAIRING_WINDOW then Refused(PairingExpired)
      else if room.device.Some? then Refused(HostInUse)
      else Joined(s.nextConn, false)
  }

  datatype Request = Request(handle: Handle, role: Role, ip: Ip, now: Time, pairing: bool)

  // Only a Host whose handle is free consults the limiter, before the cap is looked at.
  predicate AsksLimiter(s: Hub, q: Request) {
    q.role == Host && q.handle !in TeardownFinished(s, q.handle).rooms
  }

  function RegisterAnswer(s: Hub, q: Request, allowed: bool, cap: nat): Answer {
    var t := TeardownFinished(s, q.handle);
    if q.role == Host then HostAnswer(t, q.handle, allowed, cap) else DeviceAnswer(t, q.handle, q.now)
  }

  function Registered(s: Hub, q: Request, allowed: bool, cap: nat): Hub {
    var t := TeardownFinished(s, q.handle);
    var answer := RegisterAnswer(s, q, allowed, cap);
    if answer.Refused? then t
    else
      var room := if q.role == Host then Room(Some(t.nextConn), None, q.now, q.pairing)
                  else if q.handle in t.rooms then t.rooms[q.handle].(device := Some(t.nextConn))
                  else Room(None, None, q.now, q.pairing);
      Opened(t.(rooms := t.rooms[q.handle := room]))
  }

  function PeerOf(s: Hub, h: Handle, role: Role): Option<Conn> {
    if h in s.rooms then Slot(s.rooms[h], Other(role)) else None
  }

  predicate Owns(s: Hub, h: Handle, role: Role, mine: Conn) {
    h in s.rooms && Slot(s.rooms[h], role) == Some(mine)
  }

  // The locked half of a disconnect takes the room out; whom it leaves behind is told only later,
  // with no lock held.
  function Disconnected(s: Hub, h: Handle, role: Role, mine: Conn): Hub {
    if Owns(s, h, role, mine) then s.(rooms := s.rooms - {h}) else s
  }

  function LeftBehind(s: Hub, h: Handle, role: Role, mine: Conn): Option<Conn> {
    if Owns(s, h, role, mine) then Slot(s.rooms[h], Other(role)) else None
  }

  // ---- the map object ----

  class SessionMap {
    var rooms: map<Handle, Room>
    var channels: map<Conn, Channel>
    var nextConn: Conn

    function State(): Hub
      reads this
    {
      Hub(rooms, channels, nextConn)
    }

    constructor ()
      ensures State() == Hub(map[], map[], 0)
    {
      rooms, channels, nextConn := map[], map[], 0;
    }

    method ClosePeer(peer: Option<Conn>, frame: CloseFrame)
      modifies this`channels
      ensures State() == Offer(old(State()), peer, frame)
    {
      if peer.Some? && peer.value in channels {
        var ch := channels[peer.value];
        if ch.open && |ch.queue| < QUEUE_DEPTH {
          ch := ch.(queue := ch.queue + [Close(frame)], taken := ch.taken + [frame]);
        }
        channels := channels[peer.value := ch.(offered := ch.offered + [frame])];
      }
    }

    method Register(q: Request, limiter: IpRateLimiter, cap: nat) returns (answer: Answer)
      modifies this, limiter
      ensures var allowed := Admits(limiter.maxPerWindow, old(limiter.seen), q.ip, q.now);
        answer == RegisterAnswer(old(State()), q, allowed, cap)
        && State() == Registered(old(State()), q, allowed, cap)
      ensures limiter.seen == if AsksLimiter(old(State()), q)
        then AfterAllow(limiter.maxPerWindow, old(limiter.seen), q.ip, q.now) else old(limiter.seen)
    {
      if q.handle in rooms {
        var room := rooms[q.handle];
        var gone := ClosedRole(State(), room);
        if gone.Some? {
          rooms := rooms - {q.handle};
          ClosePeer(if gone.value == Host then room.device else room.host, GoneFrame(gone.value));
        }
      }
      var mine := nextConn;
      if q.role == Host {
        if q.handle in rooms {
          return Refused(HandleTaken);
        }
        var allowed := limiter.Allow(q.ip, q.now);
        if !allowed {
          return Refused(HandleRateLimited);
        }
        if |rooms| >= cap {
          return Refused(TooManyHandles);
        }
        rooms := rooms[q.handle := Room(Some(mine), None, q.now, q.pairing)];
      } else {
        if q.handle !in rooms {
          return Refused(HandleUnknown);
        }
        var room := rooms[q.handle];
        if room.pairing && Since(q.now, room.hostRegisteredAt) > PAIRING_WINDOW {
          return Refused(PairingExpired);
        }
        if room.device.Some? {
          return Refused(HostInUse);
        }
        rooms := rooms[q.handle := room.(device := Some(mine))];
      }
      channels := channels[mine := NEW_CHANNEL];
      nextConn := mine + 1;
      answer := Joined(mine, q.role == Host);
    }

    // The locked half. The result is the peer to close.
    method Disconnect(h: Handle, role: Role, mine: Conn) returns (peer: Option<Conn>)
      modifies this`rooms
      ensures State() == Disconnected(old(State()), h, role, mine)
      ensures peer == LeftBehind(old(State()), h, role, mine)
    {
      if h !in rooms || Slot(rooms[h], role) != Some(mine) {
        return None;
      }
      var room := rooms[h];
      rooms := rooms - {h};
      peer := if role == Host then room.device else room.host;
    }

    // The half that holds no lock.
    method TellPeer(peer: Option<Conn>, role: Role, peerClose: Option<CloseFrame>)
      modifies this`channels
      ensures State() == Offer(old(State()), peer, Farewell(role, peerClose))
    {
      if peer.Some? {
        if peerClose.Some? && 4000 <= peerClose.value.code <= 4999 {
          ClosePeer(peer, peerClose.value);
        } else {
          ClosePeer(peer, GoneFrame(role));
        }
      }
    }
  }
}
