/**
 The Host state behind the bridge's one mutex. Each function below is one critical section as a
 function of the state; each method of `HostState` is that section carried out on the fields.
 */
module Host {
  import opened Prelude
  import Pairing
  import Store

  datatype Link = Idle | Connected | Offline(attempt: nat) | Stopped

  // `device` is None between a pairing handshake and its enrolment.
  datatype ActiveSession = ActiveSession(device: Option<DeviceId>, handle: Handle)

  datatype OpenPairing = OpenPairing(session: Pairing.Session, mintedAt: Time, registered: bool)

  // One claim of the guard, which is also the identity of the session it serves and of that
  // session's close channel.
  type ClaimId = nat

  // A registry entry owns the sending half of its session's close channel. An entry that leaves
  // the registry resolves that channel, whether by the signal or by dropping the sender.
  datatype Registered = Registered(device: DeviceId, session: ClaimId)

  datatype Core = Core(
    files: Store.Files, open: Option<OpenPairing>, active: Option<ActiveSession>,
    link: Link, stopped: bool, registry: map<Handle, Registered>)

  predicate Names(active: Option<ActiveSession>, handle: Handle) {
    active.Some? && active.value.handle == handle
  }

  // ---- the link and the guard ----

  function SetIdle(c: Core): Core {
    if c.active.None? && !c.stopped then c.(link := Idle) else c
  }

  function SetOffline(c: Core, attempt: nat): Core {
    if c.active.None? && !c.stopped then c.(link := Offline(attempt)) else c
  }

  predicate CanClaim(c: Core) {
    c.active.None? && !c.stopped
  }

  function ClaimActive(c: Core, device: Option<DeviceId>, handle: Handle): Core {
    if CanClaim(c) then c.(active := Some(ActiveSession(device, handle)), link := Connected) else c
  }

  function ReleaseActive(c: Core, handle: Handle): Core {
    var d := c.(registry := c.registry - {handle});
    if Names(c.active, handle) then d.(active := None, link := if c.stopped then Stopped else Idle) else d
  }

  function Stop(c: Core): Core {
    c.(stopped := true, link := Stopped)
  }

  // ---- the open pairing ----

  function ExpireOpen(c: Core, now: Time): Core {
    if c.open.Some? then c.(open := Some(c.open.value.(session := Pairing.Expire(c.open.value.session, now)))) else c
  }

  function OpenHandleAt(c: Core, now: Time): Option<Handle> {
    if c.open.Some? then Pairing.HandleAt(c.open.value.session, now) else None
  }

  // `minted` is None when minting fails; `at` is the second clock reading, taken after the mint.
  function OpenThePairing(c: Core, now: Time, minted: Option<Pairing.Credentials>, at: Time): Core {
    if OpenHandleAt(c, now).Some? then ExpireOpen(c, now)
    else if minted.None? then c.(open := None)
    else c.(open := Some(OpenPairing(Pairing.Live(minted.value, now, 0), at, false)),
            stopped := false, link := if c.stopped then Idle else c.link)
  }

  function ClosePairing(c: Core): Core {
    c.(open := None)
  }

  // Both the status report and the top of the pairing loop destroy a pairing that is not live.
  function DropDeadPairing(c: Core, now: Time): Core {
    if OpenHandleAt(c, now).Some? then ExpireOpen(c, now) else c.(open := None)
  }

  function PairingRegistered(c: Core, handle: Handle, now: Time): Core {
    var d := ExpireOpen(c, now);
    if OpenHandleAt(c, now) == Some(handle) then d.(open := Some(d.open.value.(registered := true))) else d
  }

  function HandshakeFailed(c: Core, handle: Handle, now: Time): Core {
    var d := ExpireOpen(c, now);
    if OpenHandleAt(c, now) == Some(handle)
    then d.(open := Some(d.open.value.(session := Pairing.FailedAttempt(d.open.value.session, now))))
    else d
  }

  function HandshakeTimedOut(c: Core, handle: Handle, now: Time): Core {
    if OpenHandleAt(c, now) == Some(handle) then c.(open := None) else ExpireOpen(c, now)
  }

  function EnrolmentTimedOut(c: Core, deadline: Time): Core {
    if c.open.Some? && c.open.value.mintedAt + Pairing.PHRASE_LIFETIME == deadline then c.(open := None) else c
  }

  // ---- enrolment and registration for dispatch ----

  datatype Enrolment = Rejected | SaveFailed | Enrolled

  predicate MayEnrol(c: Core, handle: Handle, deadline: Time, now: Time) {
    !c.stopped && now < deadline && OpenHandleAt(c, now) == Some(handle)
  }

  function EnrolOutcome(c: Core, handle: Handle, deadline: Time, now: Time, fault: Store.Fault): Enrolment {
    if !MayEnrol(c, handle, deadline, now) then Rejected
    else if fault != Store.NoFault then SaveFailed
    else Enrolled
  }

  // `later` is the clock reading after the save.
  function Enrol(c: Core, handle: Handle, hostId: HostId, device: DeviceId, details: Store.Details,
                 deadline: Time, now: Time, later: Time, fault: Store.Fault): Core
  {
    if c.stopped || now >= deadline then c
    else if EnrolOutcome(c, handle, deadline, now, fault) == Rejected then ExpireOpen(c, now)
    else
      var d := ExpireOpen(c, now);
      var entry := Store.PairedDevice(hostId, Some(handle), device, details, now, now);
      var saved := d.(files := Store.Added(d.files, entry, fault));
      if fault != Store.NoFault then saved
      else
        var taken := if OpenHandleAt(saved, later) == Some(handle) then saved.(open := None)
                     else ExpireOpen(saved, later);
        if Names(taken.active, handle) then taken.(active := Some(ActiveSession(Some(device), handle))) else taken
  }

  predicate MayRegister(c: Core, hostId: HostId, handle: Handle, device: DeviceId) {
    !c.stopped
    && var entry := Store.Find(c.files.devices, device);
       entry.Some? && entry.value.hostId == hostId && entry.value.handle == Some(handle)
  }

  function RegisterSession(c: Core, hostId: HostId, handle: Handle, device: DeviceId, session: ClaimId): Core {
    if MayRegister(c, hostId, handle, device)
    then c.(registry := c.registry[handle := Registered(device, session)]) else c
  }

  function TouchLastSeen(c: Core, device: DeviceId, now: Time, fault: Store.Fault): Core {
    c.(files := Store.Touched(c.files, device, now, fault))
  }

  // ---- revocation ----

  function CloseForRevocation(registry: map<Handle, Registered>, revoked: set<DeviceId>, all: bool)
    : map<Handle, Registered>
  {
    map h | h in registry && !all && registry[h].device !in revoked :: registry[h]
  }

  datatype Answer = Done | NotFound | BadRequest

  function RevokeOneAnswer(c: Core, device: DeviceId, fault: Store.Fault): Answer {
    if Store.Find(c.files.devices, device).None? then NotFound
    else if fault != Store.NoFault then BadRequest
    else Done
  }

  function RevokeOne(c: Core, device: DeviceId, fault: Store.Fault): Core {
    if RevokeOneAnswer(c, device, fault) != Done then c
    else
      var d := c.(files := Store.Revoked(c.files, device, fault),
                  registry := CloseForRevocation(c.registry, {device}, false));
      if c.active.Some? && c.active.value.device == Some(device)
      then d.(active := None, link := if c.stopped then c.link else Idle)
      else d
  }

  function RevokeAll(c: Core, fault: Store.Fault): Core {
    if fault != Store.NoFault then c
    else c.(files := Store.Cleared(c.files, fault), registry := map[], open := None, active := None,
            link := if c.stopped then c.link else Idle)
  }

  // A Device-sent revocation: exactly one of `device` and `all`. Rotating the Host key can fail
  // after the list is already cleared.
  datatype WireRequest = WireRequest(device: Option<DeviceId>, all: Option<bool>)

  predicate WireAll(r: WireRequest) {
    r.device.None? && r.all == Some(true)
  }

  predicate WireOne(r: WireRequest) {
    r.device.Some? && r.all != Some(true)
  }

  predicate WireSucceeds(r: WireRequest, fault: Store.Fault, rotated: bool, listed: bool) {
    if WireAll(r) then fault == Store.NoFault && rotated
    else WireOne(r) && (listed ==> fault == Store.NoFault)
  }

  function WireRevoke(c: Core, r: WireRequest, fault: Store.Fault, rotated: bool): Core {
    if WireAll(r) then
      var d := c.(files := Store.Cleared(c.files, fault));
      if fault == Store.NoFault && rotated then d.(registry := map[], open := None) else d
    else if WireOne(r) then
      var listed := Store.Find(c.files.devices, r.device.value).Some?;
      var d := c.(files := Store.Revoked(c.files, r.device.value, fault));
      if listed && fault == Store.NoFault
      then d.(registry := CloseForRevocation(c.registry, {r.device.value}, false)) else d
    else c
  }

  // ---- the object behind the mutex ----

  class HostState {
    const store: Store.DeviceStore
    var session: Pairing.PairingSession?
    var mintedAt: Time
    var registered: bool
    var active: Option<ActiveSession>
    var link: Link
    var stopped: bool
    var registry: map<Handle, Registered>

    ghost function Open(): Option<OpenPairing>
      reads this, session
    {
      if session == null then None else Some(OpenPairing(session.state, mintedAt, registered))
    }

    ghost function State(): Core
      reads this, store, session
    {
      Core(store.State(), Open(), active, link, stopped, registry)
    }

    ghost predicate SamePairing(was: Pairing.PairingSession?)
      reads this
    {
      session == null || session == was
    }

    constructor (file: Option<seq<Store.PairedDevice>>)
      ensures State() == Core(Store.Files(Store.Reload(file), file), None, None, Idle, false, map[])
      ensures fresh(store)
    {
      store := new Store.DeviceStore.Load(file);
      session, mintedAt, registered := null, 0, false;
      active, link, stopped, registry := None, Idle, false, map[];
    }

    method DoSetIdle()
      modifies this`link
      ensures State() == SetIdle(old(State()))
    {
      if active.None? && !stopped {
        link := Idle;
      }
    }

    method DoSetOffline(attempt: nat)
      modifies this`link
      ensures State() == SetOffline(old(State()), attempt)
    {
      if active.None? && !stopped {
        link := Offline(attempt);
      }
    }

    // The result is the handle the claim will release when it is dropped.
    method DoClaimActive(device: Option<DeviceId>, handle: Handle) returns (claim: Option<Handle>)
      modifies this`active, this`link
      ensures State() == ClaimActive(old(State()), device, handle)
      ensures claim == if CanClaim(old(State())) then Some(handle) else None
    {
      if active.Some? || stopped {
        return None;
      }
      active := Some(ActiveSession(device, handle));
      link := Connected;
      claim := Some(handle);
    }

    method DoReleaseActive(handle: Handle)
      modifies this`active, this`link, this`registry
      ensures State() == ReleaseActive(old(State()), handle)
    {
      registry := registry - {handle};
      if active.None? || active.value.handle != handle {
        return;
      }
      active := None;
      link := if stopped then Stopped else Idle;
    }

    method DoStop()
      modifies this`stopped, this`link
      ensures State() == Stop(old(State())) && Open() == old(Open())
    {
      stopped := true;
      link := Stopped;
    }

    method LiveHandle(now: Time) returns (handle: Option<Handle>)
      modifies session
      ensures State() == ExpireOpen(old(State()), now)
      ensures handle == OpenHandleAt(old(State()), now)
    {
      if session == null {
        return None;
      }
      handle := session.GetHandle(now);
    }

    method DoOpenPairing(now: Time, minted: Option<Pairing.Credentials>, at: Time) returns (ok: bool)
      modifies this, session
      ensures SamePairing(old(session)) || fresh(session)
      ensures State() == OpenThePairing(old(State()), now, minted, at)
      ensures ok <==> OpenHandleAt(old(State()), now).Some? || minted.Some?
    {
      if session != null {
        var live := session.IsLive(now);
        if live {
          return true;
        }
      }
      session := null;
      if minted.None? {
        return false;
      }
      if stopped {
        stopped := false;
        link := Idle;
      }
      session := new Pairing.PairingSession(minted.value, now);
      mintedAt := at;
      registered := false;
      ok := true;
    }

    method DoClosePairing()
      modifies this`session
      ensures State() == ClosePairing(old(State()))
    {
      session := null;
    }

    // Returns what the pairing loop works with: the live handle and the enrolment deadline.
    method DoDropDeadPairing(now: Time) returns (r: Option<(Handle, Time)>)
      modifies this`session, session
      ensures SamePairing(old(session))
      ensures State() == DropDeadPairing(old(State()), now)
      ensures r == if OpenHandleAt(old(State()), now).Some?
                   then Some((OpenHandleAt(old(State()), now).value, old(mintedAt) + Pairing.PHRASE_LIFETIME)) else None
    {
      var handle := LiveHandle(now);
      if handle.None? {
        session := null;
        return None;
      }
      r := Some((handle.value, mintedAt + Pairing.PHRASE_LIFETIME));
    }

    method DoPairingRegistered(handle: Handle, now: Time)
      modifies this`registered, session
      ensures State() == PairingRegistered(old(State()), handle, now)
    {
      var live := LiveHandle(now);
      if live == Some(handle) {
        registered := true;
      }
    }

    method DoHandshakeFailed(handle: Handle, now: Time)
      modifies session
      ensures State() == HandshakeFailed(old(State()), handle, now)
    {
      var live := LiveHandle(now);
      if live == Some(handle) {
        session.RecordFailedAttempt(now);
      }
    }

    method DoHandshakeTimedOut(handle: Handle, now: Time)
      modifies this`session, session
      ensures SamePairing(old(session))
      ensures State() == HandshakeTimedOut(old(State()), handle, now)
    {
      var live := LiveHandle(now);
      if live == Some(handle) {
        session := null;
      }
    }

    method DoEnrolmentTimedOut(deadline: Time)
      modifies this`session
      ensures SamePairing(old(session))
      ensures State() == EnrolmentTimedOut(old(State()), deadline)
    {
      if session != null && mintedAt + Pairing.PHRASE_LIFETIME == deadline {
        session := null;
      }
    }

    method DoEnrol(handle: Handle, hostId: HostId, device: DeviceId, details: Store.Details,
                   deadline: Time, now: Time, later: Time, fault: Store.Fault) returns (r: Enrolment)
      modifies this, store, session
      ensures SamePairing(old(session))
      ensures State() == Enrol(old(State()), handle, hostId, device, details, deadline, now, later, fault)
      ensures r == EnrolOutcome(old(State()), handle, deadline, now, fault)
    {
      if stopped || now >= deadline {
        return Rejected;
      }
      var live := LiveHandle(now);
      if live != Some(handle) {
        return Rejected;
      }
      var ok := store.Add(hostId, handle, device, details, now, fault);
      if !ok {
        return SaveFailed;
      }
      var still := LiveHandle(later);
      if still == Some(handle) {
        session := null;
      }
      if active.Some? && active.value.handle == handle {
        active := Some(active.value.(device := Some(device)));
      }
      r := Enrolled;
    }

    method DoRegisterSession(hostId: HostId, handle: Handle, device: DeviceId, claim: ClaimId) returns (ok: bool)
      modifies this`registry
      ensures State() == RegisterSession(old(State()), hostId, handle, device, claim)
      ensures ok == MayRegister(old(State()), hostId, handle, device)
    {
      var entry := Store.Find(store.devices, device);
      if stopped || entry.None? || entry.value.hostId != hostId || entry.value.handle != Some(handle) {
        return false;
      }
      registry := registry[handle := Registered(device, claim)];
      ok := true;
    }

    method DoTouchLastSeen(device: DeviceId, now: Time, fault: Store.Fault)
      modifies store
      ensures State() == TouchLastSeen(old(State()), device, now, fault)
    {
      var _ := store.TouchLastSeen(device, now, fault);
    }

    method DoRevokeOne(device: DeviceId, fault: Store.Fault) returns (answer: Answer)
      modifies this, store
      ensures session == old(session)
      ensures State() == RevokeOne(old(State()), device, fault)
      ensures answer == RevokeOneAnswer(old(State()), device, fault)
    {
      ghost var before := State();
      var removed := store.Revoke(device, fault);
      assert State() == before.(files := Store.Revoked(before.files, device, fault));
      if removed.RevokeFailed? {
        assert RevokeOneAnswer(before, device, fault) == BadRequest;
        return BadRequest;
      }
      if removed.NotListed? {
        return NotFound;
      }
      assert RevokeOneAnswer(before, device, fault) == Done;
      var sessionLive := active.Some? && active.value.device == Some(device);
      registry := CloseForRevocation(registry, {device}, false);
      if sessionLive {
        active := None;
        if !stopped {
          link := Idle;
        }
      }
      answer := Done;
    }

    method DoRevokeAll(fault: Store.Fault) returns (answer: Answer)
      modifies this, store
      ensures SamePairing(old(session))
      ensures State() == RevokeAll(old(State()), fault)
      ensures answer == if fault == Store.NoFault then Done else BadRequest
    {
      var cleared := store.ClearAll(fault);
      if cleared.None? {
        return BadRequest;
      }
      registry := CloseForRevocation(registry, set d | d in cleared.value :: d.deviceId, true);
      session := null;
      active := None;
      if !stopped {
        link := Idle;
      }
      answer := Done;
    }

    method DoWireRevoke(r: WireRequest, fault: Store.Fault, rotated: bool) returns (ok: bool)
      modifies this, store
      ensures SamePairing(old(session))
      ensures State() == WireRevoke(old(State()), r, fault, rotated)
      ensures ok == WireSucceeds(r, fault, rotated,
                                 r.device.Some? && Store.Find(old(store.devices), r.device.value).Some?)
    {
      if r.device.None? && r.all == Some(true) {
        var cleared := store.ClearAll(fault);
        if cleared.None? || !rotated {
          return false;
        }
        registry := CloseForRevocation(registry, set d | d in cleared.value :: d.deviceId, true);
        session := null;
        ok := true;
      } else if r.device.Some? && r.all != Some(true) {
        var removed := store.Revoke(r.device.value, fault);
        if removed.RevokeFailed? {
          return false;
        }
        registry := CloseForRevocation(registry, if removed.Removed? then {removed.entry.deviceId} else {}, false);
        ok := true;
      } else {
        ok := false;
      }
    }
  }
}
