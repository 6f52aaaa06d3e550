/**
 Every task of the bridge, interleaved on the Host state. A task keeps what it read under an earlier
 lock (a store entry, a pairing handle, a claim) and may act on it at any later time, whatever has
 happened since; an abort is only ever the task's claim being dropped, as late as it likes.
 */
module HostProtocol {
  import opened Prelude
  import opened Host
  import Pairing
  import Store

  // What a registration loop read from the store when it started.
  datatype Loop = Loop(device: DeviceId, hostId: HostId, handle: Handle)

  // What a pairing loop read at the top of one pass.
  datatype Pass = Pass(handle: Handle, deadline: Time)

  // A claim and the session it serves. `device` is None until the pairing Device enrols.
  datatype Attempt = Attempt(handle: Handle, hostId: HostId, device: Option<DeviceId>, deadline: Time, registered: bool)

  // `bound` records which device and host id each enrolled handle was enrolled with; `used` and
  // `usedClaims` record every handle and claim ever minted.
  datatype World = World(
    core: Core, loops: set<Loop>, passes: set<Pass>, claims: map<ClaimId, Attempt>,
    used: set<Handle>, usedClaims: set<ClaimId>, bound: map<Handle, (DeviceId, HostId)>)

  datatype Step =
    | SLoopStart(device: DeviceId)
    | SPassStart(now: Time)
    | SIdle
    | SOffline(attempt: nat)
    | SClaimLoop(loop: Loop, claim: ClaimId)
    | SClaimPass(pass: Pass, claim: ClaimId, hostId: HostId)
    | SEnrol(claim: ClaimId, device: DeviceId, details: Store.Details, now: Time, later: Time, fault: Store.Fault)
    | SRegister(claim: ClaimId)
    | SDrop(claim: ClaimId)
    | SOpen(now: Time, minted: Option<Pairing.Credentials>, at: Time)
    | SClose
    | SStatus(now: Time)
    | SStop
    | SPairingRegistered(handle: Handle, now: Time)
    | SHandshakeFailed(handle: Handle, now: Time)
    | SHandshakeTimedOut(handle: Handle, now: Time)
    | SEnrolmentTimedOut(deadline: Time)
    | STouch(device: DeviceId, now: Time, fault: Store.Fault)
    | SRevokeOne(device: DeviceId, fault: Store.Fault)
    | SRevokeAll(fault: Store.Fault)
    | SWireRevoke(request: WireRequest, fault: Store.Fault, rotated: bool)
    | SRestart

  // A task can only act on a token it holds; minted handles and claims are new.
  predicate Enabled(w: World, s: Step) {
    match s
    case SClaimLoop(loop, claim) => loop in w.loops && claim !in w.usedClaims
    case SClaimPass(pass, claim, _) => pass in w.passes && claim !in w.usedClaims
    case SEnrol(claim, _, _, _, _, _) => claim in w.claims && w.claims[claim].device.None?
    case SRegister(claim) => claim in w.claims && w.claims[claim].device.Some? && !w.claims[claim].registered
    case SDrop(claim) => claim in w.claims
    case SOpen(_, minted, _) => minted.Some? ==> minted.value.handle !in w.used
    case _ => true
  }

  function Claimed(w: World, claim: ClaimId, a: Attempt): World {
    var v := w.(core := ClaimActive(w.core, a.device, a.handle));
    if CanClaim(w.core) then v.(claims := w.claims[claim := a], usedClaims := w.usedClaims + {claim}) else v
  }

  function Next(w: World, s: Step): World
    requires Enabled(w, s)
  {
    match s
    case SLoopStart(device) =>
      var entry := Store.Find(w.core.files.devices, device);
      if entry.Some? && entry.value.handle.Some?
      then w.(loops := w.loops + {Loop(device, entry.value.hostId, entry.value.handle.value)}) else w
    case SPassStart(now) =>
      var handle := OpenHandleAt(w.core, now);
      var v := w.(core := DropDeadPairing(w.core, now));
      if handle.Some?
      then v.(passes := v.passes + {Pass(handle.value, w.core.open.value.mintedAt + Pairing.PHRASE_LIFETIME)}) else v
    case SIdle => w.(core := SetIdle(w.core))
    case SOffline(attempt) => w.(core := SetOffline(w.core, attempt))
    case SClaimLoop(l, claim) => Claimed(w, claim, Attempt(l.handle, l.hostId, Some(l.device), 0, false))
    case SClaimPass(p, claim, hostId) => Claimed(w, claim, Attempt(p.handle, hostId, None, p.deadline, false))
    case SEnrol(claim, device, details, now, later, fault) =>
      var a := w.claims[claim];
      var v := w.(core := Enrol(w.core, a.handle, a.hostId, device, details, a.deadline, now, later, fault));
      if EnrolOutcome(w.core, a.handle, a.deadline, now, fault) == Enrolled
      then v.(claims := v.claims[claim := a.(device := Some(device))], bound := v.bound[a.handle := (device, a.hostId)])
      else v
    case SRegister(claim) =>
      var a := w.claims[claim];
      var v := w.(core := RegisterSession(w.core, a.hostId, a.handle, a.device.value, claim));
      if MayRegister(w.core, a.hostId, a.handle, a.device.value)
      then v.(claims := w.claims[claim := a.(registered := true)]) else v
    case SDrop(claim) => w.(core := ReleaseActive(w.core, w.claims[claim].handle), claims := w.claims - {claim})
    case SOpen(now, minted, at) =>
      w.(core := OpenThePairing(w.core, now, minted, at),
         used := if minted.Some? then w.used + {minted.value.handle} else w.used)
    case SClose => w.(core := ClosePairing(w.core))
    case SStatus(now) => w.(core := DropDeadPairing(w.core, now))
    case SStop => w.(core := Stop(w.core))
    case SPairingRegistered(handle, now) => w.(core := PairingRegistered(w.core, handle, now))
    case SHandshakeFailed(handle, now) => w.(core := HandshakeFailed(w.core, handle, now))
    case SHandshakeTimedOut(handle, now) => w.(core := HandshakeTimedOut(w.core, handle, now))
    case SEnrolmentTimedOut(deadline) => w.(core := EnrolmentTimedOut(w.core, deadline))
    case STouch(device, now, fault) => w.(core := TouchLastSeen(w.core, device, now, fault))
    case SRevokeOne(device, fault) => w.(core := RevokeOne(w.core, device, fault))
    case SRevokeAll(fault) => w.(core := RevokeAll(w.core, fault))
    case SWireRevoke(r, fault, rotated) => w.(core := WireRevoke(w.core, r, fault, rotated))
    case SRestart => Restarted(w)
  }

  // A new process: what it knows is the file, and no task of the old one is left.
  function Restarted(w: World): World {
    var disk := w.core.files.disk;
    w.(core := Core(Store.Files(Store.Reload(disk), disk), None, None, Idle, false, map[]),
       loops := {}, passes := {}, claims := map[])
  }

  // A run of steps; a step that is not enabled does not happen.
  function Run(w: World, steps: seq<Step>): World {
    if steps == [] then w
    else
      var v := Run(w, steps[..|steps| - 1]);
      var s := steps[|steps| - 1];
      if Enabled(v, s) then Next(v, s) else v
  }

  // ---- the start ----

  predicate DistinctHandles(list: seq<Store.PairedDevice>) {
    forall i, j :: 0 <= i < j < |list| && list[i].handle.Some? ==> list[i].handle != list[j].handle
  }

  function BoundBy(list: seq<Store.PairedDevice>): (m: map<Handle, (DeviceId, HostId)>)
    ensures forall h :: h in m <==> exists i :: 0 <= i < |list| && list[i].handle == Some(h)
  {
    if list == [] then map[]
    else
      var last := |list| - 1;
      var m := BoundBy(list[..last]);
      if list[last].handle.Some?
      then m[list[last].handle.value := (list[last].deviceId, list[last].hostId)] else m
  }

  lemma {:induction false} BoundToOwner(list: seq<Store.PairedDevice>, i: nat)
    requires DistinctHandles(list) && i < |list| && list[i].handle.Some?
    ensures BoundBy(list)[list[i].handle.value] == (list[i].deviceId, list[i].hostId)
  {
    var last := |list| - 1;
    if i < last {
      var front := list[..last];
      assert forall k :: 0 <= k < last ==> front[k] == list[k];
      assert DistinctHandles(front);
      BoundToOwner(front, i);
      assert list[i].handle != list[last].handle;
    }
  }

  function Start(file: Option<seq<Store.PairedDevice>>): World {
    var list := Store.Reload(file);
    var bound := BoundBy(list);
    World(Core(Store.Files(list, file), None, None, Idle, false, map[]), {}, {}, map[], bound.Keys, {}, bound)
  }

  // ---- the invariant ----

  predicate InStore(c: Core, h: Handle) {
    exists d :: d in c.files.devices && d.handle == Some(h)
  }

  function OpenHandle(c: Core): Option<Handle> {
    if c.open.Some? && c.open.value.session.Live? then Some(c.open.value.session.credentials.handle) else None
  }

  // A handle no device is enrolled with and no phrase still offers.
  predicate Dead(c: Core, h: Handle) {
    !InStore(c, h) && OpenHandle(c) != Some(h)
  }

  predicate StoreInv(w: World) {
    Store.DistinctIds(w.core.files.devices)
    && forall d :: d in w.core.files.devices && d.handle.Some? ==>
         d.handle.value in w.bound && w.bound[d.handle.value] == (d.deviceId, d.hostId)
  }

  predicate MintInv(w: World) {
    w.bound.Keys <= w.used && w.claims.Keys <= w.usedClaims
    && (OpenHandle(w.core).Some? ==> OpenHandle(w.core).value in w.used && OpenHandle(w.core).value !in w.bound)
    && (w.core.open.Some? ==> Pairing.WellFormed(w.core.open.value.session))
  }

  predicate TokenInv(w: World) {
    (forall l :: l in w.loops ==> l.handle in w.bound && w.bound[l.handle] == (l.device, l.hostId))
    && (forall p :: p in w.passes ==> p.handle in w.used)
    && (forall i :: i in w.claims ==> w.claims[i].handle in w.used)
    && (forall i :: i in w.claims && w.claims[i].device.Some? ==>
          w.claims[i].handle in w.bound && w.bound[w.claims[i].handle] == (w.claims[i].device.value, w.claims[i].hostId))
  }

  // A claim on a handle that still means something holds the guard, with its own device.
  predicate GuardInv(w: World) {
    (forall i :: i in w.claims ==>
       Dead(w.core, w.claims[i].handle)
       || w.core.active == Some(ActiveSession(w.claims[i].device, w.claims[i].handle)))
    && (forall i, j :: i in w.claims && j in w.claims && i != j && w.claims[i].handle == w.claims[j].handle ==>
          Dead(w.core, w.claims[i].handle) && w.claims[i].handle !in w.core.registry)
    && (w.core.active.Some? && w.core.active.value.device.Some? ==>
          w.core.active.value.handle in w.bound
          && w.bound[w.core.active.value.handle].0 == w.core.active.value.device.value)
    && (w.core.active.Some? ==> exists i :: i in w.claims && w.claims[i].handle == w.core.active.value.handle)
  }

  // Whatever is registered and not signalled is the session the guard names, and its claim is held.
  predicate RegistryInv(w: World) {
    forall h :: h in w.core.registry ==>
      var r := w.core.registry[h];
      w.core.active == Some(ActiveSession(Some(r.device), h))
      && r.session in w.claims && w.claims[r.session].handle == h
      && w.claims[r.session].device == Some(r.device) && w.claims[r.session].registered
  }

  predicate LinkInv(c: Core) {
    (c.stopped <==> c.link.Stopped?)
    && (c.link.Connected? ==> c.active.Some?)
    && (c.link.Offline? ==> c.active.None?)
  }

  predicate Inv(w: World) {
    StoreInv(w) && MintInv(w) && TokenInv(w) && GuardInv(w) && RegistryInv(w) && LinkInv(w.core)
  }

  lemma StartInv(file: Option<seq<Store.PairedDevice>>)
    requires Store.DistinctIds(Store.Reload(file)) && DistinctHandles(Store.Reload(file))
    ensures Inv(Start(file))
  {
    var list := Store.Reload(file);
    forall d | d in list && d.handle.Some? ensures Start(file).bound[d.handle.value] == (d.deviceId, d.hostId) {
      var i :| 0 <= i < |list| && list[i] == d;
      BoundToOwner(list, i);
    }
  }

  // ---- every step keeps the invariant ----

  // The list after a revocation is the list without the device.
  lemma RevokedList(files: Store.Files, device: DeviceId)
    requires Store.DistinctIds(files.devices)
    ensures var after := Store.Revoked(files, device, Store.NoFault).devices;
            Store.DistinctIds(after)
            && forall d :: d in after <==> d in files.devices && d.deviceId != device
  {
    Store.RemoveAtIsWithout(files.devices, device);
    Store.WithoutKeepsDistinct(files.devices, device);
  }

  lemma TouchedList(files: Store.Files, device: DeviceId, now: Time, fault: Store.Fault)
    requires Store.DistinctIds(files.devices)
    ensures var after := Store.Touched(files, device, now, fault).devices;
            Store.DistinctIds(after) && |after| == |files.devices|
            && forall k :: 0 <= k < |after| ==>
                 after[k].deviceId == files.devices[k].deviceId && after[k].handle == files.devices[k].handle
                 && after[k].hostId == files.devices[k].hostId
  {
  }

  lemma AddedList(files: Store.Files, e: Store.PairedDevice)
    requires Store.DistinctIds(files.devices)
    ensures var after := Store.Added(files, e, Store.NoFault).devices;
            Store.DistinctIds(after)
            && forall d :: d in after <==> d == e || (d in files.devices && d.deviceId != e.deviceId)
  {
    Store.StepKeepsSync(files, Store.Call(Store.AddOp(e), Store.NoFault));
  }

  // A change of the core that brings no handle to life and leaves the guard, the registry and the
  // stored entries alone.
  ghost predicate Quieter(c: Core, d: Core) {
    d.files.devices == c.files.devices && d.active == c.active && d.registry == c.registry
    && (OpenHandle(d).Some? ==> OpenHandle(d) == OpenHandle(c))
    && (d.open.Some? ==>
          c.open.Some? && (Pairing.WellFormed(c.open.value.session) ==> Pairing.WellFormed(d.open.value.session)))
    && (LinkInv(c) ==> LinkInv(d))
  }

  lemma QuietKeeps(w: World, d: Core)
    requires Inv(w) && Quieter(w.core, d)
    ensures Inv(w.(core := d))
  {
    var v := w.(core := d);
    assert forall h :: InStore(d, h) ==> InStore(w.core, h);
    assert GuardInv(v);
  }

  // The sections that bring nothing to life.
  lemma QuietSections(c: Core, now: Time, handle: Handle, attempt: nat, deadline: Time)
    ensures Quieter(c, SetIdle(c)) && Quieter(c, SetOffline(c, attempt)) && Quieter(c, Stop(c))
    ensures Quieter(c, ClosePairing(c)) && Quieter(c, DropDeadPairing(c, now))
    ensures Quieter(c, PairingRegistered(c, handle, now)) && Quieter(c, HandshakeFailed(c, handle, now))
    ensures Quieter(c, HandshakeTimedOut(c, handle, now)) && Quieter(c, EnrolmentTimedOut(c, deadline))
  {
  }

  lemma QuietStepKeeps(w: World, s: Step)
    requires Inv(w) && Enabled(w, s)
    requires s.SIdle? || s.SOffline? || s.SStop? || s.SStatus? || s.SClose? || s.SPairingRegistered?
             || s.SHandshakeFailed? || s.SHandshakeTimedOut? || s.SEnrolmentTimedOut?
    ensures Quieter(w.core, Next(w, s).core) && Next(w, s) == w.(core := Next(w, s).core)
  {
    if s.SOffline? {
      QuietSections(w.core, 0, 0, s.attempt, 0);
    } else if s.SStatus? {
      QuietSections(w.core, s.now, 0, 0, 0);
    } else if s.SPairingRegistered? || s.SHandshakeFailed? || s.SHandshakeTimedOut? {
      QuietSections(w.core, s.now, s.handle, 0, 0);
    } else if s.SEnrolmentTimedOut? {
      QuietSections(w.core, 0, 0, 0, s.deadline);
    } else {
      QuietSections(w.core, 0, 0, 0, 0);
    }
  }

  lemma AddTokens(w: World, loops: set<Loop>, passes: set<Pass>)
    requires Inv(w)
    requires forall l :: l in loops ==> l.handle in w.bound && w.bound[l.handle] == (l.device, l.hostId)
    requires forall p :: p in passes ==> p.handle in w.used
    ensures Inv(w.(loops := w.loops + loops, passes := w.passes + passes))
  {
    var v := w.(loops := w.loops + loops, passes := w.passes + passes);
    assert TokenInv(v);
    HolderStays(w, v);
  }

  // Reading a token from a good state yields a good token.
  lemma LoopStartKeeps(w: World, s: Step)
    requires Inv(w) && Enabled(w, s) && s.SLoopStart?
    ensures Inv(Next(w, s))
  {
    var entry := Store.Find(w.core.files.devices, s.device);
    if entry.Some? && entry.value.handle.Some? {
      var loop := Loop(s.device, entry.value.hostId, entry.value.handle.value);
      AddTokens(w, {loop}, {});
      assert Next(w, s) == w.(loops := w.loops + {loop}, passes := w.passes + {});
    }
  }

  lemma PassStartKeeps(w: World, now: Time)
    requires Inv(w)
    ensures Inv(Next(w, SPassStart(now)))
  {
    var d := DropDeadPairing(w.core, now);
    QuietSections(w.core, now, 0, 0, 0);
    QuietKeeps(w, d);
    var handle := OpenHandleAt(w.core, now);
    if handle.Some? {
      var pass := Pass(handle.value, w.core.open.value.mintedAt + Pairing.PHRASE_LIFETIME);
      AddTokens(w.(core := d), {}, {pass});
      assert Next(w, SPassStart(now)) == w.(core := d, loops := w.loops + {}, passes := w.passes + {pass});
    }
  }

  // Only what the guard and the registry say is left to check when dead handles stay dead.
  ghost predicate DeadStays(w: World, d: Core) {
    forall h :: h in w.used && Dead(w.core, h) ==> Dead(d, h)
  }

  lemma OpenCore(w: World, s: Step)
    requires Inv(w) && Enabled(w, s) && s.SOpen?
    ensures MintInv(Next(w, s)) && LinkInv(Next(w, s).core)
    ensures DeadStays(w, Next(w, s).core)
  {
    var v := Next(w, s);
    assert v.core.files == w.core.files;
    assert forall h :: InStore(v.core, h) <==> InStore(w.core, h);
  }

  lemma OpenKeeps(w: World, s: Step)
    requires Inv(w) && Enabled(w, s) && s.SOpen?
    ensures Inv(Next(w, s))
  {
    var v := Next(w, s);
    OpenCore(w, s);
    assert v.core.active == w.core.active && v.core.registry == w.core.registry && v.core.files == w.core.files;
    GuardStays(w, v);
  }

  lemma GuardStays(w: World, v: World)
    requires TokenInv(w) && GuardInv(w) && DeadStays(w, v.core)
    requires v.core.active == w.core.active && v.claims == w.claims && v.bound == w.bound
    requires forall h :: h in v.core.registry ==> h in w.core.registry
    ensures GuardInv(v)
  {
    HolderStays(w, v);
  }

  // The guard's holder is still there when neither the guard nor the claims lost it.
  lemma HolderStays(w: World, v: World)
    requires GuardInv(w)
    requires v.core.active.Some? ==> w.core.active.Some? && w.core.active.value.handle == v.core.active.value.handle
    requires v.core.active.Some? ==>
      forall i :: i in w.claims && w.claims[i].handle == v.core.active.value.handle ==>
        i in v.claims && v.claims[i].handle == w.claims[i].handle
    ensures v.core.active.Some? ==> exists i :: i in v.claims && v.claims[i].handle == v.core.active.value.handle
  {
    if v.core.active.Some? {
      var i :| i in w.claims && w.claims[i].handle == w.core.active.value.handle;
      assert i in v.claims;
    }
  }

  lemma ClaimedKeeps(w: World, claim: ClaimId, a: Attempt)
    requires Inv(w) && claim !in w.usedClaims && !a.registered && a.handle in w.used
    requires a.device.Some? ==> a.handle in w.bound && w.bound[a.handle] == (a.device.value, a.hostId)
    ensures Inv(Claimed(w, claim, a))
  {
    if CanClaim(w.core) {
      var v := Claimed(w, claim, a);
      assert forall h :: InStore(v.core, h) <==> InStore(w.core, h);
      assert w.core.registry == map[];
      assert claim in v.claims && v.claims[claim].handle == v.core.active.value.handle;
    }
  }

  lemma DropKeeps(w: World, s: Step)
    requires Inv(w) && Enabled(w, s) && s.SDrop?
    ensures Inv(Next(w, s))
  {
    var v := Next(w, s);
    assert forall h :: InStore(v.core, h) <==> InStore(w.core, h);
    HolderStays(w, v);
  }

  lemma RegisterKeeps(w: World, s: Step)
    requires Inv(w) && Enabled(w, s) && s.SRegister?
    ensures Inv(Next(w, s))
  {
    var v := Next(w, s);
    assert forall h :: InStore(v.core, h) <==> InStore(w.core, h);
    HolderStays(w, v);
  }

  // The claim of a successful enrolment holds the guard: its handle is the one on offer.
  lemma EnrolHoldsGuard(w: World, claim: ClaimId, now: Time, fault: Store.Fault)
    requires Inv(w) && claim in w.claims && w.claims[claim].device.None?
    requires EnrolOutcome(w.core, w.claims[claim].handle, w.claims[claim].deadline, now, fault) == Enrolled
    ensures OpenHandle(w.core) == Some(w.claims[claim].handle)
    ensures w.core.active == Some(ActiveSession(None, w.claims[claim].handle))
    ensures w.core.registry == map[]
    ensures forall i :: i in w.claims && i != claim ==> w.claims[i].handle != w.claims[claim].handle
  {
    assert !Dead(w.core, w.claims[claim].handle);
  }

  lemma EnrolledCore(w: World, s: Step)
    requires Inv(w) && Enabled(w, s) && s.SEnrol?
    requires EnrolOutcome(w.core, w.claims[s.claim].handle, w.claims[s.claim].deadline, s.now, s.fault) == Enrolled
    ensures var a, d := w.claims[s.claim], Next(w, s).core;
            d.files.devices == Store.Without(w.core.files.devices, s.device)
                               + [Store.PairedDevice(a.hostId, Some(a.handle), s.device, s.details, s.now, s.now)]
            && OpenHandle(d) == None && (d.open.Some? ==> Pairing.WellFormed(d.open.value.session))
            && d.active == Some(ActiveSession(Some(s.device), a.handle))
            && d.registry == map[] && d.link == w.core.link && d.stopped == w.core.stopped
  {
    EnrolHoldsGuard(w, s.claim, s.now, s.fault);
  }

  lemma FailedEnrolKeeps(w: World, s: Step)
    requires Inv(w) && Enabled(w, s) && s.SEnrol?
    requires EnrolOutcome(w.core, w.claims[s.claim].handle, w.claims[s.claim].deadline, s.now, s.fault) != Enrolled
    ensures Quieter(w.core, Next(w, s).core) && Inv(Next(w, s))
  {
    QuietKeeps(w, Next(w, s).core);
  }

  lemma EnrolKeeps(w: World, s: Step)
    requires Inv(w) && Enabled(w, s) && s.SEnrol?
    ensures Inv(Next(w, s))
  {
    var a := w.claims[s.claim];
    if EnrolOutcome(w.core, a.handle, a.deadline, s.now, s.fault) != Enrolled {
      FailedEnrolKeeps(w, s);
    } else {
      EnrolHoldsGuard(w, s.claim, s.now, s.fault);
      EnrolledCore(w, s);
      EnrolledStore(w, s, Next(w, s));
      EnrolledGuard(w, s, Next(w, s));
    }
  }

  lemma EnrolledStore(w: World, s: Step, v: World)
    requires Inv(w) && Enabled(w, s) && s.SEnrol? && v == Next(w, s)
    requires EnrolOutcome(w.core, w.claims[s.claim].handle, w.claims[s.claim].deadline, s.now, s.fault) == Enrolled
    ensures StoreInv(v)
    ensures forall h :: InStore(v.core, h) ==> h == w.claims[s.claim].handle || InStore(w.core, h)
  {
    var a := w.claims[s.claim];
    EnrolHoldsGuard(w, s.claim, s.now, s.fault);
    EnrolledCore(w, s);
    AddedList(w.core.files, Store.PairedDevice(a.hostId, Some(a.handle), s.device, s.details, s.now, s.now));
  }

  lemma EnrolledGuard(w: World, s: Step, v: World)
    requires Inv(w) && Enabled(w, s) && s.SEnrol? && v == Next(w, s)
    requires EnrolOutcome(w.core, w.claims[s.claim].handle, w.claims[s.claim].deadline, s.now, s.fault) == Enrolled
    ensures GuardInv(v)
  {
    EnrolHoldsGuard(w, s.claim, s.now, s.fault);
    EnrolledCore(w, s);
    EnrolledStore(w, s, v);
    assert s.claim in v.claims && v.claims[s.claim].handle == v.core.active.value.handle;
    forall i | i in v.claims && i != s.claim ensures Dead(v.core, v.claims[i].handle) {
      assert Dead(w.core, w.claims[i].handle);
    }
  }

  lemma TouchKeeps(w: World, s: Step)
    requires Inv(w) && Enabled(w, s) && s.STouch?
    ensures Inv(Next(w, s))
  {
    var v := Next(w, s);
    TouchedList(w.core.files, s.device, s.now, s.fault);
    assert forall h :: InStore(v.core, h) ==> InStore(w.core, h);
    HolderStays(w, v);
  }

  // Once the list no longer holds the device, every handle bound to it is dead.
  lemma RevokedIsDead(w: World, d: Core, device: DeviceId, h: Handle)
    requires Inv(w) && OpenHandle(d) == OpenHandle(w.core)
    requires forall e :: e in d.files.devices ==> e in w.core.files.devices && e.deviceId != device
    requires h in w.bound && w.bound[h].0 == device
    ensures Dead(d, h)
  {
  }

  // Taking entries of one device out of the list and its sessions out of the registry.
  lemma RemovalKeeps(w: World, d: Core, device: DeviceId)
    requires Inv(w) && LinkInv(d) && d.open == w.core.open && d.active == w.core.active
    requires Store.DistinctIds(d.files.devices)
    requires forall e :: e in d.files.devices <==> e in w.core.files.devices && e.deviceId != device
    requires d.registry == CloseForRevocation(w.core.registry, {device}, false)
    ensures Inv(w.(core := d))
  {
    var v := w.(core := d);
    assert DeadStays(w, d);
    GuardStays(w, v);
  }

  lemma RevokeOneKeeps(w: World, s: Step)
    requires Inv(w) && Enabled(w, s) && s.SRevokeOne?
    ensures Inv(Next(w, s))
  {
    var d := RevokeOne(w.core, s.device, s.fault);
    if RevokeOneAnswer(w.core, s.device, s.fault) == Done {
      RevokedList(w.core.files, s.device);
      if d.active == w.core.active {
        RemovalKeeps(w, d, s.device);
      } else {
        GuardRevoked(w, s.device, d);
      }
    }
  }

  lemma GuardRevoked(w: World, device: DeviceId, d: Core)
    requires Inv(w) && d == RevokeOne(w.core, device, Store.NoFault) && d.active != w.core.active
    ensures Inv(w.(core := d))
  {
    RevokedList(w.core.files, device);
    RevokedIsDead(w, d, device, w.core.active.value.handle);
    assert DeadStays(w, d);
    assert d.registry == map[];
  }

  lemma RevokeAllKeeps(w: World, s: Step)
    requires Inv(w) && Enabled(w, s) && s.SRevokeAll?
    ensures Inv(Next(w, s))
  {
    HolderStays(w, Next(w, s));
  }

  lemma WireAllKeeps(w: World, fault: Store.Fault, rotated: bool, r: WireRequest)
    requires Inv(w) && WireAll(r)
    ensures Inv(w.(core := WireRevoke(w.core, r, fault, rotated)))
  {
    var v := w.(core := WireRevoke(w.core, r, fault, rotated));
    assert DeadStays(w, v.core);
    GuardStays(w, v);
  }

  lemma WireRevokeKeeps(w: World, s: Step)
    requires Inv(w) && Enabled(w, s) && s.SWireRevoke?
    ensures Inv(Next(w, s))
  {
    if WireAll(s.request) {
      WireAllKeeps(w, s.fault, s.rotated, s.request);
    } else if WireOne(s.request) {
      var device := s.request.device.value;
      var d := WireRevoke(w.core, s.request, s.fault, s.rotated);
      if Store.Find(w.core.files.devices, device).Some? && s.fault == Store.NoFault {
        RevokedList(w.core.files, device);
        RemovalKeeps(w, d, device);
      } else {
        assert d == w.core;
      }
    }
  }

  lemma RestartKeeps(w: World)
    requires Inv(w) && Store.InSync(w.core.files)
    ensures Inv(Restarted(w)) && Restarted(w).core.files == w.core.files
  {
  }
}
