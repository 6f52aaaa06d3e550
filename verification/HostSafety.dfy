/** What holds in every run of the Host, from any stored list with distinct ids and handles. */
module HostSafety {
  import opened Prelude
  import opened Host
  import opened HostProtocol
  import Pairing
  import Store

  predicate GoodFile(file: Option<seq<Store.PairedDevice>>) {
    Store.DistinctIds(Store.Reload(file)) && DistinctHandles(Store.Reload(file))
  }

  function World0(file: Option<seq<Store.PairedDevice>>, steps: seq<Step>): World {
    Run(Start(file), steps)
  }

  // The session of `claim` was registered and its close channel has not been resolved.
  predicate Dispatches(w: World, claim: ClaimId) {
    claim in w.claims && w.claims[claim].registered
    && w.claims[claim].handle in w.core.registry
    && w.core.registry[w.claims[claim].handle].session == claim
  }

  lemma GuardStepKeepsInv(w: World, s: Step)
    requires Inv(w) && Enabled(w, s)
    requires s.SLoopStart? || s.SPassStart? || s.SClaimLoop? || s.SClaimPass? || s.SRegister? || s.SDrop?
    ensures Inv(Next(w, s))
  {
    match s
    case SLoopStart(_) => LoopStartKeeps(w, s);
    case SPassStart(now) => PassStartKeeps(w, now);
    case SClaimLoop(l, claim) => ClaimedKeeps(w, claim, Attempt(l.handle, l.hostId, Some(l.device), 0, false));
    case SClaimPass(p, claim, hostId) => ClaimedKeeps(w, claim, Attempt(p.handle, hostId, None, p.deadline, false));
    case SRegister(_) => RegisterKeeps(w, s);
    case SDrop(_) => DropKeeps(w, s);
  }

  lemma StoreStepKeepsInv(w: World, s: Step)
    requires Inv(w) && Enabled(w, s)
    requires s.SEnrol? || s.SOpen? || s.STouch? || s.SRevokeOne? || s.SRevokeAll? || s.SWireRevoke?
    ensures Inv(Next(w, s))
  {
    match s
    case SEnrol(_, _, _, _, _, _) => EnrolKeeps(w, s);
    case SOpen(_, _, _) => OpenKeeps(w, s);
    case STouch(_, _, _) => TouchKeeps(w, s);
    case SRevokeOne(_, _) => RevokeOneKeeps(w, s);
    case SRevokeAll(_) => RevokeAllKeeps(w, s);
    case SWireRevoke(_, _, _) => WireRevokeKeeps(w, s);
  }

  // The steps that call the store; every other step leaves both copies of the list alone.
  predicate CallsStore(s: Step) {
    s.SEnrol? || s.STouch? || s.SRevokeOne? || s.SRevokeAll? || s.SWireRevoke?
  }

  lemma OtherStepsKeepFiles(w: World, s: Step)
    requires Enabled(w, s) && !CallsStore(s) && !s.SRestart?
    ensures Next(w, s).core.files == w.core.files
  {
  }

  // The phrase of the claim is on offer, and neither it nor the enrolment is out of time.
  predicate ReachesTheSave(w: World, s: Step)
    requires Enabled(w, s) && s.SEnrol?
  {
    && !w.core.stopped && s.now < w.claims[s.claim].deadline
    && OpenHandle(w.core) == Some(w.claims[s.claim].handle)
    && s.now <= w.core.open.value.session.generatedAt + 600 * SECOND
  }

  // The one call a step makes on the store, if it makes one.
  function StoreCall(w: World, s: Step): Option<Store.Call>
    requires Enabled(w, s)
  {
    match s
    case SEnrol(claim, device, details, now, _, fault) =>
      var a := w.claims[claim];
      if ReachesTheSave(w, s)
      then Some(Store.Call(Store.AddOp(Store.PairedDevice(a.hostId, Some(a.handle), device, details, now, now)), fault))
      else None
    case STouch(device, now, fault) => Some(Store.Call(Store.TouchOp(device, now), fault))
    case SRevokeOne(device, fault) => Some(Store.Call(Store.RevokeOp(device), fault))
    case SRevokeAll(fault) => Some(Store.Call(Store.ClearOp, fault))
    case SWireRevoke(WireRequest(None, Some(true)), fault, _) => Some(Store.Call(Store.ClearOp, fault))
    case SWireRevoke(WireRequest(Some(device), None), fault, _) => Some(Store.Call(Store.RevokeOp(device), fault))
    case SWireRevoke(WireRequest(Some(device), Some(false)), fault, _) => Some(Store.Call(Store.RevokeOp(device), fault))
    case _ => None
  }

  function AfterCall(files: Store.Files, call: Option<Store.Call>): Store.Files {
    if call == None then files else Store.Apply(files, call.value)
  }

  lemma EnrolIsOneCall(w: World, s: Step)
    requires Enabled(w, s) && s.SEnrol?
    ensures Next(w, s).core.files == AfterCall(w.core.files, StoreCall(w, s))
  {
  }

  lemma RevocationIsOneCall(w: World, s: Step)
    requires Enabled(w, s) && (s.SRevokeOne? || s.SRevokeAll? || s.SWireRevoke? || s.STouch?)
    ensures Next(w, s).core.files == AfterCall(w.core.files, StoreCall(w, s))
  {
  }

  // Both copies of the list change only by that call.
  lemma StepIsOneCall(w: World, s: Step)
    requires Enabled(w, s) && Store.InSync(w.core.files)
    ensures Next(w, s).core.files == AfterCall(w.core.files, StoreCall(w, s))
  {
    if s.SEnrol? {
      EnrolIsOneCall(w, s);
    } else if CallsStore(s) {
      RevocationIsOneCall(w, s);
    } else if !s.SRestart? {
      OtherStepsKeepFiles(w, s);
    }
  }

  // Whatever the step, memory stays what reloading the file gives.
  lemma StepKeepsSync(w: World, s: Step)
    requires Enabled(w, s) && Store.InSync(w.core.files)
    ensures Store.InSync(Next(w, s).core.files)
  {
    StepIsOneCall(w, s);
    var call := StoreCall(w, s);
    if call.Some? {
      Store.StepKeepsSync(w.core.files, call.value);
    }
  }

  // The invariant, and a list in memory that is the one on file.
  predicate Sound(w: World) {
    Inv(w) && Store.InSync(w.core.files)
  }

  lemma StepKeepsInv(w: World, s: Step)
    requires Sound(w) && Enabled(w, s)
    ensures Sound(Next(w, s))
  {
    StepKeepsSync(w, s);
    if s.SRestart? {
      RestartKeeps(w);
    } else if s.SLoopStart? || s.SPassStart? || s.SClaimLoop? || s.SClaimPass? || s.SRegister? || s.SDrop? {
      GuardStepKeepsInv(w, s);
    } else if s.SEnrol? || s.SOpen? || s.STouch? || s.SRevokeOne? || s.SRevokeAll? || s.SWireRevoke? {
      StoreStepKeepsInv(w, s);
    } else {
      QuietStepKeeps(w, s);
      QuietKeeps(w, Next(w, s).core);
    }
  }

  lemma {:induction false} RunKeepsInv(w: World, steps: seq<Step>)
    requires Sound(w)
    ensures Sound(Run(w, steps))
  {
    if steps != [] {
      var last := |steps| - 1;
      RunKeepsInv(w, steps[..last]);
      var v := Run(w, steps[..last]);
      if Enabled(v, steps[last]) {
        StepKeepsInv(v, steps[last]);
      }
    }
  }

  lemma ReachableInv(file: Option<seq<Store.PairedDevice>>, steps: seq<Step>)
    requires GoodFile(file)
    ensures Sound(World0(file, steps))
  {
    StartInv(file);
    RunKeepsInv(Start(file), steps);
  }

  // At most one session can dispatch, and the guard names exactly that session.
  lemma OneSession(file: Option<seq<Store.PairedDevice>>, steps: seq<Step>, i: ClaimId, j: ClaimId)
    requires GoodFile(file)
    requires Dispatches(World0(file, steps), i) && Dispatches(World0(file, steps), j)
    ensures i == j
    ensures var w := World0(file, steps);
            w.core.active == Some(ActiveSession(w.claims[i].device, w.claims[i].handle)) && w.claims[i].device.Some?
            && forall h :: h in w.core.registry ==> h == w.claims[i].handle
  {
    ReachableInv(file, steps);
  }

  // Dropping any other claim, however late and whatever handle it holds, leaves the session that
  // can dispatch registered and the guard on it.
  lemma StaleDropIsHarmless(file: Option<seq<Store.PairedDevice>>, steps: seq<Step>, live: ClaimId, stale: ClaimId)
    requires GoodFile(file)
    requires Dispatches(World0(file, steps), live)
    requires stale in World0(file, steps).claims && stale != live
    ensures var w := World0(file, steps);
            var v := Next(w, SDrop(stale));
            Dispatches(v, live) && v.core.active == w.core.active && v.core.link == w.core.link
            && v.core.registry == w.core.registry
  {
    ReachableInv(file, steps);
  }

  // The guard is never leaked: when no claim is outstanding, no session is active.
  lemma GuardIsNeverLeaked(file: Option<seq<Store.PairedDevice>>, steps: seq<Step>)
    requires GoodFile(file) && World0(file, steps).claims == map[]
    ensures World0(file, steps).core.active == None && World0(file, steps).core.registry == map[]
  {
    ReachableInv(file, steps);
  }

  // The link and the guard agree, in every reachable state.
  lemma LinkIsHonest(file: Option<seq<Store.PairedDevice>>, steps: seq<Step>)
    requires GoodFile(file)
    ensures var c := World0(file, steps).core;
            (c.stopped <==> c.link == Stopped)
            && (c.link == Connected ==> c.active.Some?)
            && (c.link.Offline? ==> c.active.None?)
  {
    ReachableInv(file, steps);
  }

  // A claim is granted: nobody holds the guard and the bridge runs.
  predicate Grants(w: World, s: Step) {
    (s.SClaimLoop? || s.SClaimPass?) && w.core.active == None && !w.core.stopped
  }

  // The guard's session ends with this step: its claim is dropped, or its device or everything revoked.
  predicate EndsSession(w: World, s: Step)
    requires Enabled(w, s)
  {
    w.core.active.Some?
    && match s
       case SDrop(claim) => w.claims[claim].handle == w.core.active.value.handle
       case SRevokeOne(device, fault) =>
         fault == Store.NoFault && w.core.active.value.device == Some(device)
         && exists d :: d in w.core.files.devices && d.deviceId == device
       case SRevokeAll(fault) => fault == Store.NoFault
       case _ => false
  }

  // What the link reads after a step, from what it read before: connected from a claim until its session
  // ends; what a task without a session reports while there is none; stopped until a pairing is opened.
  function LinkAfter(w: World, s: Step, leaves: bool): Link
    requires Enabled(w, s)
  {
    if s == SStop then Stopped
    else if s == SRestart then Idle
    else if Grants(w, s) then Connected
    else if w.core.stopped then (if s.SOpen? && leaves then Idle else Stopped)
    else if EndsSession(w, s) || s == SRevokeAll(Store.NoFault) then Idle
    else if s == SIdle && w.core.active == None then Idle
    else if s.SOffline? && w.core.active == None then Offline(s.attempt)
    else w.core.link
  }

  lemma LinkFollowsRevocation(w: World, s: Step)
    requires LinkInv(w.core) && Enabled(w, s) && (s.SRevokeOne? || s.SRevokeAll? || s.SWireRevoke?)
    ensures Next(w, s).core.link == LinkAfter(w, s, false)
  {
    if s.SRevokeOne? {
      ListedIff(w.core.files.devices, s.device);
    }
  }

  lemma ListedIff(list: seq<Store.PairedDevice>, device: DeviceId)
    ensures Store.Find(list, device).Some? <==> exists d :: d in list && d.deviceId == device
  {
  }

  lemma LinkFollowsGuard(w: World, s: Step)
    requires LinkInv(w.core) && Enabled(w, s)
    requires s.SClaimLoop? || s.SClaimPass? || s.SDrop? || s.SRegister? || s.SEnrol? || s.STouch?
    ensures Next(w, s).core.link == LinkAfter(w, s, false)
  {
  }

  lemma LinkFollows(w: World, s: Step)
    requires Inv(w) && Enabled(w, s)
    ensures Next(w, s).core.link == LinkAfter(w, s, !Next(w, s).core.stopped)
  {
    if s.SRevokeOne? || s.SRevokeAll? || s.SWireRevoke? {
      LinkFollowsRevocation(w, s);
    } else if s.SClaimLoop? || s.SClaimPass? || s.SDrop? || s.SRegister? || s.SEnrol? || s.STouch? {
      LinkFollowsGuard(w, s);
    } else if s.SLoopStart? || s.SIdle? || s.SOffline? || s.SStop? || s.SRestart? {
      LinkFollowsTasks(w, s);
    } else {
      LinkFollowsPairing(w, s);
    }
  }

  lemma LinkFollowsTasks(w: World, s: Step)
    requires LinkInv(w.core) && Enabled(w, s)
    requires s.SLoopStart? || s.SIdle? || s.SOffline? || s.SStop? || s.SRestart?
    ensures Next(w, s).core.link == LinkAfter(w, s, false)
  {
  }

  lemma LinkFollowsPairing(w: World, s: Step)
    requires LinkInv(w.core) && Enabled(w, s)
    requires s.SPassStart? || s.SOpen? || s.SClose? || s.SStatus? || s.SPairingRegistered? || s.SHandshakeFailed?
             || s.SHandshakeTimedOut? || s.SEnrolmentTimedOut?
    ensures Next(w, s).core.link == LinkAfter(w, s, !Next(w, s).core.stopped)
  {
  }

  // An enrolment by the claim that holds the guard succeeds.
  predicate EnrolsHolder(w: World, s: Step)
    requires Enabled(w, s)
  {
    s.SEnrol? && ReachesTheSave(w, s) && s.fault == Store.NoFault
  }

  // Who holds the guard after a step: whoever was granted it, by the handle of its own token; nobody once
  // that session ends; and the device it enrolled is named from its enrolment on.
  function GuardAfter(w: World, s: Step): Option<ActiveSession>
    requires Enabled(w, s)
  {
    if s == SRestart || EndsSession(w, s) then None
    else if Grants(w, s) then
      Some(if s.SClaimLoop? then ActiveSession(Some(s.loop.device), s.loop.handle)
           else ActiveSession(None, s.pass.handle))
    else if EnrolsHolder(w, s) then Some(ActiveSession(Some(s.device), w.claims[s.claim].handle))
    else w.core.active
  }

  lemma GuardFollowsEnrolment(w: World, s: Step)
    requires Inv(w) && Enabled(w, s) && s.SEnrol?
    ensures Next(w, s).core.active == GuardAfter(w, s)
  {
    if EnrolsHolder(w, s) {
      EnrolHoldsGuard(w, s.claim, s.now, s.fault);
    }
  }

  lemma GuardFollowsRevocation(w: World, s: Step)
    requires Enabled(w, s) && (s.SRevokeOne? || s.SRevokeAll? || s.SWireRevoke?)
    ensures Next(w, s).core.active == GuardAfter(w, s)
  {
    if s.SRevokeOne? {
      ListedIff(w.core.files.devices, s.device);
    }
  }

  lemma GuardFollows(w: World, s: Step)
    requires Inv(w) && Enabled(w, s)
    ensures Next(w, s).core.active == GuardAfter(w, s)
  {
    if s.SEnrol? {
      GuardFollowsEnrolment(w, s);
    } else if s.SRevokeOne? || s.SRevokeAll? || s.SWireRevoke? {
      GuardFollowsRevocation(w, s);
    } else if s.SClaimLoop? || s.SClaimPass? || s.SDrop? || s.SRegister? || s.SRestart? {
      GuardFollowsClaims(w, s);
    } else {
      GuardIsLeftAlone(w, s);
    }
  }

  lemma GuardFollowsClaims(w: World, s: Step)
    requires Enabled(w, s) && (s.SClaimLoop? || s.SClaimPass? || s.SDrop? || s.SRegister? || s.SRestart?)
    ensures Next(w, s).core.active == GuardAfter(w, s)
  {
  }

  lemma GuardIsLeftAlone(w: World, s: Step)
    requires Enabled(w, s) && !s.SEnrol? && !s.SRevokeOne? && !s.SRevokeAll? && !s.SWireRevoke?
    requires !s.SClaimLoop? && !s.SClaimPass? && !s.SDrop? && !s.SRegister? && !s.SRestart?
    ensures Next(w, s).core.active == w.core.active
  {
  }

  // A Device-sent revocation is answered as done exactly when it asks for one thing, one device or
  // everything, and every part of that went through; then nothing of it is listed or registered.
  lemma WireAnswerIff(w: World, r: WireRequest, fault: Store.Fault, rotated: bool)
    requires Inv(w)
    ensures var listed := exists d :: d in w.core.files.devices && r.device == Some(d.deviceId);
      var done, c := WireSucceeds(r, fault, rotated, listed), Next(w, SWireRevoke(r, fault, rotated)).core;
      && (done <==>
            match r
            case WireRequest(None, Some(true)) => fault == Store.NoFault && rotated
            case WireRequest(Some(_), None) => !listed || fault == Store.NoFault
            case WireRequest(Some(_), Some(false)) => !listed || fault == Store.NoFault
            case _ => false)
      && (done && r.device == None ==> c.files.devices == [] && c.registry == map[])
      && (done && r.device.Some? ==>
            && (forall d :: d in c.files.devices ==> d.deviceId != r.device.value)
            && (forall h :: h in c.registry && listed ==> c.registry[h].device != r.device.value))
  {
    if r.device.Some? {
      RevokedList(w.core.files, r.device.value);
    }
  }

  // While stopped nothing is claimed, enrolled or registered: those steps change no token and
  // register no session.
  lemma StoppedAdmitsNothing(w: World, s: Step)
    requires w.core.stopped && Enabled(w, s)
    requires s.SClaimLoop? || s.SClaimPass? || s.SEnrol? || s.SRegister?
    ensures Next(w, s) == w
  {
  }

  // Opening a pairing leaves the stopped state exactly when no live pairing was open and the mint
  // succeeds.
  lemma OpenLeavesStopped(c: Core, now: Time, minted: Option<Pairing.Credentials>, at: Time)
    requires c.stopped
    ensures !OpenThePairing(c, now, minted, at).stopped <==> OpenHandleAt(c, now).None? && minted.Some?
  {
  }

  // Stopping never touches the pairing, the list or the guard.
  lemma StopKeepsThePairing(c: Core)
    ensures Stop(c).open == c.open && Stop(c).files == c.files && Stop(c).active == c.active
            && Stop(c).registry == c.registry
  {
  }

  // Every enrolment uses the phrase on offer, at most 600 s old and failed fewer than three times,
  // by the claim that holds the guard; afterwards the phrase is gone and the device is listed with
  // the handle and the host id of that claim.
  lemma EnrolmentIsFresh(file: Option<seq<Store.PairedDevice>>, steps: seq<Step>, s: Step)
    requires GoodFile(file) && s.SEnrol? && Enabled(World0(file, steps), s)
    requires var w := World0(file, steps);
             EnrolOutcome(w.core, w.claims[s.claim].handle, w.claims[s.claim].deadline, s.now, s.fault) == Enrolled
    ensures var w := World0(file, steps);
            var a, v := w.claims[s.claim], Next(w, s);
            && w.core.open.Some? && w.core.open.value.session.Live?
            && w.core.open.value.session.credentials.handle == a.handle
            && Since(s.now, w.core.open.value.session.generatedAt) <= Pairing.PHRASE_LIFETIME
            && w.core.open.value.session.failedAttempts < Pairing.MAX_ATTEMPTS
            && w.core.active == Some(ActiveSession(None, a.handle))
            && OpenHandle(v.core) == None
            && v.core.active == Some(ActiveSession(Some(s.device), a.handle))
            && MayRegister(v.core, a.hostId, a.handle, s.device)
  {
    ReachableInv(file, steps);
    var w := World0(file, steps);
    EnrolHoldsGuard(w, s.claim, s.now, s.fault);
    EnrolledCore(w, s);
    EnrolledStore(w, s, Next(w, s));
    var a := w.claims[s.claim];
    var e := Store.PairedDevice(a.hostId, Some(a.handle), s.device, s.details, s.now, s.now);
    AddedList(w.core.files, e);
    assert e in Next(w, s).core.files.devices;
  }

  // ---- revocation ----

  // Step `s` succeeds and revokes `device`.
  predicate Revokes(w: World, s: Step, device: DeviceId) {
    match s
    case SRevokeOne(d, fault) => d == device && RevokeOneAnswer(w.core, d, fault) == Done
    case SRevokeAll(fault) => fault == Store.NoFault
    case SWireRevoke(r, fault, rotated) =>
      fault == Store.NoFault
      && if WireAll(r) then rotated
         else WireOne(r) && r.device == Some(device) && Store.Find(w.core.files.devices, device).Some?
    case _ => false
  }

  // A used handle that is dead and unregistered is so for good.
  predicate Gone(w: World, h: Handle) {
    h in w.used && Dead(w.core, h) && h !in w.core.registry
  }

  lemma OpenHandleFades(c: Core, now: Time)
    ensures OpenHandle(ExpireOpen(c, now)).Some? ==> OpenHandle(ExpireOpen(c, now)) == OpenHandle(c)
    ensures OpenHandleAt(c, now).Some? ==> OpenHandleAt(c, now) == OpenHandle(c)
  {
  }

  lemma GoneAfterEnrol(w: World, s: Step, h: Handle)
    requires Inv(w) && Enabled(w, s) && s.SEnrol? && Gone(w, h)
    ensures Gone(Next(w, s), h)
  {
    var a := w.claims[s.claim];
    OpenHandleFades(w.core, s.now);
    if EnrolOutcome(w.core, a.handle, a.deadline, s.now, s.fault) == Enrolled {
      EnrolHoldsGuard(w, s.claim, s.now, s.fault);
      EnrolledStore(w, s, Next(w, s));
      EnrolledCore(w, s);
    } else {
      assert Quieter(w.core, Next(w, s).core);
    }
  }

  lemma GoneAfterQuiet(w: World, v: World, h: Handle)
    requires Gone(w, h) && Quieter(w.core, v.core) && v.used == w.used
    ensures Gone(v, h)
  {
    assert forall k :: InStore(v.core, k) ==> InStore(w.core, k);
  }

  lemma GoneAfterQuietStep(w: World, s: Step, h: Handle)
    requires Inv(w) && Enabled(w, s) && Gone(w, h)
    requires !CallsStore(s) && !s.SRestart?
    requires !s.SClaimLoop? && !s.SClaimPass? && !s.SRegister? && !s.SDrop? && !s.SOpen?
    ensures Gone(Next(w, s), h)
  {
    if s.SPassStart? {
      QuietSections(w.core, s.now, 0, 0, 0);
    } else if !s.SLoopStart? {
      QuietStepKeeps(w, s);
    }
    GoneAfterQuiet(w, Next(w, s), h);
  }

  lemma GoneAfterTouch(w: World, device: DeviceId, now: Time, fault: Store.Fault, h: Handle)
    requires Store.DistinctIds(w.core.files.devices) && Gone(w, h)
    ensures Gone(Next(w, STouch(device, now, fault)), h)
  {
    TouchedList(w.core.files, device, now, fault);
  }

  lemma GoneAfterRevokeOne(w: World, device: DeviceId, fault: Store.Fault, h: Handle)
    requires Store.DistinctIds(w.core.files.devices) && Gone(w, h)
    ensures Gone(Next(w, SRevokeOne(device, fault)), h)
  {
    RevokedList(w.core.files, device);
  }

  lemma GoneAfterWireRevoke(w: World, r: WireRequest, fault: Store.Fault, rotated: bool, h: Handle)
    requires Store.DistinctIds(w.core.files.devices) && Gone(w, h)
    ensures Gone(Next(w, SWireRevoke(r, fault, rotated)), h)
  {
    if WireOne(r) {
      RevokedList(w.core.files, r.device.value);
    }
  }

  lemma RegisteredIsInStore(c: Core, hostId: HostId, h: Handle, device: DeviceId)
    ensures MayRegister(c, hostId, h, device) ==> InStore(c, h)
  {
  }

  // The steps that change the guard, the registry or the pairing.
  lemma GoneAfterGuardChange(w: World, s: Step, h: Handle)
    requires Inv(w) && Enabled(w, s) && Gone(w, h)
    requires s.SClaimLoop? || s.SClaimPass? || s.SRegister? || s.SDrop? || s.SOpen?
    ensures Gone(Next(w, s), h)
  {
    assert Next(w, s).core.files == w.core.files;
    assert InStore(Next(w, s).core, h) == InStore(w.core, h);
    if s.SRegister? {
      var a := w.claims[s.claim];
      RegisteredIsInStore(w.core, a.hostId, a.handle, a.device.value);
    }
  }

  lemma GoneStays(w: World, s: Step, h: Handle)
    requires Sound(w) && Enabled(w, s) && Gone(w, h)
    ensures Gone(Next(w, s), h)
  {
    if s.SRestart? {
      assert Next(w, s).core.files == w.core.files;
    } else if s.SEnrol? {
      GoneAfterEnrol(w, s, h);
    } else if s.STouch? {
      GoneAfterTouch(w, s.device, s.now, s.fault, h);
    } else if s.SRevokeOne? {
      GoneAfterRevokeOne(w, s.device, s.fault, h);
    } else if s.SWireRevoke? {
      GoneAfterWireRevoke(w, s.request, s.fault, s.rotated, h);
    } else if s.SRevokeAll? {
    } else if s.SClaimLoop? || s.SClaimPass? || s.SRegister? || s.SDrop? || s.SOpen? {
      GoneAfterGuardChange(w, s, h);
    } else {
      GoneAfterQuietStep(w, s, h);
    }
  }

  lemma {:induction false} GoneForever(w: World, steps: seq<Step>, h: Handle)
    requires Sound(w) && Gone(w, h)
    ensures Gone(Run(w, steps), h) && Sound(Run(w, steps))
  {
    if steps != [] {
      var last := |steps| - 1;
      GoneForever(w, steps[..last], h);
      var v := Run(w, steps[..last]);
      if Enabled(v, steps[last]) {
        StepKeepsInv(v, steps[last]);
        GoneStays(v, steps[last], h);
      }
    }
  }

  lemma RevokedIsGone(w: World, s: Step, device: DeviceId, h: Handle)
    requires Inv(w) && Enabled(w, s) && Revokes(w, s, device)
    requires h in w.bound && w.bound[h].0 == device
    ensures Gone(Next(w, s), h)
  {
    var v := Next(w, s);
    match s
    case SRevokeOne(d, fault) =>
      RevokedList(w.core.files, d);
      RevokedIsDead(w, v.core, device, h);
    case SRevokeAll(_) =>
    case SWireRevoke(r, fault, _) =>
      if WireOne(r) {
        RevokedList(w.core.files, device);
        RevokedIsDead(w, v.core, device, h);
      }
  }

  // Revocation is final. The moment it succeeds no session of the device can dispatch; and whatever
  // runs afterwards, a re-enrolment of the device included, no handle the device was ever enrolled
  // with can register for dispatch again, for any host id and any device.
  lemma RevocationIsFinal(file: Option<seq<Store.PairedDevice>>, before: seq<Step>, s: Step, after: seq<Step>,
                          device: DeviceId, h: Handle)
    requires GoodFile(file)
    requires var w := World0(file, before);
             Enabled(w, s) && Revokes(w, s, device) && h in w.bound && w.bound[h].0 == device
    ensures var v := Next(World0(file, before), s);
            forall i :: Dispatches(v, i) ==> v.claims[i].device != Some(device)
    ensures var end := Run(Next(World0(file, before), s), after);
            h !in end.core.registry
            && (forall i :: Dispatches(end, i) ==> end.claims[i].handle != h)
            && forall hostId, d :: !MayRegister(end.core, hostId, h, d)
  {
    ReachableInv(file, before);
    var w := World0(file, before);
    var v := Next(w, s);
    StepKeepsInv(w, s);
    RevokedIsGone(w, s, device, h);
    forall i | Dispatches(v, i) ensures v.claims[i].device != Some(device) {
      if v.claims[i].device == Some(device) {
        RevokedIsGone(w, s, device, v.claims[i].handle);
      }
    }
    GoneForever(v, after, h);
    var end := Run(v, after);
    forall hostId, d ensures !MayRegister(end.core, hostId, h, d) {
      RegisteredIsInStore(end.core, hostId, h, d);
    }
  }

  // Revoking everything also ends every phrase: no claim outstanding at that moment, paired or
  // still pairing, can ever register or enrol.
  lemma RevokingAllEndsEveryClaim(file: Option<seq<Store.PairedDevice>>, before: seq<Step>, s: Step, after: seq<Step>,
                                  i: ClaimId)
    requires GoodFile(file)
    requires var w := World0(file, before); Enabled(w, s) && i in w.claims
    requires s == SRevokeAll(Store.NoFault)
             || (s.SWireRevoke? && WireAll(s.request) && s.fault == Store.NoFault && s.rotated)
    ensures Next(World0(file, before), s).core.registry == map[]
    ensures var h := World0(file, before).claims[i].handle;
            var end := Run(Next(World0(file, before), s), after);
            h !in end.core.registry && OpenHandle(end.core) != Some(h)
            && forall hostId, d :: !MayRegister(end.core, hostId, h, d)
  {
    ReachableInv(file, before);
    var w := World0(file, before);
    var v := Next(w, s);
    var h := w.claims[i].handle;
    StepKeepsInv(w, s);
    assert Gone(v, h);
    GoneForever(v, after, h);
    var end := Run(v, after);
    forall hostId, d ensures !MayRegister(end.core, hostId, h, d) {
      RegisteredIsInStore(end.core, hostId, h, d);
    }
  }

  // A Device-sent revocation of everything closes a session that can dispatch exactly when both the
  // save and the key rotation succeed; when only the rotation fails the list is already empty.
  lemma WireRevokeAllCloses(file: Option<seq<Store.PairedDevice>>, steps: seq<Step>, r: WireRequest,
                            fault: Store.Fault, rotated: bool, live: ClaimId)
    requires GoodFile(file) && WireAll(r) && Dispatches(World0(file, steps), live)
    ensures var v := Next(World0(file, steps), SWireRevoke(r, fault, rotated));
            (!Dispatches(v, live) <==> fault == Store.NoFault && rotated)
            && (fault == Store.NoFault ==> v.core.files.devices == [])
  {
    ReachableInv(file, steps);
  }

  // ---- the list and the store ----

  // The calls a run makes on the store.
  function CallsOf(w: World, steps: seq<Step>): seq<Store.Call> {
    if steps == [] then []
    else
      var front, s := steps[..|steps| - 1], steps[|steps| - 1];
      var v := Run(w, front);
      var call := if Enabled(v, s) then StoreCall(v, s) else None;
      CallsOf(w, front) + if call == None then [] else [call.value]
  }

  // In every run, restarts included, the list is what those calls make of the list the Host started
  // from; so it is the enrolments no later call ended, in the order they were made.
  lemma {:induction false} ListIsTheCalls(file: Option<seq<Store.PairedDevice>>, steps: seq<Step>)
    requires GoodFile(file)
    ensures World0(file, steps).core.files
         == Store.Run(Store.Files(Store.Reload(file), file), CallsOf(Start(file), steps))
  {
    if steps != [] {
      var front, s := steps[..|steps| - 1], steps[|steps| - 1];
      var v := Run(Start(file), front);
      ListIsTheCalls(file, front);
      ReachableInv(file, front);
      if Enabled(v, s) {
        StepIsOneCall(v, s);
        var call, calls := StoreCall(v, s), CallsOf(Start(file), front);
        if call.Some? {
          assert (calls + [call.value])[..|calls|] == calls;
        } else {
          assert calls + [] == calls;
        }
      } else {
        assert CallsOf(Start(file), front) + [] == CallsOf(Start(file), front);
      }
    }
  }

  // ---- restarts ----

  // Entries bound to their handles, with distinct ids, have distinct handles.
  lemma BoundHandlesAreDistinct(w: World)
    requires StoreInv(w)
    ensures DistinctHandles(w.core.files.devices)
  {
    var list := w.core.files.devices;
    forall i, j | 0 <= i < j < |list| && list[i].handle.Some?
      ensures list[i].handle != list[j].handle
    {
      assert list[i] in list && list[j] in list;
      assert list[i].deviceId != list[j].deviceId;
    }
  }

  // A restart is a step like any other: the new process reads back the list as it was, again with
  // distinct ids and handles, and starts from it with no task, session or phrase of the old one. What
  // was minted and enrolled before stays on record, so what is over for good stays over.
  lemma RestartIsSafe(file: Option<seq<Store.PairedDevice>>, steps: seq<Step>)
    requires GoodFile(file)
    ensures var w := World0(file, steps);
      var v := Next(w, SRestart);
      && GoodFile(w.core.files.disk) && v.core == Start(w.core.files.disk).core
      && v.core.files.devices == w.core.files.devices
      && v.claims == map[] && v.used == w.used && v.bound == w.bound && v.usedClaims == w.usedClaims
      && forall h :: Gone(w, h) ==> Gone(v, h)
  {
    ReachableInv(file, steps);
    var w := World0(file, steps);
    BoundHandlesAreDistinct(w);
    forall h | Gone(w, h)
      ensures Gone(Next(w, SRestart), h)
    {
      GoneStays(w, SRestart, h);
    }
  }
}
