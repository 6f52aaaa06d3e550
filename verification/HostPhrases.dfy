/**
 The life of one phrase on the Host: which of all the steps of all the tasks end it, and what it counts
 meanwhile, told by the steps alone.
 */
module HostPhrases {
  import opened Prelude
  import opened Host
  import opened HostProtocol
  import opened HostSafety
  import Pairing
  import Store

  // The phrase `c`, on offer since `generatedAt`, in a pairing opened at `mintedAt`.
  datatype Offer = Offer(c: Pairing.Credentials, generatedAt: Time, mintedAt: Time, failures: nat, registered: bool)

  predicate Offers(w: World, o: Offer) {
    w.core.open == Some(OpenPairing(Pairing.Live(o.c, o.generatedAt, o.failures), o.mintedAt, o.registered))
  }

  // More than 600 s after it was generated.
  predicate Over(o: Offer, now: Time) {
    now > o.generatedAt + 600 * SECOND
  }

  // What ends a phrase: a reading of the clock past its lifetime; its own third failed handshake, handshake
  // timeout or enrolment; its enrolment deadline running out; closing the pairing, revoking everything,
  // or a restart.
  predicate Ends(w: World, o: Offer, s: Step)
    requires Enabled(w, s)
  {
    match s
    case SPassStart(now) => Over(o, now)
    case SStatus(now) => Over(o, now)
    case SOpen(now, _, _) => Over(o, now)
    case SPairingRegistered(_, now) => Over(o, now)
    case SHandshakeFailed(handle, now) => Over(o, now) || (handle == o.c.handle && o.failures >= 2)
    case SHandshakeTimedOut(handle, now) => Over(o, now) || handle == o.c.handle
    case SEnrolmentTimedOut(deadline) => deadline == o.mintedAt + 600 * SECOND
    case SEnrol(claim, _, _, now, _, fault) =>
      !w.core.stopped && now < w.claims[claim].deadline
      && (Over(o, now) || (w.claims[claim].handle == o.c.handle && fault == Store.NoFault))
    case SClose => true
    case SRestart => true
    case SRevokeAll(fault) => fault == Store.NoFault
    case SWireRevoke(r, fault, rotated) => r == WireRequest(None, Some(true)) && fault == Store.NoFault && rotated
    case _ => false
  }

  // What a phrase that goes on records of a step.
  function Recorded(o: Offer, s: Step): Offer {
    match s
    case SHandshakeFailed(handle, _) => if handle == o.c.handle then o.(failures := o.failures + 1) else o
    case SPairingRegistered(handle, _) => if handle == o.c.handle then o.(registered := true) else o
    case _ => o
  }

  predicate GoesOnIff(w: World, s: Step, o: Offer)
    requires Enabled(w, s)
  {
    if Ends(w, o, s) then OpenHandle(Next(w, s).core) != Some(o.c.handle) else Offers(Next(w, s), Recorded(o, s))
  }

  lemma PairingStep(w: World, s: Step, o: Offer)
    requires MintInv(w) && Enabled(w, s) && Offers(w, o)
    requires s.SPassStart? || s.SStatus? || s.SOpen? || s.SPairingRegistered? || s.SHandshakeFailed?
             || s.SHandshakeTimedOut? || s.SEnrolmentTimedOut? || s.SClose? || s.SRestart?
    ensures GoesOnIff(w, s, o)
  {
    assert OpenHandle(w.core) == Some(o.c.handle);
  }

  lemma EnrolmentStep(w: World, s: Step, o: Offer)
    requires Enabled(w, s) && Offers(w, o) && s.SEnrol?
    ensures GoesOnIff(w, s, o)
  {
  }

  lemma RevocationStep(w: World, s: Step, o: Offer)
    requires Enabled(w, s) && Offers(w, o) && (s.SRevokeOne? || s.SRevokeAll? || s.SWireRevoke? || s.STouch?)
    ensures GoesOnIff(w, s, o)
  {
  }

  lemma GuardStep(w: World, s: Step, o: Offer)
    requires Enabled(w, s) && Offers(w, o)
    requires s.SLoopStart? || s.SIdle? || s.SOffline? || s.SClaimLoop? || s.SClaimPass? || s.SRegister? || s.SDrop?
             || s.SStop?
    ensures GoesOnIff(w, s, o)
  {
  }

  // A step ends the phrase on offer exactly when it is one of those; otherwise the phrase stays on offer,
  // with a failure more if its own handshake failed, and marked if its own handle registered.
  lemma PhraseGoesOnIff(w: World, s: Step, o: Offer)
    requires Inv(w) && Enabled(w, s) && Offers(w, o)
    ensures Ends(w, o, s) ==> OpenHandle(Next(w, s).core) != Some(o.c.handle)
    ensures !Ends(w, o, s) ==> Offers(Next(w, s), Recorded(o, s))
  {
    if s.SEnrol? {
      EnrolmentStep(w, s, o);
    } else if s.SRevokeOne? || s.SRevokeAll? || s.SWireRevoke? || s.STouch? {
      RevocationStep(w, s, o);
    } else if s.SLoopStart? || s.SIdle? || s.SOffline? || s.SClaimLoop? || s.SClaimPass? || s.SRegister? || s.SDrop?
      || s.SStop? {
      GuardStep(w, s, o);
    } else {
      PairingStep(w, s, o);
    }
  }

  // A mint puts its own phrase on offer, with nothing counted, exactly when none is on offer any more.
  lemma OpeningOffers(w: World, now: Time, minted: Option<Pairing.Credentials>, at: Time)
    requires Inv(w) && Enabled(w, SOpen(now, minted, at))
    requires forall o :: Offers(w, o) ==> Over(o, now)
    ensures var v := Next(w, SOpen(now, minted, at));
      if minted.Some? then Offers(v, Offer(minted.value, now, at, 0, false)) else v.core.open == None
  {
    if OpenHandle(w.core).Some? {
      var p := w.core.open.value;
      assert Offers(w, Offer(p.session.credentials, p.session.generatedAt, p.mintedAt, p.session.failedAttempts,
                             p.registered));
    }
  }

  // A successful enrolment takes the phrase away, or finds it over by the end of the save; and it writes
  // its device into the guard only where the guard names its own handle.
  lemma EnrolmentEndsItsPhrase(w: World, s: Step, o: Offer)
    requires Inv(w) && Enabled(w, s) && s.SEnrol? && Offers(w, o)
    requires !w.core.stopped && s.now < w.claims[s.claim].deadline && !Over(o, s.now)
    requires w.claims[s.claim].handle == o.c.handle && s.fault == Store.NoFault
    ensures var c := Next(w, s).core;
      c.open == if Over(o, s.later) then Some(OpenPairing(Pairing.Expired, o.mintedAt, o.registered)) else None
    ensures w.core.active == Some(ActiveSession(None, o.c.handle))
    ensures Next(w, s).core.active == Some(ActiveSession(Some(s.device), o.c.handle))
  {
    EnrolHoldsGuard(w, s.claim, s.now, s.fault);
  }

  // A pass and a status report leave a pairing open exactly while its phrase is on offer and not over.
  lemma DeadPairingIsDropped(w: World, now: Time, s: Step)
    requires s == SPassStart(now) || s == SStatus(now)
    ensures Next(w, s).core.open.Some? <==> exists o :: Offers(w, o) && !Over(o, now)
    ensures Next(w, s).core.open.Some? ==> Next(w, s).core.open == w.core.open
  {
    var open := w.core.open;
    if open.Some? && open.value.session.Live? {
      var p := open.value;
      assert Offers(w, Offer(p.session.credentials, p.session.generatedAt, p.mintedAt, p.session.failedAttempts,
                             p.registered));
    }
  }

  // ---- whole runs ----

  // The failed handshakes of one handle.
  function FailedFor(steps: seq<Step>, handle: Handle): nat {
    if steps == [] then 0
    else
      var s := steps[|steps| - 1];
      FailedFor(steps[..|steps| - 1], handle) + (if s.SHandshakeFailed? && s.handle == handle then 1 else 0)
  }

  // However the tasks interleave after a phrase went on offer: while its handle is still open, the phrase
  // is the one that was minted and has counted exactly the failed handshakes of that handle since.
  lemma {:induction false} FailuresAreCounted(w: World, o: Offer, steps: seq<Step>)
    requires Sound(w) && Offers(w, o)
    ensures Sound(Run(w, steps)) && o.c.handle in Run(w, steps).used
    ensures var v := Run(w, steps);
      OpenHandle(v.core) == Some(o.c.handle) ==>
        Offers(v, o.(failures := o.failures + FailedFor(steps, o.c.handle), registered := v.core.open.value.registered))
  {
    if steps == [] {
      assert OpenHandle(w.core) == Some(o.c.handle);
    } else {
      var front, s := steps[..|steps| - 1], steps[|steps| - 1];
      FailuresAreCounted(w, o, front);
      var v := Run(w, front);
      if Enabled(v, s) {
        StepKeepsInv(v, s);
        HandleIsNotReopened(v, s, o.c.handle);
        if OpenHandle(v.core) == Some(o.c.handle) {
          var failures := o.failures + FailedFor(front, o.c.handle);
          var now := o.(failures := failures, registered := v.core.open.value.registered);
          PhraseGoesOnIff(v, s, now);
        }
      }
    }
  }

  // A used handle stays used, and is not opened again once it is not open.
  lemma HandleIsNotReopened(w: World, s: Step, h: Handle)
    requires Enabled(w, s) && h in w.used
    ensures h in Next(w, s).used
    ensures OpenHandle(Next(w, s).core) == Some(h) ==> OpenHandle(w.core) == Some(h)
  {
    if s.SEnrol? {
      EnrolmentOpensNothing(w, s);
    }
  }

  lemma EnrolmentOpensNothing(w: World, s: Step)
    requires Enabled(w, s) && s.SEnrol?
    ensures OpenHandle(Next(w, s).core).Some? ==> OpenHandle(Next(w, s).core) == OpenHandle(w.core)
  {
  }

  lemma {:induction false} FailedForMore(steps: seq<Step>, later: seq<Step>, handle: Handle)
    ensures FailedFor(steps + later, handle) == FailedFor(steps, handle) + FailedFor(later, handle)
  {
    if later == [] {
      assert steps + later == steps;
    } else {
      var last := |later| - 1;
      FailedForMore(steps, later[..last], handle);
      assert (steps + later)[..|steps + later| - 1] == steps + later[..last];
    }
  }

  // So the third failed handshake of a phrase ends it for good, whatever else runs, from whatever list the
  // Host started; failures for other handles are no part of the count.
  lemma ThirdFailureEnds(file: Option<seq<Store.PairedDevice>>, before: seq<Step>, now: Time, c: Pairing.Credentials,
                         at: Time, after: seq<Step>, later: seq<Step>)
    requires GoodFile(file) && Enabled(World0(file, before), SOpen(now, Some(c), at))
    requires forall o :: Offers(World0(file, before), o) ==> Over(o, now)
    ensures var end := Run(Next(World0(file, before), SOpen(now, Some(c), at)), after);
      OpenHandle(end.core) == Some(c.handle) ==>
        end.core.open.value.session == Pairing.Live(c, now, FailedFor(after, c.handle))
    ensures FailedFor(after, c.handle) >= 3 ==>
      OpenHandle(Run(Next(World0(file, before), SOpen(now, Some(c), at)), after + later).core) != Some(c.handle)
  {
    ReachableInv(file, before);
    var w := World0(file, before);
    var v := Next(w, SOpen(now, Some(c), at));
    OpeningOffers(w, now, Some(c), at);
    StepKeepsInv(w, SOpen(now, Some(c), at));
    FailuresAreCounted(v, Offer(c, now, at, 0, false), after);
    FailuresAreCounted(v, Offer(c, now, at, 0, false), after + later);
    FailedForMore(after, later, c.handle);
  }

  // ---- what is always possible ----

  // Taken one after the other, the steps are all enabled.
  predicate Feasible(w: World, steps: seq<Step>)
    decreases |steps|
  {
    steps == [] || (Enabled(w, steps[0]) && Feasible(Next(w, steps[0]), steps[1..]))
  }

  function Taken(w: World, steps: seq<Step>): World
    requires Feasible(w, steps)
    decreases |steps|
  {
    if steps == [] then w else Taken(Next(w, steps[0]), steps[1..])
  }

  lemma ThenMore(w: World, s: Step, rest: seq<Step>)
    requires Enabled(w, s) && Feasible(Next(w, s), rest)
    ensures Feasible(w, [s] + rest) && Taken(w, [s] + rest) == Taken(Next(w, s), rest)
  {
    assert ([s] + rest)[1..] == rest;
  }

  lemma InTurn(w: World, a: Step, b: Step, c: Step, d: Step)
    requires Enabled(w, a) && Enabled(Next(w, a), b) && Enabled(Next(Next(w, a), b), c)
    requires Enabled(Next(Next(Next(w, a), b), c), d)
    ensures Feasible(w, [a, b, c, d]) && Taken(w, [a, b, c, d]) == Next(Next(Next(Next(w, a), b), c), d)
  {
    var w1 := Next(w, a);
    var w2 := Next(w1, b);
    var w3 := Next(w2, c);
    Fronts(a, b, c, d);
    ThenMore(w3, d, []);
    ThenMore(w2, c, [d]);
    ThenMore(w1, b, [c, d]);
    ThenMore(w, a, [b, c, d]);
  }

  lemma Fronts<T>(a: T, b: T, c: T, d: T)
    ensures [a] + [b, c, d] == [a, b, c, d] && [b] + [c, d] == [b, c, d] && [c] + [d] == [c, d] && [d] + [] == [d]
  {
  }

  // While the bridge runs with no session, a device on the list with a handle can come back: its loop reads
  // the entry, claims the guard and registers, and its session dispatches.
  lemma ListedDeviceCanReturn(w: World, d: Store.PairedDevice, claim: ClaimId)
    requires Sound(w) && d in w.core.files.devices && d.handle.Some?
    requires !w.core.stopped && w.core.active == None && claim !in w.usedClaims
    ensures var steps := [SLoopStart(d.deviceId), SClaimLoop(Loop(d.deviceId, d.hostId, d.handle.value), claim),
                          SRegister(claim)];
      Feasible(w, steps) && Dispatches(Taken(w, steps), claim)
  {
    var loop := Loop(d.deviceId, d.hostId, d.handle.value);
    OnlyEntry(w.core.files.devices, d);
    var v := Next(w, SLoopStart(d.deviceId));
    var u := Next(v, SClaimLoop(loop, claim));
    assert u.claims[claim] == Attempt(loop.handle, loop.hostId, Some(loop.device), 0, false);
    ThenMore(u, SRegister(claim), []);
    assert [SRegister(claim)] + [] == [SRegister(claim)];
    ThenMore(v, SClaimLoop(loop, claim), [SRegister(claim)]);
    ThenMore(w, SLoopStart(d.deviceId), [SClaimLoop(loop, claim)] + [SRegister(claim)]);
    assert [SLoopStart(d.deviceId)] + ([SClaimLoop(loop, claim)] + [SRegister(claim)])
        == [SLoopStart(d.deviceId), SClaimLoop(loop, claim), SRegister(claim)];
  }

  lemma OnlyEntry(list: seq<Store.PairedDevice>, d: Store.PairedDevice)
    requires Store.DistinctIds(list) && d in list
    ensures Store.Find(list, d.deviceId) == Some(d)
  {
    var i :| 0 <= i < |list| && list[i] == d;
    var found := Store.Find(list, d.deviceId).value;
    var j :| 0 <= j < |list| && list[j] == found;
  }

  lemma Claims(w: World, o: Offer, now: Time, claim: ClaimId, hostId: HostId)
    requires Sound(w) && Offers(w, o) && !Over(o, now)
    requires !w.core.stopped && w.core.active == None && claim !in w.usedClaims
    ensures var pass := Pass(o.c.handle, o.mintedAt + 600 * SECOND);
      var v := Next(w, SPassStart(now));
      && Enabled(v, SClaimPass(pass, claim, hostId))
      && var u := Next(v, SClaimPass(pass, claim, hostId));
      && Sound(u) && Offers(u, o) && !u.core.stopped
      && claim in u.claims && u.claims[claim] == Attempt(o.c.handle, hostId, None, pass.deadline, false)
  {
    var pass := Pass(o.c.handle, o.mintedAt + 600 * SECOND);
    StepKeepsInv(w, SPassStart(now));
    var v := Next(w, SPassStart(now));
    assert pass in v.passes;
    StepKeepsInv(v, SClaimPass(pass, claim, hostId));
  }

  lemma EnrolsAndRegisters(u: World, o: Offer, now: Time, later: Time, claim: ClaimId, device: DeviceId,
                           details: Store.Details)
    requires Sound(u) && Offers(u, o) && !Over(o, now) && !u.core.stopped
    requires claim in u.claims && u.claims[claim].handle == o.c.handle && u.claims[claim].device == None
    requires now < u.claims[claim].deadline && !u.claims[claim].registered
    ensures var enrol := SEnrol(claim, device, details, now, later, Store.NoFault);
      && Enabled(u, enrol) && Enabled(Next(u, enrol), SRegister(claim))
      && Dispatches(Next(Next(u, enrol), SRegister(claim)), claim)
  {
    var a, enrol := u.claims[claim], SEnrol(claim, device, details, now, later, Store.NoFault);
    var v := Next(u, enrol);
    EnrolledCore(u, enrol);
    EnrolledStore(u, enrol, v);
    var e := Store.PairedDevice(a.hostId, Some(a.handle), device, details, now, now);
    assert e in v.core.files.devices by {
      AddedList(u.core.files, e);
    }
    OnlyEntry(v.core.files.devices, e);
  }

  // While the bridge runs with no session, the phrase on offer can be used until its time is over: a pass
  // claims the guard, the device enrols and registers, and its session dispatches.
  lemma PhraseCanBeUsed(w: World, o: Offer, now: Time, later: Time, claim: ClaimId, hostId: HostId, device: DeviceId,
                        details: Store.Details)
    requires Sound(w) && Offers(w, o) && !Over(o, now) && now < o.mintedAt + 600 * SECOND
    requires !w.core.stopped && w.core.active == None && claim !in w.usedClaims
    ensures var steps := [SPassStart(now), SClaimPass(Pass(o.c.handle, o.mintedAt + 600 * SECOND), claim, hostId),
                          SEnrol(claim, device, details, now, later, Store.NoFault), SRegister(claim)];
      Feasible(w, steps) && Dispatches(Taken(w, steps), claim)
  {
    var pass := SClaimPass(Pass(o.c.handle, o.mintedAt + 600 * SECOND), claim, hostId);
    var enrol := SEnrol(claim, device, details, now, later, Store.NoFault);
    var v := Next(w, SPassStart(now));
    Claims(w, o, now, claim, hostId);
    var u := Next(v, pass);
    EnrolsAndRegisters(u, o, now, later, claim, device, details);
    InTurn(w, SPassStart(now), pass, enrol, SRegister(claim));
  }
}
