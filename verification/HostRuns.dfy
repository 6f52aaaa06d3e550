/**
 Runs of the Host, from a fresh install, that reach the cases in which opening a pairing or revoking
 everything does less than its documentation says.
 */
module HostRuns {
  import opened Prelude
  import opened Host
  import opened HostProtocol
  import opened HostSafety
  import Pairing
  import Store

  lemma OneMoreStep(w: World, steps: seq<Step>, s: Step)
    ensures var v := Run(w, steps); Run(w, steps + [s]) == if Enabled(v, s) then Next(v, s) else v
  {
    assert (steps + [s])[..|steps|] == steps;
  }

  // A pairing is opened, the bridge stopped, and a pairing opened again: the bridge stays stopped.
  lemma OpeningAgainStaysStopped(first: Pairing.Credentials, second: Pairing.Credentials)
    requires first.handle != second.handle
    ensures var w := World0(None, [SOpen(0, Some(first), 0), SStop]);
      && w.core.stopped && Enabled(w, SOpen(0, Some(second), 0))
      && World0(None, [SOpen(0, Some(first), 0), SStop, SOpen(0, Some(second), 0)]).core.stopped
  {
    var a, b, c := SOpen(0, Some(first), 0), SStop, SOpen(0, Some(second), 0);
    var w := Start(None);
    OneMoreStep(w, [], a);
    OneMoreStep(w, [a], b);
    OneMoreStep(w, [a, b], c);
    assert [] + [a] == [a] && [a] + [b] == [a, b] && [a, b] + [c] == [a, b, c];
  }

  function Enrolling(c: Pairing.Credentials, host: HostId, device: DeviceId, details: Store.Details): seq<Step> {
    [SOpen(0, Some(c), 0), SPassStart(0), SClaimPass(Pass(c.handle, Pairing.PHRASE_LIFETIME), 0, host),
     SEnrol(0, device, details, 0, 0, Store.NoFault), SRegister(0)]
  }

  function PairingOpen(c: Pairing.Credentials): Core {
    Core(Store.Files([], None), Some(OpenPairing(Pairing.Live(c, 0, 0), 0, false)), None, Idle, false, map[])
  }

  // The pairing open, and the pass over it begun.
  lemma PassBegins(c: Pairing.Credentials)
    ensures var w := Next(Next(Start(None), SOpen(0, Some(c), 0)), SPassStart(0));
      && w.core == PairingOpen(c)
      && w.passes == {Pass(c.handle, Pairing.PHRASE_LIFETIME)} && w.claims == map[] && w.usedClaims == {}
  {
  }

  // From there the claim, the enrolment and the registration of one Device.
  lemma DeviceEnrols(w: World, c: Pairing.Credentials, host: HostId, device: DeviceId, details: Store.Details)
    requires w.core == PairingOpen(c)
    requires w.passes == {Pass(c.handle, Pairing.PHRASE_LIFETIME)} && w.claims == map[] && w.usedClaims == {}
    ensures var claim := SClaimPass(Pass(c.handle, Pairing.PHRASE_LIFETIME), 0, host);
      && Enabled(w, claim)
      && var enrol, u := SEnrol(0, device, details, 0, 0, Store.NoFault), Next(w, claim);
      && Enabled(u, enrol)
      && var v := Next(u, enrol);
      && Enabled(v, SRegister(0)) && Dispatches(Next(v, SRegister(0)), 0)
  {
    var u := Next(w, SClaimPass(Pass(c.handle, Pairing.PHRASE_LIFETIME), 0, host));
    assert u.claims == map[0 := Attempt(c.handle, host, None, Pairing.PHRASE_LIFETIME, false)];
    assert EnrolOutcome(u.core, c.handle, Pairing.PHRASE_LIFETIME, 0, Store.NoFault) == Enrolled;
    var v := Next(u, SEnrol(0, device, details, 0, 0, Store.NoFault));
    var entry := Store.PairedDevice(host, Some(c.handle), device, details, 0, 0);
    assert Store.Without(u.core.files.devices, device) == [];
    assert v.core.files.devices == [entry];
    assert Store.Find(v.core.files.devices, device) == Some(entry) by {
      assert entry in v.core.files.devices;
    }
  }

  // A Device enrols and its session can dispatch.
  lemma ASessionDispatches(c: Pairing.Credentials, host: HostId, device: DeviceId, details: Store.Details)
    ensures Dispatches(World0(None, Enrolling(c, host, device, details)), 0)
  {
    var s := Enrolling(c, host, device, details);
    var w := Start(None);
    OneMoreStep(w, [], s[0]);
    OneMoreStep(w, [s[0]], s[1]);
    OneMoreStep(w, [s[0], s[1]], s[2]);
    OneMoreStep(w, [s[0], s[1], s[2]], s[3]);
    OneMoreStep(w, [s[0], s[1], s[2], s[3]], s[4]);
    assert [] + [s[0]] == [s[0]] && [s[0]] + [s[1]] == [s[0], s[1]];
    assert [s[0], s[1]] + [s[2]] == [s[0], s[1], s[2]] && [s[0], s[1], s[2]] + [s[3]] == [s[0], s[1], s[2], s[3]];
    assert s == [s[0], s[1], s[2], s[3]] + [s[4]];
    PassBegins(c);
    DeviceEnrols(Next(Next(w, s[0]), s[1]), c, host, device, details);
  }

  // That Device revokes everything and the key does not rotate: the list is empty, the session goes on.
  lemma RotationFailureKeepsTheSession(c: Pairing.Credentials, host: HostId, device: DeviceId, details: Store.Details)
    ensures var w := World0(None, Enrolling(c, host, device, details));
      var s := SWireRevoke(WireRequest(None, Some(true)), Store.NoFault, false);
      && Enabled(w, s) && Dispatches(Next(w, s), 0) && Next(w, s).core.files.devices == []
  {
    ASessionDispatches(c, host, device, details);
    var everything := WireRequest(None, Some(true));
    WireRevokeAllCloses(None, Enrolling(c, host, device, details), everything, Store.NoFault, false, 0);
  }
}
