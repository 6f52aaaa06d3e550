/**
 The paired-device list and its file. Every operation stages the new list, renames it over the
 saved one, and commits memory only after that rename.
 */
module Store {
  import opened Prelude

  datatype Details = Details(name: string, platform: Platform, osVersion: string, publicKey: seq<nat>)

  // `handle` is None for a stored text that is not a routing handle (an entry of an older release).
  datatype PairedDevice = PairedDevice(
    hostId: HostId, handle: Option<Handle>, deviceId: DeviceId,
    details: Details, pairedAt: Time, lastSeen: Time)

  // What can go wrong while saving: staging the new text, or renaming it into place.
  datatype Fault = NoFault | StageFails | RenameFails

  // `disk` is None when no file exists.
  datatype Files = Files(devices: seq<PairedDevice>, disk: Option<seq<PairedDevice>>)

  // What loading the file yields: a missing file is an empty list.
  function Reload(disk: Option<seq<PairedDevice>>): seq<PairedDevice> {
    match disk
    case None => []
    case Some(list) => list
  }

  predicate InSync(s: Files) {
    s.devices == Reload(s.disk)
  }

  // The position of the first entry of `id`, or the length of the list.
  function IndexOf(list: seq<PairedDevice>, id: DeviceId): (i: nat)
    ensures i <= |list|
    ensures i < |list| ==> list[i].deviceId == id
    ensures forall j :: 0 <= j < i ==> list[j].deviceId != id
  {
    if list == [] then 0
    else if list[0].deviceId == id then 0
    else 1 + IndexOf(list[1..], id)
  }

  function Find(list: seq<PairedDevice>, id: DeviceId): (r: Option<PairedDevice>)
    ensures r.Some? ==> r.value in list && r.value.deviceId == id
    ensures r.None? <==> forall d :: d in list ==> d.deviceId != id
  {
    var i := IndexOf(list, id);
    if i < |list| then Some(list[i]) else None
  }

  function Without(list: seq<PairedDevice>, id: DeviceId): (r: seq<PairedDevice>)
    ensures forall d :: d in r <==> d in list && d.deviceId != id
  {
    if list == [] then []
    else if list[0].deviceId == id then Without(list[1..], id)
    else [list[0]] + Without(list[1..], id)
  }

  predicate DistinctIds(list: seq<PairedDevice>) {
    forall i, j :: 0 <= i < j < |list| ==> list[i].deviceId != list[j].deviceId
  }

  // ---- the operations, as functions of the two copies ----

  function Saved(s: Files, list: seq<PairedDevice>, fault: Fault): Files {
    if fault == NoFault then Files(list, Some(list)) else s
  }

  function Added(s: Files, e: PairedDevice, fault: Fault): Files {
    Saved(s, Without(s.devices, e.deviceId) + [e], fault)
  }

  function Revoked(s: Files, id: DeviceId, fault: Fault): Files {
    var i := IndexOf(s.devices, id);
    if i == |s.devices| then s else Saved(s, s.devices[..i] + s.devices[i + 1..], fault)
  }

  function Cleared(s: Files, fault: Fault): Files {
    Saved(s, [], fault)
  }

  function Touched(s: Files, id: DeviceId, now: Time, fault: Fault): Files {
    var i := IndexOf(s.devices, id);
    if i == |s.devices| then s
    else Saved(s, s.devices[i := s.devices[i].(lastSeen := now)], fault)
  }

  datatype RevokeOutcome = Removed(entry: PairedDevice) | NotListed | RevokeFailed

  // ---- the store object ----

  class DeviceStore {
    var devices: seq<PairedDevice>
    var disk: Option<seq<PairedDevice>>
    var staged: Option<seq<PairedDevice>>

    ghost function State(): Files
      reads this
    {
      Files(devices, disk)
    }

    constructor Load(file: Option<seq<PairedDevice>>)
      ensures State() == Files(Reload(file), file) && staged == None
    {
      devices := Reload(file);
      disk := file;
      staged := None;
    }

    // The staged file never survives the call, whatever fails.
    method Save(list: seq<PairedDevice>, fault: Fault) returns (ok: bool)
      modifies this`disk, this`staged
      ensures ok == (fault == NoFault)
      ensures disk == if ok then Some(list) else old(disk)
      ensures staged == None
    {
      if fault != StageFails {
        staged := Some(list);
      }
      ok := fault == NoFault;
      if ok {
        disk := staged;
      }
      staged := None;
    }

    method Add(hostId: HostId, handle: Handle, id: DeviceId, details: Details, now: Time, fault: Fault)
      returns (ok: bool)
      modifies this
      ensures ok == (fault == NoFault)
      ensures State() == Added(old(State()), PairedDevice(hostId, Some(handle), id, details, now, now), fault)
    {
      var entry := PairedDevice(hostId, Some(handle), id, details, now, now);
      ok := Save(Without(devices, id) + [entry], fault);
      if ok {
        devices := Without(devices, id);
        devices := devices + [entry];
      }
    }

    method Revoke(id: DeviceId, fault: Fault) returns (r: RevokeOutcome)
      modifies this
      ensures State() == Revoked(old(State()), id, fault)
      ensures r == if Find(old(devices), id).None? then NotListed
                   else if fault == NoFault then Removed(Find(old(devices), id).value) else RevokeFailed
    {
      var index := IndexOf(devices, id);
      if index == |devices| {
        return NotListed;
      }
      var ok := Save(devices[..index] + devices[index + 1..], fault);
      if !ok {
        return RevokeFailed;
      }
      r := Removed(devices[index]);
      devices := devices[..index] + devices[index + 1..];
    }

    method ClearAll(fault: Fault) returns (cleared: Option<seq<PairedDevice>>)
      modifies this
      ensures State() == Cleared(old(State()), fault)
      ensures cleared == if fault == NoFault then Some(old(devices)) else None
    {
      var ok := Save([], fault);
      if !ok {
        return None;
      }
      cleared := Some(devices);
      devices := [];
    }

    // None is a failed save; Some(false) an id that is not listed.
    method TouchLastSeen(id: DeviceId, now: Time, fault: Fault) returns (r: Option<bool>)
      modifies this
      ensures State() == Touched(old(State()), id, now, fault)
      ensures r == if Find(old(devices), id).None? then Some(false)
                   else if fault == NoFault then Some(true) else None
    {
      var index := IndexOf(devices, id);
      if index == |devices| {
        return Some(false);
      }
      var updated := devices[index].(lastSeen := now);
      var ok := Save(devices[index := updated], fault);
      if !ok {
        return None;
      }
      devices := devices[index := devices[index].(lastSeen := updated.lastSeen)];
      r := Some(true);
    }
  }

  // ---- whole runs ----

  datatype Op =
    | AddOp(entry: PairedDevice)
    | RevokeOp(id: DeviceId)
    | ClearOp
    | TouchOp(id: DeviceId, now: Time)

  datatype Call = Call(op: Op, fault: Fault)

  function Apply(s: Files, c: Call): Files {
    match c.op
    case AddOp(e) => Added(s, e, c.fault)
    case RevokeOp(id) => Revoked(s, id, c.fault)
    case ClearOp => Cleared(s, c.fault)
    case TouchOp(id, now) => Touched(s, id, now, c.fault)
  }

  function Run(s: Files, calls: seq<Call>): Files {
    if calls == [] then s else Apply(Run(s, calls[..|calls| - 1]), calls[|calls| - 1])
  }

  lemma {:induction false} WithoutKeepsDistinct(list: seq<PairedDevice>, id: DeviceId)
    requires DistinctIds(list)
    ensures DistinctIds(Without(list, id))
  {
    if list != [] {
      WithoutKeepsDistinct(list[1..], id);
      var rest := Without(list[1..], id);
      forall k | 0 <= k < |rest| ensures rest[k].deviceId != list[0].deviceId {
        assert rest[k] in rest;
        var m :| 0 <= m < |list[1..]| && list[1..][m] == rest[k];
        assert list[m + 1] == rest[k];
      }
    }
  }

  lemma StepKeepsSync(s: Files, c: Call)
    ensures InSync(s) ==> InSync(Apply(s, c))
    ensures DistinctIds(s.devices) ==> DistinctIds(Apply(s, c).devices)
  {
    if c.op.AddOp? && DistinctIds(s.devices) {
      WithoutKeepsDistinct(s.devices, c.op.entry.deviceId);
      var rest := Without(s.devices, c.op.entry.deviceId);
      forall k | 0 <= k < |rest| ensures rest[k].deviceId != c.op.entry.deviceId {
        assert rest[k] in rest;
      }
    }
  }

  // Memory always equals what reloading the file would give, and ids loaded
  // distinct stay distinct, whatever saves fail.
  lemma {:induction false} RunStaysInSync(file: Option<seq<PairedDevice>>, calls: seq<Call>)
    ensures var end := Run(Files(Reload(file), file), calls);
            InSync(end) && (DistinctIds(Reload(file)) ==> DistinctIds(end.devices))
  {
    if calls != [] {
      RunStaysInSync(file, calls[..|calls| - 1]);
      StepKeepsSync(Run(Files(Reload(file), file), calls[..|calls| - 1]), calls[|calls| - 1]);
    }
  }

  // A call whose save fails leaves both copies as they were.
  lemma FailureChangesNothing(s: Files, c: Call)
    requires c.fault != NoFault
    ensures Apply(s, c) == s
  {
  }

  // ---- an independent account of the list: what the history of successful calls says ----

  // Call `c` took effect and ends the life of an entry of `id`.
  predicate Ends(c: Call, id: DeviceId) {
    c.fault == NoFault &&
    match c.op
    case AddOp(e) => e.deviceId == id
    case RevokeOp(other) => other == id
    case ClearOp => true
    case TouchOp(_, _) => false
  }

  // No call from `from` on ends an entry of `id`.
  predicate Lasts(calls: seq<Call>, from: nat, id: DeviceId) {
    forall j :: from <= j < |calls| ==> !Ends(calls[j], id)
  }

  // Call `i` enrolled a device that no later call replaced, revoked or cleared.
  predicate Survives(calls: seq<Call>, i: nat)
    requires i < |calls|
  {
    calls[i].op.AddOp? && calls[i].fault == NoFault && Lasts(calls, i + 1, calls[i].op.entry.deviceId)
  }

  // The time of the last successful touch of `id` by call `from` or later, else `otherwise`.
  function LastTouch(calls: seq<Call>, from: nat, id: DeviceId, otherwise: Time): Time
    decreases |calls|
  {
    var last := |calls| - 1;
    if |calls| <= from then otherwise
    else if calls[last].fault == NoFault && calls[last].op.TouchOp? && calls[last].op.id == id
    then calls[last].op.now
    else LastTouch(calls[..last], from, id, otherwise)
  }

  // The surviving enrolments among the first `n` calls, in the order they were made.
  function Enrolled(calls: seq<Call>, n: nat): seq<PairedDevice>
    requires n <= |calls|
  {
    if n == 0 then []
    else
      var before := Enrolled(calls, n - 1);
      if Survives(calls, n - 1) then
        var e := calls[n - 1].op.entry;
        before + [e.(lastSeen := LastTouch(calls, n, e.deviceId, e.lastSeen))]
      else before
  }

  // The loaded entries that no call ended, in file order.
  function Kept(list: seq<PairedDevice>, calls: seq<Call>): seq<PairedDevice> {
    if list == [] then []
    else
      var d := list[|list| - 1];
      Kept(list[..|list| - 1], calls)
      + (if Lasts(calls, 0, d.deviceId) then [d.(lastSeen := LastTouch(calls, 0, d.deviceId, d.lastSeen))] else [])
  }

  lemma WithoutAppend(a: seq<PairedDevice>, b: seq<PairedDevice>, id: DeviceId)
    ensures Without(a + b, id) == Without(a, id) + Without(b, id)
  {
    if a == [] {
      assert a + b == b;
    } else {
      assert (a + b)[1..] == a[1..] + b;
      WithoutAppend(a[1..], b, id);
    }
  }

  lemma {:induction false} WithoutAbsent(list: seq<PairedDevice>, id: DeviceId)
    requires forall d :: d in list ==> d.deviceId != id
    ensures Without(list, id) == list
  {
    if list != [] {
      assert list[0] in list;
      WithoutAbsent(list[1..], id);
    }
  }

  // With distinct ids, removing the first entry of `id` is removing every entry of `id`.
  lemma RemoveAtIsWithout(list: seq<PairedDevice>, id: DeviceId)
    requires DistinctIds(list)
    ensures var i := IndexOf(list, id);
            Without(list, id) == if i == |list| then list else list[..i] + list[i + 1..]
  {
    var i := IndexOf(list, id);
    if i == |list| {
      WithoutAbsent(list, id);
    } else {
      assert list == list[..i] + ([list[i]] + list[i + 1..]);
      WithoutAppend(list[..i], [list[i]] + list[i + 1..], id);
      WithoutAppend([list[i]], list[i + 1..], id);
      WithoutAbsent(list[..i], id);
      WithoutAbsent(list[i + 1..], id);
    }
  }

  // Setting the time of every entry of `id`.
  function TouchedAll(list: seq<PairedDevice>, id: DeviceId, now: Time): (r: seq<PairedDevice>)
    ensures |r| == |list|
    ensures forall k :: 0 <= k < |list| ==>
              r[k] == if list[k].deviceId == id then list[k].(lastSeen := now) else list[k]
  {
    if list == [] then []
    else [if list[0].deviceId == id then list[0].(lastSeen := now) else list[0]] + TouchedAll(list[1..], id, now)
  }

  // What call `c` does to a list, told by what it ends and what it touches.
  function Effect(list: seq<PairedDevice>, c: Call): seq<PairedDevice> {
    if c.fault != NoFault then list
    else match c.op
      case AddOp(e) => Without(list, e.deviceId)
      case RevokeOp(id) => Without(list, id)
      case ClearOp => []
      case TouchOp(id, now) => TouchedAll(list, id, now)
  }

  lemma EffectAppend(a: seq<PairedDevice>, b: seq<PairedDevice>, c: Call)
    ensures Effect(a + b, c) == Effect(a, c) + Effect(b, c)
  {
    match c.op
    case AddOp(e) => WithoutAppend(a, b, e.deviceId);
    case RevokeOp(id) => WithoutAppend(a, b, id);
    case ClearOp =>
    case TouchOp(id, now) => assert TouchedAll(a + b, id, now) == TouchedAll(a, id, now) + TouchedAll(b, id, now);
  }

  lemma EffectOnOne(b: PairedDevice, c: Call)
    ensures Effect([b], c) ==
            if Ends(c, b.deviceId) then []
            else if c.fault == NoFault && c.op.TouchOp? && c.op.id == b.deviceId then [b.(lastSeen := c.op.now)]
            else [b]
  {
    assert Without([b][1..], b.deviceId) == [];
    match c.op
    case AddOp(e) => assert Without([b], e.deviceId) == if b.deviceId == e.deviceId then [] else [b];
    case RevokeOp(id) => assert Without([b], id) == if b.deviceId == id then [] else [b];
    case ClearOp =>
    case TouchOp(id, now) =>
      assert TouchedAll([b], id, now) == [if b.deviceId == id then b.(lastSeen := now) else b];
  }

  // One more call on the life of an entry of `id`.
  lemma OneMoreCall(calls: seq<Call>, c: Call, from: nat, id: DeviceId, otherwise: Time)
    requires from <= |calls|
    ensures Lasts(calls + [c], from, id) <==> Lasts(calls, from, id) && !Ends(c, id)
    ensures LastTouch(calls + [c], from, id, otherwise)
         == if c.fault == NoFault && c.op.TouchOp? && c.op.id == id then c.op.now
            else LastTouch(calls, from, id, otherwise)
  {
    var more := calls + [c];
    assert more[..|calls|] == calls && more[|calls|] == c;
    assert forall j :: 0 <= j < |calls| ==> more[j] == calls[j];
  }

  lemma {:induction false} EnrolledExtends(calls: seq<Call>, c: Call, n: nat)
    requires n <= |calls|
    ensures Enrolled(calls + [c], n) == Effect(Enrolled(calls, n), c)
  {
    if n > 0 {
      EnrolledExtends(calls, c, n - 1);
      if calls[n - 1].op.AddOp? {
        var e := calls[n - 1].op.entry;
        OneMoreCall(calls, c, n, e.deviceId, e.lastSeen);
        if Survives(calls, n - 1) {
          var b := e.(lastSeen := LastTouch(calls, n, e.deviceId, e.lastSeen));
          EffectAppend(Enrolled(calls, n - 1), [b], c);
          EffectOnOne(b, c);
        }
      }
    }
  }

  lemma {:induction false} KeptExtends(list: seq<PairedDevice>, calls: seq<Call>, c: Call)
    ensures Kept(list, calls + [c]) == Effect(Kept(list, calls), c)
  {
    if list != [] {
      var front, d := list[..|list| - 1], list[|list| - 1];
      KeptExtends(front, calls, c);
      OneMoreCall(calls, c, 0, d.deviceId, d.lastSeen);
      if Lasts(calls, 0, d.deviceId) {
        var b := d.(lastSeen := LastTouch(calls, 0, d.deviceId, d.lastSeen));
        EffectAppend(Kept(front, calls), [b], c);
        EffectOnOne(b, c);
      } else {
        assert Kept(list, calls) == Kept(front, calls);
      }
    }
  }

  lemma {:induction false} KeptAtFirst(list: seq<PairedDevice>)
    ensures Kept(list, []) == list
  {
    if list != [] {
      KeptAtFirst(list[..|list| - 1]);
      assert list == list[..|list| - 1] + [list[|list| - 1]];
    }
  }

  lemma StepIsEffect(s: Files, c: Call)
    requires DistinctIds(s.devices)
    ensures Apply(s, c).devices ==
            Effect(s.devices, c) + (if c.fault == NoFault && c.op.AddOp? then [c.op.entry] else [])
  {
    match c.op
    case AddOp(_) =>
    case RevokeOp(id) => RemoveAtIsWithout(s.devices, id);
    case ClearOp =>
    case TouchOp(id, now) =>
      var i := IndexOf(s.devices, id);
      if i < |s.devices| {
        assert s.devices[i := s.devices[i].(lastSeen := now)] == TouchedAll(s.devices, id, now);
      } else {
        assert s.devices == TouchedAll(s.devices, id, now);
      }
  }

  // From any saved list with distinct ids, the list is exactly the loaded entries that no later call
  // ended, in file order, then the surviving enrolments in enrolment order, each with the time of its
  // last successful touch.
  lemma {:induction false} RunIsEnrolmentOrder(file: Option<seq<PairedDevice>>, calls: seq<Call>)
    requires DistinctIds(Reload(file))
    ensures Run(Files(Reload(file), file), calls).devices == Kept(Reload(file), calls) + Enrolled(calls, |calls|)
  {
    var list := Reload(file);
    if calls == [] {
      KeptAtFirst(list);
    } else {
      var last := |calls| - 1;
      var before, c := calls[..last], calls[last];
      assert before + [c] == calls;
      RunIsEnrolmentOrder(file, before);
      RunStaysInSync(file, before);
      StepIsEffect(Run(Files(list, file), before), c);
      EffectAppend(Kept(list, before), Enrolled(before, last), c);
      KeptExtends(list, before, c);
      EnrolledExtends(before, c, last);
      assert Survives(calls, last) <==> c.op.AddOp? && c.fault == NoFault;
    }
  }
}
