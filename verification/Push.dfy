/**
 The relay's push registrations: at most 4096, the oldest registration making room, wakes of one
 handle collapsed to one per 30 s, and late delivery failures that must not undo a newer registration.
 */
module Push {
  import opened Prelude

  const CAPACITY: nat := 4096
  const COLLAPSE: nat := 30 * SECOND

  datatype Entry = Entry(platform: Platform, token: string, generation: nat, lastSent: Option<Time>)

  type Entries = map<Handle, Entry>

  datatype Table = Table(entries: Entries, generation: nat)

  // ---- the operations ----

  predicate IsOldest(entries: Entries, h: Handle) {
    h in entries && forall k :: k in entries ==> entries[h].generation <= entries[k].generation
  }

  lemma {:induction false} SomeKeyIsOldest(entries: Entries, keys: set<Handle>) returns (h: Handle)
    requires keys != {} && keys <= entries.Keys
    ensures h in keys && forall k :: k in keys ==> entries[h].generation <= entries[k].generation
  {
    var some :| some in keys;
    h := some;
    if keys != {some} {
      var rest := SomeKeyIsOldest(entries, keys - {some});
      h := if entries[rest].generation < entries[some].generation then rest else some;
    }
  }

  ghost function Oldest(entries: Entries): (h: Handle)
    requires entries != map[]
    ensures IsOldest(entries, h)
  {
    assert exists o :: IsOldest(entries, o) by {
      var h := SomeKeyIsOldest(entries, entries.Keys);
      assert IsOldest(entries, h);
    }
    var h :| IsOldest(entries, h);
    h
  }

  predicate MustEvict(entries: Entries, h: Handle) {
    |entries| == CAPACITY && h !in entries
  }

  ghost function MakeRoom(entries: Entries, h: Handle): Entries {
    if MustEvict(entries, h) then entries - {Oldest(entries)} else entries
  }

  function LastSent(entries: Entries, h: Handle): Option<Time> {
    if h in entries then entries[h].lastSent else None
  }

  ghost function Registered(s: Table, h: Handle, platform: Platform, token: string): Table {
    var entry := Entry(platform, token, s.generation + 1, LastSent(s.entries, h));
    Table(MakeRoom(s.entries, h)[h := entry], s.generation + 1)
  }

  // Whether a wake is delivered rather than dropped or collapsed.
  predicate Delivers(s: Table, h: Handle, now: Time) {
    h in s.entries
    && (s.entries[h].lastSent.Some? ==> Since(now, s.entries[h].lastSent.value) >= COLLAPSE)
  }

  function Woken(s: Table, h: Handle, now: Time): Table {
    if Delivers(s, h, now) then s.(entries := s.entries[h := s.entries[h].(lastSent := Some(now))]) else s
  }

  function Unregistered(s: Table, h: Handle): Table {
    s.(entries := s.entries - {h})
  }

  function Retired(s: Table, h: Handle, generation: nat): Table {
    if h in s.entries && s.entries[h].generation == generation then Unregistered(s, h) else s
  }

  predicate UpTo(entries: Entries, generation: nat) {
    forall h :: h in entries ==> entries[h].generation <= generation
  }

  predicate DistinctGenerations(entries: Entries) {
    forall h, k :: h in entries && k in entries && h != k ==> entries[h].generation != entries[k].generation
  }

  predicate Valid(s: Table) {
    |s.entries| <= CAPACITY && UpTo(s.entries, s.generation) && DistinctGenerations(s.entries)
  }

  // ---- the store object ----

  class PushStore {
    var entries: Entries
    var generation: nat

    function State(): Table
      reads this
    {
      Table(entries, generation)
    }

    constructor ()
      ensures State() == Table(map[], 0)
    {
      entries := map[];
      generation := 0;
    }

    method MinByGeneration() returns (oldest: Option<Handle>)
      ensures if entries == map[] then oldest == None else oldest.Some? && IsOldest(entries, oldest.value)
    {
      oldest := None;
      var left := entries.Keys;
      while left != {}
        invariant left <= entries.Keys
        invariant oldest == None ==> left == entries.Keys
        invariant oldest.Some? ==> oldest.value in entries
        invariant oldest.Some? ==>
          forall k :: k in entries && k !in left ==> entries[oldest.value].generation <= entries[k].generation
        decreases left
      {
        var h :| h in left;
        left := left - {h};
        if oldest == None || entries[h].generation < entries[oldest.value].generation {
          oldest := Some(h);
        }
      }
    }

    method Register(h: Handle, platform: Platform, token: string)
      requires Valid(State())
      modifies this
      ensures State() == Registered(old(State()), h, platform, token)
    {
      var lastSent := LastSent(entries, h);
      if |entries| == CAPACITY && h !in entries {
        var oldest := MinByGeneration();
        if oldest.Some? {
          entries := entries - {oldest.value};
        }
      }
      generation := generation + 1;
      entries := entries[h := Entry(platform, token, generation, lastSent)];
    }

    method TakeWake(h: Handle, now: Time) returns (delivery: Option<Entry>)
      modifies this
      ensures State() == Woken(old(State()), h, now)
      ensures delivery == if Delivers(old(State()), h, now) then Some(State().entries[h]) else None
    {
      if h !in entries {
        return None;
      }
      var entry := entries[h];
      if entry.lastSent.Some? && Since(now, entry.lastSent.value) < COLLAPSE {
        return None;
      }
      entry := entry.(lastSent := Some(now));
      entries := entries[h := entry];
      delivery := Some(entry);
    }

    method Unregister(h: Handle)
      modifies this
      ensures State() == Unregistered(old(State()), h)
    {
      entries := entries - {h};
    }

    method RemoveGeneration(h: Handle, stale: nat)
      modifies this
      ensures State() == Retired(old(State()), h, stale)
    {
      if h in entries && entries[h].generation == stale {
        entries := entries - {h};
      }
    }
  }

  // ---- whole runs ----

  datatype Op =
    | Register(handle: Handle, platform: Platform, token: string)
    | Wake(handle: Handle, now: Time)
    | Unregister(handle: Handle)
    | DeliveryFailed(handle: Handle, generation: nat)

  ghost function Apply(s: Table, op: Op): Table {
    match op
    case Register(h, platform, token) => Registered(s, h, platform, token)
    case Wake(h, now) => Woken(s, h, now)
    case Unregister(h) => Unregistered(s, h)
    case DeliveryFailed(h, generation) => Retired(s, h, generation)
  }

  ghost function After(ops: seq<Op>): Table {
    if ops == [] then Table(map[], 0) else Apply(After(ops[..|ops| - 1]), ops[|ops| - 1])
  }

  lemma AfterOneMore(ops: seq<Op>, i: nat)
    requires i < |ops|
    ensures After(ops[..i + 1]) == Apply(After(ops[..i]), ops[i])
  {
    assert ops[..i + 1][..i] == ops[..i];
  }

  lemma RemovalShrinks(entries: Entries, h: Handle)
    ensures |entries - {h}| == if h in entries then |entries| - 1 else |entries|
  {
    assert (entries - {h}).Keys == entries.Keys - {h};
  }

  lemma InsertGrows(entries: Entries, h: Handle, e: Entry)
    ensures |entries[h := e]| == if h in entries then |entries| else |entries| + 1
  {
    assert entries[h := e].Keys == entries.Keys + {h};
  }

  lemma FreshGenerationStaysDistinct(entries: Entries, generation: nat, h: Handle, e: Entry)
    requires UpTo(entries, generation) && DistinctGenerations(entries) && e.generation == generation + 1
    ensures UpTo(entries[h := e], generation + 1) && DistinctGenerations(entries[h := e])
  {
  }

  lemma RegisterKeepsValid(s: Table, h: Handle, platform: Platform, token: string)
    requires Valid(s)
    ensures Valid(Registered(s, h, platform, token))
  {
    var room := MakeRoom(s.entries, h);
    var e := Entry(platform, token, s.generation + 1, LastSent(s.entries, h));
    assert UpTo(room, s.generation) && DistinctGenerations(room);
    FreshGenerationStaysDistinct(room, s.generation, h, e);
    InsertGrows(room, h, e);
    if MustEvict(s.entries, h) {
      RemovalShrinks(s.entries, Oldest(s.entries));
    }
  }

  // At most 4096 entries, with distinct generations no larger than the counter, after any run.
  lemma {:induction false} RunIsValid(ops: seq<Op>)
    ensures Valid(After(ops))
  {
    if ops != [] {
      var before, op := After(ops[..|ops| - 1]), ops[|ops| - 1];
      RunIsValid(ops[..|ops| - 1]);
      match op {
        case Register(h, platform, token) => RegisterKeepsValid(before, h, platform, token);
        case Wake(h, _) =>
          if h in before.entries {
            InsertGrows(before.entries, h, before.entries[h].(lastSent := Some(op.now)));
          }
        case Unregister(h) => RemovalShrinks(before.entries, h);
        case DeliveryFailed(h, _) => RemovalShrinks(before.entries, h);
      }
    }
  }

  // ---- which registration an entry is ----

  function Registrations(ops: seq<Op>): nat {
    if ops == [] then 0
    else Registrations(ops[..|ops| - 1]) + (if ops[|ops| - 1].Register? then 1 else 0)
  }

  // Operation `i` is the registration that made the entry of `h`, and nothing registered `h` since.
  predicate MadeBy(ops: seq<Op>, h: Handle, e: Entry, i: nat) {
    && i < |ops| && ops[i] == Register(h, e.platform, e.token)
    && e.generation == Registrations(ops[..i + 1])
    && forall k :: i < k < |ops| ==> !(ops[k].Register? && ops[k].handle == h)
  }

  lemma {:induction false} EntryIsTheLastRegistration(ops: seq<Op>, h: Handle) returns (i: nat)
    requires h in After(ops).entries
    ensures After(ops).generation == Registrations(ops)
    ensures MadeBy(ops, h, After(ops).entries[h], i)
  {
    var last := |ops| - 1;
    CounterCountsRegistrations(ops);
    var before, op := After(ops[..last]), ops[last];
    if op.Register? && op.handle == h {
      i := last;
      assert ops[..last + 1] == ops;
    } else {
      assert h in before.entries;
      i := EntryIsTheLastRegistration(ops[..last], h);
      assert ops[..last][..i + 1] == ops[..i + 1];
    }
  }

  lemma {:induction false} CounterCountsRegistrations(ops: seq<Op>)
    ensures After(ops).generation == Registrations(ops)
  {
    if ops != [] {
      CounterCountsRegistrations(ops[..|ops| - 1]);
    }
  }

  lemma {:induction false} RegistrationsGrow(ops: seq<Op>, i: nat, j: nat)
    requires i <= j <= |ops|
    ensures Registrations(ops[..i]) <= Registrations(ops[..j])
    decreases j - i
  {
    if i < j {
      RegistrationsGrow(ops, i, j - 1);
      assert ops[..j][..j - 1] == ops[..j - 1];
    }
  }

  lemma OlderWasMadeEarlier(ops: seq<Op>, e: Entry, i: nat, f: Entry, j: nat)
    requires i < |ops| && e.generation == Registrations(ops[..i + 1])
    requires j < |ops| && f.generation == Registrations(ops[..j + 1]) && e.generation < f.generation
    ensures i < j
  {
    if j <= i {
      RegistrationsGrow(ops, j + 1, i + 1);
    }
  }

  // When a new handle meets a full table, exactly one entry goes: the one whose registration is
  // older than every other live one. Every other entry stays as it was.
  lemma FullTableEvictsTheOldest(ops: seq<Op>, h: Handle, platform: Platform, token: string)
    returns (gone: Handle, i: nat)
    requires MustEvict(After(ops).entries, h)
    ensures gone in After(ops).entries && MadeBy(ops, gone, After(ops).entries[gone], i)
    ensures forall k, j: nat ::
      k in After(ops).entries && k != gone && MadeBy(ops, k, After(ops).entries[k], j) ==> i < j
    ensures var s := After(ops + [Register(h, platform, token)]);
            s.entries.Keys == After(ops).entries.Keys - {gone} + {h}
            && |s.entries| == CAPACITY
            && forall k :: k in After(ops).entries && k != gone ==> s.entries[k] == After(ops).entries[k]
  {
    var entries := After(ops).entries;
    gone := Oldest(entries);
    i := EntryIsTheLastRegistration(ops, gone);
    RunIsValid(ops);
    forall k, j: nat | k in entries && k != gone && MadeBy(ops, k, entries[k], j)
      ensures i < j
    {
      OlderWasMadeEarlier(ops, entries[gone], i, entries[k], j);
    }
    assert (ops + [Register(h, platform, token)])[..|ops|] == ops;
    RemovalShrinks(entries, gone);
  }

  lemma {:induction false} RegisteringRenewsTheGeneration(ops: seq<Op>, j: nat, h: Handle)
    requires j < |ops| && ops[j].Register? && ops[j].handle == h && h in After(ops).entries
    ensures After(ops).entries[h].generation > Registrations(ops[..j])
  {
    var last := |ops| - 1;
    if j < last && !(ops[last].Register? && ops[last].handle == h) {
      assert h in After(ops[..last]).entries;
      RegisteringRenewsTheGeneration(ops[..last], j, h);
      assert ops[..last][..j] == ops[..j];
    } else {
      CounterCountsRegistrations(ops);
      RegistrationsGrow(ops, j, last);
      CounterCountsRegistrations(ops[..last]);
    }
  }

  // Operation `i` is a wake of `h` that is delivered.
  ghost predicate DeliveredAt(ops: seq<Op>, h: Handle, i: nat)
    requires i < |ops|
  {
    ops[i].Wake? && ops[i].handle == h && Delivers(After(ops[..i]), h, ops[i].now)
  }

  // A delivery that fails late, after the handle has registered again, changes nothing: `i` is the
  // wake that handed the generation out, `j` the later registration.
  lemma LateFailureSparesTheNewRegistration(ops: seq<Op>, i: nat, j: nat, h: Handle)
    requires i < j < |ops| && DeliveredAt(ops, h, i)
    requires ops[j].Register? && ops[j].handle == h
    ensures After(ops + [DeliveryFailed(h, After(ops[..i]).entries[h].generation)]) == After(ops)
  {
    var handedOut := After(ops[..i]).entries[h].generation;
    assert (ops + [DeliveryFailed(h, handedOut)])[..|ops|] == ops;
    if h in After(ops).entries {
      RegisteringRenewsTheGeneration(ops, j, h);
      RunIsValid(ops[..i]);
      CounterCountsRegistrations(ops[..i]);
      RegistrationsGrow(ops, i, j);
    }
  }

  // ---- which handles are listed ----

  // Where the last registration of `h` is, counted from one; zero when there is none.
  function LastOf(ops: seq<Op>, h: Handle): (n: nat)
    ensures n <= |ops| && (n > 0 ==> ops[n - 1].Register? && ops[n - 1].handle == h)
  {
    if ops == [] then 0
    else if ops[|ops| - 1].Register? && ops[|ops| - 1].handle == h then |ops|
    else LastOf(ops[..|ops| - 1], h)
  }

  // Operation `k` takes out `h`, last registered before it: by name; by a failed delivery that names the
  // ordinal of that registration; or to make room in a full table, as the one registered longest ago.
  ghost predicate TakesOut(ops: seq<Op>, k: nat, h: Handle)
    requires k < |ops|
  {
    var before := ops[..k];
    match ops[k]
    case Unregister(other) => other == h
    case DeliveryFailed(other, generation) => other == h && generation == Registrations(ops[..LastOf(before, h)])
    case Register(other, _, _) =>
      && other != h && other !in After(before).entries && |After(before).entries| == 4096
      && forall j :: j in After(before).entries && j != h ==> LastOf(before, h) < LastOf(before, j)
    case Wake(_, _) => false
  }

  lemma OrdinalOfEntry(ops: seq<Op>, h: Handle)
    requires h in After(ops).entries
    ensures LastOf(ops, h) > 0 && After(ops).entries[h].generation == Registrations(ops[..LastOf(ops, h)])
  {
    var i := EntryIsTheLastRegistration(ops, h);
    LastIs(ops, h, i);
  }

  lemma {:induction false} LastIs(ops: seq<Op>, h: Handle, i: nat)
    requires i < |ops| && ops[i].Register? && ops[i].handle == h
    requires forall k :: i < k < |ops| ==> !(ops[k].Register? && ops[k].handle == h)
    ensures LastOf(ops, h) == i + 1
  {
    if i + 1 < |ops| {
      LastIs(ops[..|ops| - 1], h, i);
    }
  }

  lemma OrdinalsAreOrdered(ops: seq<Op>, h: Handle, k: Handle)
    requires h in After(ops).entries && k in After(ops).entries && h != k
    ensures After(ops).entries[h].generation < After(ops).entries[k].generation <==> LastOf(ops, h) < LastOf(ops, k)
  {
    OrdinalOfEntry(ops, h);
    OrdinalOfEntry(ops, k);
    RunIsValid(ops);
    var i, j := LastOf(ops, h), LastOf(ops, k);
    if i <= j {
      RegistrationsGrow(ops, i, j);
    } else {
      RegistrationsGrow(ops, j, i);
    }
  }

  lemma EvictedIff(ops: seq<Op>, h: Handle)
    requires h in After(ops).entries
    ensures Oldest(After(ops).entries) == h <==>
      forall j :: j in After(ops).entries && j != h ==> LastOf(ops, h) < LastOf(ops, j)
  {
    var oldest := Oldest(After(ops).entries);
    RunIsValid(ops);
    if oldest == h {
      forall j | j in After(ops).entries && j != h
        ensures LastOf(ops, h) < LastOf(ops, j)
      {
        OrdinalsAreOrdered(ops, h, j);
      }
    } else {
      OrdinalsAreOrdered(ops, oldest, h);
    }
  }

  lemma RegisteringTakesOut(s: Table, other: Handle, platform: Platform, token: string, h: Handle)
    requires h in s.entries
    ensures h !in Registered(s, other, platform, token).entries <==>
      other != h && other !in s.entries && |s.entries| == 4096 && Oldest(s.entries) == h
  {
  }

  // One operation takes a listed handle out exactly when it is one of those.
  lemma StaysUnlessTakenOut(ops: seq<Op>, h: Handle)
    requires ops != [] && h in After(ops[..|ops| - 1]).entries
    ensures h in After(ops).entries <==> !TakesOut(ops, |ops| - 1, h)
  {
    var last := |ops| - 1;
    var before := ops[..last];
    match ops[last]
    case Register(other, platform, token) =>
      RegisteringTakesOut(After(before), other, platform, token, h);
      EvictedIff(before, h);
    case DeliveryFailed(other, generation) =>
      OrdinalOfEntry(before, h);
      assert ops[..LastOf(before, h)] == before[..LastOf(before, h)];
    case Unregister(_) =>
    case Wake(_, _) =>
  }

  // A handle is listed exactly when it was registered and no operation since took it out.
  lemma {:induction false} ListedIff(ops: seq<Op>, h: Handle)
    ensures h in After(ops).entries <==>
      LastOf(ops, h) > 0 && forall k :: LastOf(ops, h) <= k < |ops| ==> !TakesOut(ops, k, h)
  {
    if ops != [] {
      var last := |ops| - 1;
      var before := ops[..last];
      ListedIff(before, h);
      forall k | 0 <= k < last
        ensures TakesOut(before, k, h) == TakesOut(ops, k, h)
      {
        TakesOutEarlier(ops, k, h);
      }
      if h in After(before).entries {
        StaysUnlessTakenOut(ops, h);
      }
    }
  }

  lemma TakesOutEarlier(ops: seq<Op>, k: nat, h: Handle)
    requires k + 1 < |ops|
    ensures TakesOut(ops[..|ops| - 1], k, h) == TakesOut(ops, k, h)
  {
    var front := ops[..|ops| - 1];
    assert front[..k] == ops[..k];
    assert front[..LastOf(ops[..k], h)] == ops[..LastOf(ops[..k], h)];
  }

  // A failed delivery takes out its handle exactly when it names the registration that made the entry,
  // and touches no other entry.
  lemma FailedDeliveryRetiresIff(ops: seq<Op>, h: Handle, generation: nat, i: nat)
    requires h in After(ops).entries && MadeBy(ops, h, After(ops).entries[h], i)
    ensures var s := After(ops + [DeliveryFailed(h, generation)]);
      && (h !in s.entries <==> generation == Registrations(ops[..i + 1]))
      && s.generation == After(ops).generation
      && forall k :: k != h || h in s.entries ==>
           (k in s.entries <==> k in After(ops).entries)
           && (k in s.entries ==> s.entries[k] == After(ops).entries[k])
  {
    assert (ops + [DeliveryFailed(h, generation)])[..|ops|] == ops;
  }

  // ---- wakes ----

  // Operation `i` is a delivered wake of `h`, and `h` has stayed registered ever since.
  ghost predicate WokenAt(ops: seq<Op>, h: Handle, i: nat)
    ensures WokenAt(ops, h, i) ==> i < |ops| && ops[i].Wake?
  {
    if i >= |ops| then false
    else
      var before := ops[..|ops| - 1];
      h in After(ops).entries
      && if i < |before| then WokenAt(before, h, i)
         else ops[i].Wake? && ops[i].handle == h && Delivers(After(before), h, ops[i].now)
  }

  // The recorded time is that of the latest of those wakes.
  lemma {:induction false} RecordsTheLatestWake(ops: seq<Op>, h: Handle) returns (latest: nat)
    requires h in After(ops).entries
    ensures After(ops).entries[h].lastSent.Some? ==>
      WokenAt(ops, h, latest) && ops[latest].now == After(ops).entries[h].lastSent.value
    ensures forall i: nat :: WokenAt(ops, h, i) ==>
      After(ops).entries[h].lastSent.Some? && ops[i].now <= After(ops).entries[h].lastSent.value
  {
    var last := |ops| - 1;
    var before, op := After(ops[..last]), ops[last];
    latest := last;
    if h in before.entries {
      var earlier := RecordsTheLatestWake(ops[..last], h);
      if !(op.Wake? && op.handle == h && Delivers(before, h, op.now)) {
        latest := earlier;
        assert After(ops).entries[h].lastSent == before.entries[h].lastSent;
      }
    } else {
      assert After(ops).entries[h].lastSent == None;
    }
  }

  // A wake is delivered exactly when the handle is registered and every wake delivered to it since
  // it was last absent is at least 30 s old, however often its token was refreshed in between.
  lemma WakeIsDeliveredIff(ops: seq<Op>, h: Handle, now: Time)
    ensures Delivers(After(ops), h, now) <==>
      h in After(ops).entries && forall i: nat :: WokenAt(ops, h, i) ==> Since(now, ops[i].now) >= COLLAPSE
  {
    if h in After(ops).entries {
      var latest := RecordsTheLatestWake(ops, h);
    }
  }

  // `h` is registered after the first `k` operations.
  ghost predicate ListedAt(ops: seq<Op>, h: Handle, k: nat)
    requires k <= |ops|
  {
    h in After(ops[..k]).entries
  }

  lemma WokenOneMore(ops: seq<Op>, h: Handle, i: nat, j: nat)
    requires i < j <= |ops| && ListedAt(ops, h, j)
    requires if i + 1 == j then DeliveredAt(ops, h, i) else WokenAt(ops[..j - 1], h, i)
    ensures WokenAt(ops[..j], h, i)
  {
    assert ops[..j][..j - 1] == ops[..j - 1];
  }

  lemma {:induction false} StaysWoken(ops: seq<Op>, h: Handle, i: nat, j: nat)
    requires i < j <= |ops| && DeliveredAt(ops, h, i)
    requires forall k :: i < k <= j ==> ListedAt(ops, h, k)
    ensures WokenAt(ops[..j], h, i)
    decreases j
  {
    if i + 1 < j {
      StaysWoken(ops, h, i, j - 1);
    }
    WokenOneMore(ops, h, i, j);
  }

  // Two delivered wakes of a handle that was not removed in between are at least 30 s apart.
  lemma WakesAreSpaced(ops: seq<Op>, h: Handle, i: nat, j: nat)
    requires i < j < |ops| && DeliveredAt(ops, h, i) && DeliveredAt(ops, h, j)
    requires forall k :: i < k <= j ==> ListedAt(ops, h, k)
    ensures ops[j].now >= ops[i].now + COLLAPSE
  {
    StaysWoken(ops, h, i, j);
    WakeIsDeliveredIff(ops[..j], h, ops[j].now);
  }

  // The proviso is needed: a removal forgets the last wake.
  lemma RemovalForgetsTheWake(h: Handle, platform: Platform, token: string, now: Time)
    ensures var ops := [Register(h, platform, token), Wake(h, now), Unregister(h), Register(h, platform, token)];
            Delivers(After(ops[..1]), h, now) && Delivers(After(ops), h, now)
  {
    var ops := [Register(h, platform, token), Wake(h, now), Unregister(h), Register(h, platform, token)];
    assert ops[..4] == ops;
    assert ops[..0] == [];
    AfterOneMore(ops, 0);
    AfterOneMore(ops, 1);
    AfterOneMore(ops, 2);
    AfterOneMore(ops, 3);
    RunIsValid(ops[..3]);
    RemovalShrinks(After(ops[..2]).entries, h);
  }
}
