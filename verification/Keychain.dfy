/**
 The iOS keychain session. A read takes the lock twice, with the system query in between, and the
 session may be invalidated meanwhile. Reading the device key unlocks the session for the Host reads
 that follow; Host reads never prompt.
 */
module Keychain {
  import opened Prelude

  // Local-authentication contexts, by identity.
  type ContextId = nat

  datatype LocalAuth = LocalAuth(interactionNotAllowed: bool, invalidated: bool)

  datatype Status = Success | ItemNotFound | UserCanceled | Param | Decode | Failed(code: int)

  // What the system query yields: a status, and bytes that are or are not UTF-8 text.
  datatype Found = Nothing | Bytes | Text(value: string)

  datatype Outcome = Outcome(status: Status, found: Found)

  datatype Answer = Answer(status: Status, value: Option<string>)

  datatype Session = Session(
    context: Option<ContextId>, pending: Option<ContextId>, generation: nat,
    contexts: map<ContextId, LocalAuth>, nextContext: ContextId)

  // A read between its two locked halves.
  datatype Reading = Reading(generation: nat, authenticating: bool, active: ContextId)

  datatype Begun = Started(reading: Reading) | Refused(status: Status)

  const DEVICE_KEY: string := "device_x25519_private_key"

  predicate IsHostKey(key: string) {
    "host_static_public_key_" <= key || "host_routing_handle_" <= key || "host_relay_origin_" <= key
  }

  // ---- the locked sections, as functions ----

  function Discarded(contexts: map<ContextId, LocalAuth>, c: Option<ContextId>): map<ContextId, LocalAuth> {
    if c.Some? && c.value in contexts
    then contexts[c.value := contexts[c.value].(invalidated := true)] else contexts
  }

  function Silenced(contexts: map<ContextId, LocalAuth>, c: ContextId): map<ContextId, LocalAuth> {
    if c in contexts then contexts[c := contexts[c].(interactionNotAllowed := true)] else contexts
  }

  function Invalidated(s: Session): Session {
    Session(None, None, s.generation + 1, Discarded(Discarded(s.contexts, s.context), s.pending), s.nextContext)
  }

  function BeginAnswer(s: Session, key: string, generation: nat): Begun {
    if key != DEVICE_KEY && !IsHostKey(key) then Refused(Param)
    else if generation != s.generation then Refused(UserCanceled)
    else if key == DEVICE_KEY then Started(Reading(generation, true, s.nextContext))
    else Started(Reading(generation, false, if s.context.Some? then s.context.value else s.nextContext))
  }

  function Began(s: Session, key: string, generation: nat): Session {
    if BeginAnswer(s, key, generation).Refused? then s
    else if key == DEVICE_KEY then
      s.(pending := Some(s.nextContext), nextContext := s.nextContext + 1,
         contexts := Discarded(s.contexts, s.pending)[s.nextContext := LocalAuth(false, false)])
    else if s.context.Some? then s.(contexts := Silenced(s.contexts, s.context.value))
    else s.(contexts := s.contexts[s.nextContext := LocalAuth(true, false)], nextContext := s.nextContext + 1)
  }

  function FinishAnswer(s: Session, r: Reading, o: Outcome): Answer {
    if r.generation != s.generation then Answer(UserCanceled, None)
    else if o.status != Success then Answer(if o.status == ItemNotFound then Success else o.status, None)
    else if !o.found.Text? then Answer(Decode, None)
    else Answer(Success, Some(o.found.value))
  }

  function Finished(s: Session, r: Reading, o: Outcome): Session {
    if r.generation != s.generation then s
    else
      var silenced := Silenced(s.contexts, r.active);
      if !r.authenticating then s.(contexts := silenced)
      else if o.status == Success && o.found.Text? then
        s.(pending := None, contexts := Discarded(silenced, s.context), context := Some(r.active))
      else
        var dropped := Discarded(silenced, Some(r.active));
        if o.status == ItemNotFound
        then s.(pending := None, contexts := Discarded(dropped, s.context), context := None)
        else s.(pending := None, contexts := dropped)
  }

  // ---- the session object ----

  class KeychainSession {
    var context: Option<ContextId>
    var pendingContext: Option<ContextId>
    var currentGeneration: nat
    var contexts: map<ContextId, LocalAuth>
    var nextContext: ContextId

    function State(): Session
      reads this
    {
      Session(context, pendingContext, currentGeneration, contexts, nextContext)
    }

    constructor ()
      ensures State() == Session(None, None, 0, map[], 0)
    {
      context, pendingContext, currentGeneration, contexts, nextContext := None, None, 0, map[], 0;
    }

    method InvalidateContext(c: Option<ContextId>)
      modifies this`contexts
      ensures contexts == Discarded(old(contexts), c)
    {
      if c.Some? && c.value in contexts {
        contexts := contexts[c.value := contexts[c.value].(invalidated := true)];
      }
    }

    method NewContext() returns (c: ContextId)
      modifies this`contexts, this`nextContext
      ensures c == old(nextContext) && nextContext == c + 1
      ensures contexts == old(contexts)[c := LocalAuth(false, false)]
    {
      c := nextContext;
      contexts := contexts[c := LocalAuth(false, false)];
      nextContext := c + 1;
    }

    method ForbidInteraction(c: ContextId)
      modifies this`contexts
      ensures contexts == Silenced(old(contexts), c)
    {
      if c in contexts {
        contexts := contexts[c := contexts[c].(interactionNotAllowed := true)];
      }
    }

    method Invalidate()
      modifies this
      ensures State() == Invalidated(old(State()))
    {
      InvalidateContext(context);
      InvalidateContext(pendingContext);
      context := None;
      pendingContext := None;
      currentGeneration := currentGeneration + 1;
    }

    method BeginRead(key: string, generation: nat) returns (begun: Begun)
      modifies this
      ensures begun == BeginAnswer(old(State()), key, generation)
      ensures State() == Began(old(State()), key, generation)
    {
      var authenticating := key == DEVICE_KEY;
      if !authenticating && !IsHostKey(key) {
        return Refused(Param);
      }
      if generation != currentGeneration {
        return Refused(UserCanceled);
      }
      var active: ContextId;
      if authenticating {
        InvalidateContext(pendingContext);
        active := NewContext();
        pendingContext := Some(active);
      } else {
        if context.Some? {
          active := context.value;
        } else {
          active := NewContext();
        }
        ForbidInteraction(active);
      }
      begun := Started(Reading(generation, authenticating, active));
    }

    method FinishRead(r: Reading, o: Outcome) returns (answer: Answer)
      modifies this
      ensures answer == FinishAnswer(old(State()), r, o)
      ensures State() == Finished(old(State()), r, o)
    {
      if r.generation != currentGeneration {
        return Answer(UserCanceled, None);
      }
      ForbidInteraction(r.active);
      if r.authenticating {
        pendingContext := None;
      }
      if o.status != Success {
        if r.authenticating {
          InvalidateContext(Some(r.active));
          if o.status == ItemNotFound {
            InvalidateContext(context);
            context := None;
          }
        }
        return Answer(if o.status == ItemNotFound then Success else o.status, None);
      }
      if !o.found.Text? {
        if r.authenticating {
          InvalidateContext(Some(r.active));
        }
        return Answer(Decode, None);
      }
      if r.authenticating {
        InvalidateContext(context);
        context := Some(r.active);
      }
      answer := Answer(Success, Some(o.found.value));
    }
  }

  // ---- every interleaving of serial reads with invalidation ----

  datatype Event = Invalidate | Begin(key: string, generation: nat) | Finish(outcome: Outcome)

  // `reading` is the one read under way; reads come from one serial queue.
  datatype World = World(session: Session, reading: Option<Reading>)

  const START: World := World(Session(None, None, 0, map[], 0), None)

  predicate Enabled(w: World, e: Event) {
    match e
    case Invalidate => true
    case Begin(_, _) => w.reading == None
    case Finish(_) => w.reading.Some?
  }

  function Next(w: World, e: Event): World
    requires Enabled(w, e)
  {
    match e
    case Invalidate => w.(session := Invalidated(w.session))
    case Begin(key, generation) =>
      var begun := BeginAnswer(w.session, key, generation);
      World(Began(w.session, key, generation), if begun.Started? then Some(begun.reading) else None)
    case Finish(o) => World(Finished(w.session, w.reading.value, o), None)
  }

  // The world a history leads to, if the history can happen.
  function Reached(events: seq<Event>): Option<World> {
    if events == [] then Some(START)
    else
      var before, last := Reached(events[..|events| - 1]), events[|events| - 1];
      if before.Some? && Enabled(before.value, last) then Some(Next(before.value, last)) else None
  }

  predicate Possible(events: seq<Event>) {
    Reached(events).Some?
  }

  function After(events: seq<Event>): World
    requires Possible(events)
  {
    Reached(events).value
  }

  predicate Intact(s: Session, c: ContextId) {
    c in s.contexts && s.contexts[c].interactionNotAllowed && !s.contexts[c].invalidated
  }

  predicate Overtaken(w: World) {
    w.reading.Some? && w.reading.value.generation != w.session.generation
  }

  // The stored context is usable without a prompt; only the context of an authenticating read under
  // way could still prompt; the read under way uses a known context, a Host read a silent one.
  predicate Inv(w: World) {
    var s := w.session;
    && (forall c :: c in s.contexts ==> c < s.nextContext)
    && (s.context.Some? ==> Intact(s, s.context.value))
    && (forall c :: c in s.contexts && !s.contexts[c].interactionNotAllowed && !s.contexts[c].invalidated ==>
          s.pending == Some(c))
    && (s.pending.Some? ==>
          w.reading.Some? && w.reading.value == Reading(s.generation, true, s.pending.value) && s.pending != s.context)
    && (w.reading.Some? ==>
          var r := w.reading.value;
          && r.generation <= s.generation && r.active in s.contexts
          && (r.authenticating && r.generation == s.generation ==>
                s.pending == Some(r.active) && !s.contexts[r.active].invalidated)
          && (!r.authenticating ==> s.contexts[r.active].interactionNotAllowed))
  }

  lemma StepKeepsInv(w: World, e: Event)
    requires Inv(w) && Enabled(w, e)
    ensures Inv(Next(w, e))
  {
  }

  lemma {:induction false} RunKeepsInv(events: seq<Event>)
    requires Possible(events)
    ensures Inv(After(events))
  {
    if events != [] {
      RunKeepsInv(events[..|events| - 1]);
      StepKeepsInv(After(events[..|events| - 1]), events[|events| - 1]);
    }
  }

  // ---- what a history unlocks ----

  // Whether the session was invalidated since the read under way began.
  predicate InvalidatedSinceBegin(events: seq<Event>) {
    events != [] && !events[|events| - 1].Begin?
    && (events[|events| - 1].Invalidate? || InvalidatedSinceBegin(events[..|events| - 1]))
  }

  // The account by events alone: a device-key read that succeeds undisturbed unlocks the session
  // with its own context, until an invalidation, or until such a read finds the item missing.
  function UnlockedBy(events: seq<Event>): Option<ContextId>
    requires Possible(events)
  {
    if events == [] then None
    else
      var before, last := events[..|events| - 1], events[|events| - 1];
      match last
      case Invalidate => None
      case Begin(_, _) => UnlockedBy(before)
      case Finish(o) =>
        var r := After(before).reading.value;
        if !r.authenticating || InvalidatedSinceBegin(before) then UnlockedBy(before)
        else if o.status == Success && o.found.Text? then Some(r.active)
        else if o.status == ItemNotFound then None
        else UnlockedBy(before)
  }

  lemma {:induction false} OvertakenIff(events: seq<Event>)
    requires Possible(events) && After(events).reading.Some?
    ensures Overtaken(After(events)) <==> InvalidatedSinceBegin(events)
  {
    var before, last := events[..|events| - 1], events[|events| - 1];
    if last.Invalidate? {
      OvertakenIff(before);
      RunKeepsInv(before);
    }
  }

  // The stored context is exactly what the history unlocked; so a failed unlock keeps the earlier
  // one unless the item is missing, and nothing unlocked before an invalidation outlives it.
  lemma {:induction false} ContextIsUnlocked(events: seq<Event>)
    requires Possible(events)
    ensures After(events).session.context == UnlockedBy(events)
  {
    if events != [] {
      var before, last := events[..|events| - 1], events[|events| - 1];
      ContextIsUnlocked(before);
      if last.Finish? {
        OvertakenIff(before);
      }
    }
  }

  // A stored context can be used, but never to prompt.
  lemma StoredContextIsSilent(events: seq<Event>)
    requires Possible(events) && After(events).session.context.Some?
    ensures Intact(After(events).session, After(events).session.context.value)
  {
    RunKeepsInv(events);
  }

  lemma StepKeepsDead(w: World, e: Event, c: ContextId)
    requires Inv(w) && Enabled(w, e) && c in w.session.contexts
    requires w.session.contexts[c].invalidated || (w.session.context == Some(c) && Next(w, e).session.context != Some(c))
    ensures c in Next(w, e).session.contexts && Next(w, e).session.contexts[c].invalidated
  {
  }

  // A context that once unlocked the session is invalidated as soon as it no longer does.
  lemma {:induction false} FormerUnlocksAreDead(events: seq<Event>, i: nat, c: ContextId)
    requires Possible(events) && i <= |events| && Possible(events[..i])
    requires UnlockedBy(events[..i]) == Some(c) && UnlockedBy(events) != Some(c)
    ensures c in After(events).session.contexts && After(events).session.contexts[c].invalidated
    decreases |events|
  {
    assert events[..|events|] == events;
    var before := events[..|events| - 1];
    RunKeepsInv(before);
    ContextIsUnlocked(before);
    ContextIsUnlocked(events);
    if UnlockedBy(before) != Some(c) {
      assert before[..i] == events[..i];
      FormerUnlocksAreDead(before, i, c);
    }
    StepKeepsDead(After(before), events[|events| - 1], c);
  }

  // Only a device-key read can prompt, and none that was overtaken: a context that still allows
  // interaction belongs to the undisturbed device-key read under way.
  lemma OnlyTheUnlockPrompts(events: seq<Event>, c: ContextId)
    requires Possible(events)
    requires var s := After(events).session;
      c in s.contexts && !s.contexts[c].interactionNotAllowed && !s.contexts[c].invalidated
    ensures var w := After(events); w.reading == Some(Reading(w.session.generation, true, c))
    ensures !InvalidatedSinceBegin(events)
  {
    RunKeepsInv(events);
    OvertakenIff(events);
  }

  // A read answers with data exactly when nothing invalidated the session since it began and the
  // query found text; overtaken, it is cancelled and changes nothing.
  lemma DataOnlyIfUndisturbed(events: seq<Event>, o: Outcome)
    requires Possible(events) && After(events).reading.Some?
    ensures var w := After(events);
      && (FinishAnswer(w.session, w.reading.value, o).value.Some?
          <==> !InvalidatedSinceBegin(events) && o.status == Success && o.found.Text?)
      && (InvalidatedSinceBegin(events) ==>
            FinishAnswer(w.session, w.reading.value, o) == Answer(UserCanceled, None)
            && Finished(w.session, w.reading.value, o) == w.session)
  {
    OvertakenIff(events);
  }

  function Invalidations(events: seq<Event>): nat {
    if events == [] then 0
    else Invalidations(events[..|events| - 1]) + (if events[|events| - 1].Invalidate? then 1 else 0)
  }

  lemma {:induction false} GenerationCountsInvalidations(events: seq<Event>)
    requires Possible(events)
    ensures After(events).session.generation == Invalidations(events)
  {
    if events != [] {
      GenerationCountsInvalidations(events[..|events| - 1]);
    }
  }

  predicate OfAHost(key: string) {
    key[..Least(|key|, 23)] == "host_static_public_key_" || key[..Least(|key|, 20)] == "host_routing_handle_"
    || key[..Least(|key|, 18)] == "host_relay_origin_"
  }

  function Least(m: nat, n: nat): nat {
    if m < n then m else n
  }

  lemma HostKeys(key: string)
    ensures IsHostKey(key) <==> OfAHost(key)
    ensures key == DEVICE_KEY ==> !IsHostKey(key)
  {
    assert DEVICE_KEY[0] == 'd';
  }

  // A read begins exactly for the device key or a Host's key, by a caller that knows of every
  // invalidation so far; only the device-key read authenticates, with a context of its own.
  lemma ReadBeginsIff(events: seq<Event>, key: string, generation: nat)
    requires Possible(events) && After(events).reading == None
    ensures var s := After(events).session;
      var begun := BeginAnswer(s, key, generation);
      var host := OfAHost(key);
      && (begun.Started? <==> (key == "device_x25519_private_key" || host) && generation == Invalidations(events))
      && (begun == Refused(Param) <==> key != "device_x25519_private_key" && !host)
      && (begun.Started? ==>
            && begun.reading.generation == generation
            && (begun.reading.authenticating <==> key == "device_x25519_private_key")
            && (begun.reading.authenticating ==> begun.reading.active !in s.contexts))
  {
    RunKeepsInv(events);
    GenerationCountsInvalidations(events);
    HostKeys(key);
  }

  // What a read answers, by what happened alone: the text itself exactly when nothing invalidated the
  // session since it began and the query found that text; nothing, as a success, for a missing item;
  // and each failure under its own status.
  lemma AnswersIff(events: seq<Event>, o: Outcome, value: string)
    requires Possible(events) && After(events).reading.Some?
    ensures var answer := FinishAnswer(After(events).session, After(events).reading.value, o);
      var undisturbed := !InvalidatedSinceBegin(events);
      && (answer == Answer(Success, Some(value)) <==> undisturbed && o == Outcome(Success, Text(value)))
      && (answer == Answer(Success, None) <==> undisturbed && o.status == ItemNotFound)
      && (answer.status == Decode <==>
            undisturbed && (o.status == Decode || (o.status == Success && (o.found == Nothing || o.found == Bytes))))
      && (answer.status == UserCanceled <==> !undisturbed || o.status == UserCanceled)
      && (answer.status == Param <==> undisturbed && o.status == Param)
      && (forall code :: answer.status == Failed(code) <==> undisturbed && o.status == Failed(code))
      && (answer.value.Some? ==> answer.status == Success)
  {
    OvertakenIff(events);
  }

  // A Host read under way uses a context that cannot prompt: the unlocked one, if there was one.
  lemma HostReadsReuseTheUnlock(events: seq<Event>, key: string, generation: nat)
    requires Possible(events) && After(events).reading == None && IsHostKey(key)
    requires BeginAnswer(After(events).session, key, generation).Started?
    ensures var before := After(events).session;
      var s, r := Began(before, key, generation), BeginAnswer(before, key, generation).reading;
      && Intact(s, r.active) && !r.authenticating
      && (UnlockedBy(events).Some? ==> r.active == UnlockedBy(events).value && s == before)
      && (UnlockedBy(events) == None ==>
            r.active !in before.contexts && s.contexts.Keys == before.contexts.Keys + {r.active})
  {
    RunKeepsInv(events);
    ContextIsUnlocked(events);
    var stored := After(events).session.context;
    if stored.Some? {
      var contexts := After(events).session.contexts;
      assert contexts[stored.value := contexts[stored.value]] == contexts;
    }
    assert key[0] == 'h' && DEVICE_KEY[0] == 'd';
  }
}
