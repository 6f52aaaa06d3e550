/**
 One pairing session: a phrase, its routing handle, its URI and its QR code live and die together.
 It ends by expiry (600 s), by the third failed attempt, or by an enrolment; only an explicit
 regeneration brings a new one.
 */
module Pairing {
  import opened Prelude

  const PHRASE_LIFETIME: nat := 600 * SECOND
  const MAX_ATTEMPTS: nat := 3

  // What one mint produces. The pre-shared key is a function of the canonical phrase, so the
  // phrase stands for it.
  datatype Credentials = Credentials(handle: Handle, phrase: string, uri: string, qr: seq<bool>)

  datatype Session =
    | Live(credentials: Credentials, generatedAt: Time, failedAttempts: nat)
    | Expired
    | Spent
    | Used

  function Expire(s: Session, now: Time): Session {
    if s.Live? && Since(now, s.generatedAt) > PHRASE_LIFETIME then Expired else s
  }

  // The credentials a session gives out at `now`: what every accessor reads after expiry is applied.
  function CredentialsAt(s: Session, now: Time): Option<Credentials> {
    var t := Expire(s, now);
    if t.Live? then Some(t.credentials) else None
  }

  function HandleAt(s: Session, now: Time): Option<Handle> {
    var c := CredentialsAt(s, now);
    if c.Some? then Some(c.value.handle) else None
  }

  function FailedAttempt(s: Session, now: Time): Session {
    var t := Expire(s, now);
    if !t.Live? then t
    else if t.failedAttempts + 1 >= MAX_ATTEMPTS then Spent
    else t.(failedAttempts := t.failedAttempts + 1)
  }

  predicate WellFormed(s: Session) {
    s.Live? ==> s.failedAttempts < MAX_ATTEMPTS
  }

  class PairingSession {
    var state: Session

    constructor (minted: Credentials, now: Time)
      ensures state == Live(minted, now, 0)
    {
      state := Live(minted, now, 0);
    }

    method ApplyExpiry(now: Time)
      modifies this
      ensures state == Expire(old(state), now)
    {
      if state.Live? && Since(now, state.generatedAt) > PHRASE_LIFETIME {
        state := Expired;
      }
    }

    method IsLive(now: Time) returns (live: bool)
      modifies this
      ensures state == Expire(old(state), now)
      ensures live == CredentialsAt(old(state), now).Some?
    {
      ApplyExpiry(now);
      live := state.Live?;
    }

    method IsSpent() returns (spent: bool)
      ensures spent == (state == Spent)
    {
      spent := state.Spent?;
    }

    method GetHandle(now: Time) returns (handle: Option<Handle>)
      modifies this
      ensures state == Expire(old(state), now)
      ensures handle == HandleAt(old(state), now)
    {
      ApplyExpiry(now);
      handle := if state.Live? then Some(state.credentials.handle) else None;
    }

    method GetPhrase(now: Time) returns (phrase: Option<string>)
      modifies this
      ensures state == Expire(old(state), now)
      ensures phrase.Some? == CredentialsAt(old(state), now).Some?
      ensures phrase.Some? ==> phrase.value == CredentialsAt(old(state), now).value.phrase
    {
      ApplyExpiry(now);
      phrase := if state.Live? then Some(state.credentials.phrase) else None;
    }

    method GetUri(now: Time) returns (uri: Option<string>)
      modifies this
      ensures state == Expire(old(state), now)
      ensures uri.Some? == CredentialsAt(old(state), now).Some?
      ensures uri.Some? ==> uri.value == CredentialsAt(old(state), now).value.uri
    {
      ApplyExpiry(now);
      uri := if state.Live? then Some(state.credentials.uri) else None;
    }

    method GetQr(now: Time) returns (qr: Option<seq<bool>>)
      modifies this
      ensures state == Expire(old(state), now)
      ensures qr.Some? == CredentialsAt(old(state), now).Some?
      ensures qr.Some? ==> qr.value == CredentialsAt(old(state), now).value.qr
    {
      ApplyExpiry(now);
      qr := if state.Live? then Some(state.credentials.qr) else None;
    }

    method RecordFailedAttempt(now: Time)
      modifies this
      ensures state == FailedAttempt(old(state), now)
    {
      ApplyExpiry(now);
      if !state.Live? {
        return;
      }
      state := state.(failedAttempts := state.failedAttempts + 1);
      if state.failedAttempts >= MAX_ATTEMPTS {
        state := Spent;
      }
    }

    method RecordEnrolled()
      modifies this
      ensures state == Used
    {
      state := Used;
    }

    // None when the random source or the URI limit refuses the mint.
    method Regenerate(minted: Option<Credentials>, now: Time) returns (ok: bool)
      modifies this
      ensures ok == minted.Some?
      ensures state == if ok then Live(minted.value, now, 0) else old(state)
    {
      if minted.None? {
        return false;
      }
      state := Live(minted.value, now, 0);
      ok := true;
    }
  }

  // ---- whole runs between two regenerations ----

  datatype Op = Query(now: Time) | Fail(now: Time) | Enrol

  function Step(s: Session, op: Op): Session {
    match op
    case Query(now) => Expire(s, now)
    case Fail(now) => FailedAttempt(s, now)
    case Enrol => Used
  }

  function Run(s: Session, ops: seq<Op>): Session {
    if ops == [] then s else Step(Run(s, ops[..|ops| - 1]), ops[|ops| - 1])
  }

  function Failures(ops: seq<Op>): nat {
    if ops == [] then 0
    else Failures(ops[..|ops| - 1]) + (if ops[|ops| - 1].Fail? then 1 else 0)
  }

  // While a session is live it is the one that was minted, it counted every failure, every reading
  // of the clock so far was inside the lifetime, and no enrolment was recorded.
  lemma {:induction false} LiveMeansUntouched(minted: Credentials, at: Time, ops: seq<Op>)
    ensures var end := Run(Live(minted, at, 0), ops);
            end.Live? <==> Failures(ops) < MAX_ATTEMPTS
                           && forall i :: 0 <= i < |ops| ==> !ops[i].Enrol? && Since(ops[i].now, at) <= PHRASE_LIFETIME
    ensures var end := Run(Live(minted, at, 0), ops);
            end.Live? ==> end == Live(minted, at, Failures(ops))
  {
    if ops != [] {
      var last := |ops| - 1;
      LiveMeansUntouched(minted, at, ops[..last]);
      assert forall i :: 0 <= i < last ==> ops[..last][i] == ops[i];
    }
  }

  // Liveness is an initial stretch: a session that is live after a run was live after every prefix.
  lemma {:induction false} LiveIsAnInitialStretch(s: Session, ops: seq<Op>, n: nat)
    requires n <= |ops| && Run(s, ops).Live?
    ensures Run(s, ops[..n]).Live? && Run(s, ops[..n]).credentials == Run(s, ops).credentials
  {
    if n < |ops| {
      var last := |ops| - 1;
      LiveIsAnInitialStretch(s, ops[..last], n);
      assert ops[..last][..n] == ops[..n];
    } else {
      assert ops[..n] == ops;
    }
  }

  // Whatever is given out at `now` is the minted set, and it is given out exactly while it is at most
  // 600 s old, by this and every earlier reading, with fewer than three failures and no enrolment.
  lemma GivenOutIsFresh(minted: Credentials, at: Time, ops: seq<Op>, now: Time)
    ensures var given := CredentialsAt(Run(Live(minted, at, 0), ops), now);
      && (given.Some? ==> given.value == minted)
      && (given.Some? <==>
            && now <= at + 600 * SECOND && Failures(ops) < 3
            && forall i :: 0 <= i < |ops| ==> !ops[i].Enrol? && ops[i].now <= at + 600 * SECOND)
  {
    LiveMeansUntouched(minted, at, ops);
  }
}
