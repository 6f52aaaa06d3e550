/**
 The bridge thread's request loop. Consecutive whole-line inputs for one pane are merged into the
 newest, while more requests may arrive between any two looks at the queue.
 */
module InputQueue {
  import opened Prelude
  import opened LineSync

  type Corr = Option<string>

  datatype Input = Input(
    pane: string, line: Option<Line>, text: Option<string>, keys: Option<seq<string>>,
    deferred: bool, bypassLine: bool)

  datatype Request = SendInput(input: Input, corr: Corr) | Other(kind: nat, corr: Corr)

  // `Ack` answers an input that was not deferred; any other outgoing message is `Else`.
  datatype Reply = Ack(pane: string, accepted: bool, corr: Corr) | Else(kind: nat, corr: Corr)

  // `lines` is the shadow of each pane's composer; `rest` stands for everything else.
  datatype Bridge = Bridge(watched: Option<string>, lines: map<string, Line>, rest: nat)

  // `herdr`: which of the calls that bring a line about fails, if one does. What serving any other
  // request, or a tick of the event subscription, does is arbitrary, except that an input that is not
  // deferred is answered once.
  datatype Effects = Effects(
    herdr: (Bridge, Input) -> Option<nat>,
    input: (Bridge, Input) -> (Bridge, bool, seq<Reply>),
    other: (Bridge, Request) -> (Bridge, seq<Reply>),
    tick: (Bridge, nat) -> (Bridge, seq<Reply>))

  // A whole line and nothing else.
  predicate IsLine(i: Input) {
    i.line.Some? && i.text == None && i.keys == None && !i.deferred
  }

  predicate Merges(r: Request, pane: string) {
    r.SendInput? && IsLine(r.input) && r.input.pane == pane
  }

  predicate StartsRun(r: Request) {
    r.SendInput? && IsLine(r.input)
  }

  // ---- serving one request ----

  // A line is refused for a pane that is not watched, and with the bypass flag.
  predicate AdmitsLine(b: Bridge, i: Input) {
    b.watched == Some(i.pane) && !i.bypassLine
  }

  function ShadowOf(b: Bridge, pane: string): Line {
    if pane in b.lines then b.lines[pane] else []
  }

  function LineOutcome(fx: Effects, b: Bridge, i: Input): Outcome
    requires i.line.Some?
  {
    Reconciled(ShadowOf(b, i.pane), i.line.value, fx.herdr(b, i))
  }

  predicate TakesLine(fx: Effects, b: Bridge, i: Input)
    requires i.line.Some?
  {
    AdmitsLine(b, i) && LineOutcome(fx, b, i).ok
  }

  // The shadow keeps up with whatever Herdr accepted.
  function LineApplied(fx: Effects, b: Bridge, i: Input): Bridge
    requires i.line.Some?
  {
    if AdmitsLine(b, i) then b.(lines := b.lines[i.pane := LineOutcome(fx, b, i).shadow]) else b
  }

  // One by one: an input not deferred gets one acknowledgement; `Ack` is never sent otherwise.
  function Served(fx: Effects, b: Bridge, r: Request): (Bridge, seq<Reply>) {
    if StartsRun(r) then (LineApplied(fx, b, r.input), [Ack(r.input.pane, TakesLine(fx, b, r.input), r.corr)])
    else if r.SendInput? && !r.input.deferred then
      var (c, accepted, more) := fx.input(b, r.input);
      (c, [Ack(r.input.pane, accepted, r.corr)] + Unanswered(more))
    else
      var (c, replies) := fx.other(b, r);
      (c, Unanswered(replies))
  }

  function Unanswered(replies: seq<Reply>): (r: seq<Reply>)
    ensures forall k :: 0 <= k < |r| ==> r[k].Else?
  {
    if replies == [] then []
    else (if replies[0].Else? then [replies[0]] else []) + Unanswered(replies[1..])
  }

  lemma {:induction false} OthersAreAllSent(replies: seq<Reply>)
    requires forall k :: 0 <= k < |replies| ==> replies[k].Else?
    ensures Unanswered(replies) == replies
  {
    if replies != [] {
      OthersAreAllSent(replies[1..]);
      assert replies == [replies[0]] + replies[1..];
    }
  }

  // ---- merging a run ----

  // How many requests at the front of the queue join a run of `pane`.
  function RunLength(queue: seq<Request>, pane: string): (n: nat)
    ensures n <= |queue|
    ensures forall k :: 0 <= k < n ==> Merges(queue[k], pane)
    ensures n < |queue| ==> !Merges(queue[n], pane)
  {
    if queue == [] || !Merges(queue[0], pane) then 0 else 1 + RunLength(queue[1..], pane)
  }

  function CorrsOf(requests: seq<Request>): seq<Corr> {
    if requests == [] then [] else [requests[0].corr] + CorrsOf(requests[1..])
  }

  function AllAcked(pane: string, accepted: bool, corrs: seq<Corr>): seq<Reply> {
    if corrs == [] then [] else [Ack(pane, accepted, corrs[0])] + AllAcked(pane, accepted, corrs[1..])
  }

  // The newest request of a run, applied once and answered for all.
  function MergedRun(fx: Effects, b: Bridge, run: seq<Request>): (Bridge, seq<Reply>)
    requires run != [] && forall k :: 0 <= k < |run| ==> StartsRun(run[k])
  {
    assert StartsRun(run[|run| - 1]);
    var newest := run[|run| - 1].input;
    (LineApplied(fx, b, newest), AllAcked(newest.pane, TakesLine(fx, b, newest), CorrsOf(run)))
  }

  // A line alone: no text and no keys with it, and not deferred.
  predicate LineAlone(i: Input) {
    match i
    case Input(_, Some(_), None, None, false, _) => true
    case Input(_, _, _, _, _, _) => false
  }

  // A request joins the run exactly when it and all before it are lines alone for the pane.
  lemma {:induction false} JoinsTheRunIff(queue: seq<Request>, pane: string, k: nat)
    requires k < |queue|
    ensures k < RunLength(queue, pane) <==>
      forall j :: 0 <= j <= k ==> queue[j].SendInput? && LineAlone(queue[j].input) && queue[j].input.pane == pane
  {
    if k > 0 && Merges(queue[0], pane) {
      var rest := queue[1..];
      JoinsTheRunIff(rest, pane, k - 1);
      assert forall j :: 0 < j <= k ==> queue[j] == rest[j - 1];
    }
  }

  // The answer to one input: a line alone is accepted exactly for the watched pane, without the bypass
  // flag, when Herdr accepts every call it takes; any other input as serving it says.
  lemma AcceptedIff(fx: Effects, b: Bridge, i: Input, corr: Corr)
    requires !i.deferred
    ensures Served(fx, b, SendInput(i, corr)).1 != []
    ensures Served(fx, b, SendInput(i, corr)).1[0]
         == Ack(i.pane, if LineAlone(i) then b.watched == Some(i.pane) && !i.bypassLine && LineOutcome(fx, b, i).ok
                        else fx.input(b, i).1, corr)
  {
  }

  class Inbox {
    var queue: seq<Request>

    constructor (arrived: seq<Request>)
      ensures queue == arrived
    {
      queue := arrived;
    }

    method TryRecv() returns (r: Option<Request>)
      modifies this
      ensures old(queue) == [] ==> r == None && queue == []
      ensures old(queue) != [] ==> r == Some(old(queue)[0]) && queue == old(queue)[1..]
    {
      if queue == [] {
        return None;
      }
      r := Some(queue[0]);
      queue := queue[1..];
    }
  }

  // With nothing arriving meanwhile: takes the longest run, and hands back the request that ended it.
  method CoalesceInput(first: Input, corr: Corr, rx: Inbox)
    returns (request: Input, corrs: seq<Corr>, pending: Option<Request>)
    modifies rx
    ensures var n := if IsLine(first) then RunLength(old(rx.queue), first.pane) else 0;
      && corrs == [corr] + CorrsOf(old(rx.queue)[..n])
      && request == (if n == 0 then first else old(rx.queue)[n - 1].input)
      && (if !IsLine(first) || n == |old(rx.queue)| then pending == None && rx.queue == old(rx.queue)[n..]
          else pending == Some(old(rx.queue)[n]) && rx.queue == old(rx.queue)[n + 1..])
  {
    request, corrs, pending := first, [corr], None;
    if !IsLine(first) {
      assert rx.queue[..0] == [];
      return;
    }
    ghost var all, n := rx.queue, 0;
    while true
      invariant n <= |all| && rx.queue == all[n..]
      invariant RunLength(all, first.pane) == n + RunLength(all[n..], first.pane)
      invariant corrs == [corr] + CorrsOf(all[..n])
      invariant request == (if n == 0 then first else all[n - 1].input) && request.pane == first.pane
      decreases |rx.queue|
    {
      var next := rx.TryRecv();
      if next == None {
        break;
      }
      if !Merges(next.value, request.pane) {
        pending := next;
        break;
      }
      RunGrows(all, n, first.pane);
      request := next.value.input;
      corrs := corrs + [next.value.corr];
      n := n + 1;
    }
  }

  lemma {:induction false} CorrsOfMore(requests: seq<Request>, r: Request)
    ensures CorrsOf(requests + [r]) == CorrsOf(requests) + [r.corr]
  {
    if requests != [] {
      CorrsOfMore(requests[1..], r);
      assert (requests + [r])[1..] == requests[1..] + [r];
    }
  }

  lemma RunGrows(all: seq<Request>, n: nat, pane: string)
    requires n < |all| && Merges(all[n], pane)
    ensures all[n..][1..] == all[n + 1..] && RunLength(all[n..], pane) == 1 + RunLength(all[n + 1..], pane)
    ensures CorrsOf(all[..n + 1]) == CorrsOf(all[..n]) + [all[n].corr]
  {
    assert all[n..][1..] == all[n + 1..];
    assert all[..n + 1] == all[..n] + [all[n]];
    CorrsOfMore(all[..n], all[n]);
  }

  method ReplyToInputs(pane: string, accepted: bool, corrs: seq<Corr>, out: seq<Reply>) returns (sent: seq<Reply>)
    ensures sent == out + AllAcked(pane, accepted, corrs)
  {
    sent := out;
    for i := 0 to |corrs|
      invariant sent + AllAcked(pane, accepted, corrs[i..]) == out + AllAcked(pane, accepted, corrs)
    {
      assert corrs[i..][1..] == corrs[i + 1..];
      var reply := Ack(pane, accepted, corrs[i]);
      assert sent + ([reply] + AllAcked(pane, accepted, corrs[i + 1..]))
          == (sent + [reply]) + AllAcked(pane, accepted, corrs[i + 1..]);
      sent := sent + [reply];
    }
  }

  // ---- merging against serving one by one ----

  function ServedAll(fx: Effects, b: Bridge, requests: seq<Request>): (Bridge, seq<Reply>)
    decreases |requests|
  {
    if requests == [] then (b, [])
    else
      var (c, replies) := Served(fx, b, requests[0]);
      var (d, more) := ServedAll(fx, c, requests[1..]);
      (d, replies + more)
  }

  predicate IsRun(run: seq<Request>, pane: string) {
    run != [] && forall k :: 0 <= k < |run| ==> Merges(run[k], pane)
  }

  predicate NoneBypasses(run: seq<Request>) {
    forall k :: 0 <= k < |run| ==> !(StartsRun(run[k]) && run[k].input.bypassLine)
  }

  predicate AllBypass(run: seq<Request>) {
    forall k :: 0 <= k < |run| ==> StartsRun(run[k]) && run[k].input.bypassLine
  }

  // Herdr accepts every call that brings a line about.
  ghost predicate Reliable(fx: Effects) {
    forall b, i :: fx.herdr(b, i) == None
  }

  lemma ReliableLine(fx: Effects, b: Bridge, i: Input)
    requires Reliable(fx) && i.line.Some?
    ensures TakesLine(fx, b, i) == AdmitsLine(b, i)
    ensures LineApplied(fx, b, i) == if AdmitsLine(b, i) then b.(lines := b.lines[i.pane := i.line.value]) else b
  {
    ShadowFollowsThePane(ShadowOf(b, i.pane), i.line.value, None);
  }

  // While calls to Herdr may fail, the shadow of the pane still is what the pane was made to hold, and
  // after an acknowledged line it is that line.
  lemma LineKeepsTheShadowTrue(fx: Effects, b: Bridge, i: Input)
    requires i.line.Some? && AdmitsLine(b, i)
    ensures ShadowOf(LineApplied(fx, b, i), i.pane)
         == AppliedAll(ShadowOf(b, i.pane), LineOutcome(fx, b, i).calls)
    ensures TakesLine(fx, b, i) ==> ShadowOf(LineApplied(fx, b, i), i.pane) == i.line.value
  {
    ShadowFollowsThePane(ShadowOf(b, i.pane), i.line.value, fx.herdr(b, i));
  }

  lemma OneRequestMerges(fx: Effects, b: Bridge, run: seq<Request>, pane: string)
    requires IsRun(run, pane) && |run| == 1
    ensures MergedRun(fx, b, run) == ServedAll(fx, b, run)
  {
    var c, reply := LineApplied(fx, b, run[0].input), Ack(pane, TakesLine(fx, b, run[0].input), run[0].corr);
    assert run[1..] == [] && CorrsOf(run) == [run[0].corr];
    assert AllAcked(pane, reply.accepted, [run[0].corr]) == [reply];
    assert ServedAll(fx, c, []) == (c, []);
    assert [reply] + [] == [reply];
  }

  // A run that carries the bypass flag throughout reaches no call, so it merges whatever Herdr does.
  lemma {:induction false} BypassingRunMerges(fx: Effects, b: Bridge, run: seq<Request>, pane: string)
    requires IsRun(run, pane) && AllBypass(run)
    ensures MergedRun(fx, b, run) == ServedAll(fx, b, run)
    decreases |run|
  {
    if |run| == 1 {
      OneRequestMerges(fx, b, run, pane);
    } else {
      var rest := run[1..];
      assert forall k :: 0 <= k < |rest| ==> rest[k] == run[k + 1];
      BypassingRunMerges(fx, b, rest, pane);
      assert rest[|rest| - 1] == run[|run| - 1];
    }
  }

  // With every call accepted, the rest of a run merges to the same, after its first line is in place.
  lemma FirstLineIsOvertaken(fx: Effects, b: Bridge, run: seq<Request>, pane: string)
    requires Reliable(fx) && IsRun(run, pane) && NoneBypasses(run) && |run| > 1 && IsRun(run[1..], pane)
    ensures var c := LineApplied(fx, b, run[0].input);
      && MergedRun(fx, b, run).0 == MergedRun(fx, c, run[1..]).0
      && MergedRun(fx, b, run).1
         == [Ack(pane, TakesLine(fx, b, run[0].input), run[0].corr)] + MergedRun(fx, c, run[1..]).1
  {
    var c, rest, newest := LineApplied(fx, b, run[0].input), run[1..], run[|run| - 1].input;
    assert rest[|rest| - 1] == run[|run| - 1];
    ReliableLine(fx, b, run[0].input);
    ReliableLine(fx, b, newest);
    ReliableLine(fx, c, newest);
    if b.watched == Some(pane) {
      assert c.lines[pane := newest.line.value] == b.lines[pane := newest.line.value];
    }
  }

  // With every call accepted, a run without the flag merges without a trace.
  lemma {:induction false} PlainRunMerges(fx: Effects, b: Bridge, run: seq<Request>, pane: string)
    requires Reliable(fx) && IsRun(run, pane) && NoneBypasses(run)
    ensures MergedRun(fx, b, run) == ServedAll(fx, b, run)
    decreases |run|
  {
    if |run| == 1 {
      OneRequestMerges(fx, b, run, pane);
    } else {
      var rest := run[1..];
      assert forall k :: 0 <= k < |rest| ==> rest[k] == run[k + 1];
      FirstLineIsOvertaken(fx, b, run, pane);
      PlainRunMerges(fx, LineApplied(fx, b, run[0].input), rest, pane);
    }
  }

  // The replies of serving a run one by one, every call accepted: each says whether its own flag let
  // it through.
  lemma {:induction false} RunReplies(fx: Effects, b: Bridge, run: seq<Request>, pane: string, k: nat)
    requires Reliable(fx) && IsRun(run, pane) && k < |run|
    ensures |ServedAll(fx, b, run).1| == |run|
    ensures ServedAll(fx, b, run).1[k] == Ack(pane, b.watched == Some(pane) && !run[k].input.bypassLine, run[k].corr)
    decreases |run|
  {
    var c, rest := LineApplied(fx, b, run[0].input), run[1..];
    ReliableLine(fx, b, run[0].input);
    if rest != [] {
      assert forall j :: 0 <= j < |rest| ==> rest[j] == run[j + 1];
      RunReplies(fx, c, rest, pane, if k == 0 then 0 else k - 1);
    }
  }

  lemma {:induction false} AckAt(pane: string, accepted: bool, run: seq<Request>, k: nat)
    requires k < |run|
    ensures |AllAcked(pane, accepted, CorrsOf(run))| == |run|
    ensures AllAcked(pane, accepted, CorrsOf(run))[k] == Ack(pane, accepted, run[k].corr)
  {
    if |run| > 1 {
      AckAt(pane, accepted, run[1..], if k == 0 then 0 else k - 1);
    }
  }

  // Serving one by one answers two requests of the run differently, so merging them shows.
  lemma DifferentAnswersShow(fx: Effects, b: Bridge, run: seq<Request>, pane: string, i: nat, j: nat)
    requires IsRun(run, pane) && i < |run| && j < |run|
    requires var replies := ServedAll(fx, b, run).1;
      |replies| > i && |replies| > j && replies[i].Ack? && replies[j].Ack? && replies[i].accepted != replies[j].accepted
    ensures MergedRun(fx, b, run) != ServedAll(fx, b, run)
  {
    var newest := run[|run| - 1].input;
    AckAt(newest.pane, TakesLine(fx, b, newest), run, i);
    AckAt(newest.pane, TakesLine(fx, b, newest), run, j);
  }

  // With every call accepted, merging a run is the same as serving it one by one, from every state,
  // exactly when the bypass flag is the same throughout. (The merge does not look at the flag.)
  lemma MergesExactlyWhenUniform(fx: Effects, run: seq<Request>, pane: string)
    requires Reliable(fx) && IsRun(run, pane)
    ensures (forall b :: MergedRun(fx, b, run) == ServedAll(fx, b, run)) <==> NoneBypasses(run) || AllBypass(run)
  {
    if NoneBypasses(run) || AllBypass(run) {
      forall b
        ensures MergedRun(fx, b, run) == ServedAll(fx, b, run)
      {
        if AllBypass(run) {
          BypassingRunMerges(fx, b, run, pane);
        } else {
          PlainRunMerges(fx, b, run, pane);
        }
      }
    } else {
      var i :| 0 <= i < |run| && run[i].input.bypassLine;
      var j :| 0 <= j < |run| && !run[j].input.bypassLine;
      var b := Bridge(Some(pane), map[], 0);
      RunReplies(fx, b, run, pane, i);
      RunReplies(fx, b, run, pane, j);
      DifferentAnswersShow(fx, b, run, pane, i, j);
    }
  }

  // ---- when calls to Herdr fail ----

  function Xs(n: nat): (line: Line)
    ensures |line| == n
  {
    seq(n, _ => Grapheme("x"))
  }

  // A pane that holds more than a batch too much, and a Herdr that fails the second call there.
  function Overfull(pane: string, line: Line): Bridge {
    Bridge(Some(pane), map[pane := line + Xs(BATCH + 1)], 0)
  }

  function FailsOnceAt(at: Bridge): Effects {
    Effects((b, i) => if b == at then Some(1) else None, (b, i) => (b, false, []), (b, r) => (b, []), (b, k) => (b, []))
  }

  lemma FirstTwoReplies(fx: Effects, b: Bridge, run: seq<Request>, pane: string)
    requires IsRun(run, pane) && |run| >= 2
    ensures var replies := ServedAll(fx, b, run).1;
      && |replies| >= 2
      && replies[0] == Ack(pane, TakesLine(fx, b, run[0].input), run[0].corr)
      && replies[1] == Ack(pane, TakesLine(fx, LineApplied(fx, b, run[0].input), run[1].input), run[1].corr)
  {
    var c, rest := LineApplied(fx, b, run[0].input), run[1..];
    assert rest[0] == run[1];
    assert ServedAll(fx, c, rest).1[0] == Ack(pane, TakesLine(fx, c, run[1].input), run[1].corr);
  }

  // The first line of such a run fails, the second goes through.
  lemma AFailureShows(run: seq<Request>, pane: string)
    requires IsRun(run, pane) && |run| >= 2 && NoneBypasses(run)
    ensures exists fx, b :: MergedRun(fx, b, run) != ServedAll(fx, b, run)
  {
    var first, second := run[0].input, run[1].input;
    assert StartsRun(run[0]) && StartsRun(run[1]);
    var b := Overfull(pane, first.line.value);
    var fx := FailsOnceAt(b);
    var c := LineApplied(fx, b, first);
    SecondBatchFails(first.line.value, Xs(BATCH + 1));
    assert |ShadowOf(c, pane)| < |ShadowOf(b, pane)|;
    ShadowFollowsThePane(ShadowOf(c, pane), second.line.value, None);
    FirstTwoReplies(fx, b, run, pane);
    DifferentAnswersShow(fx, b, run, pane, 0, 1);
  }

  lemma AMixedRunShows(run: seq<Request>, pane: string)
    requires IsRun(run, pane) && !NoneBypasses(run) && !AllBypass(run)
    ensures exists fx, b :: MergedRun(fx, b, run) != ServedAll(fx, b, run)
  {
    var fx := Effects((b, i) => None, (b, i) => (b, false, []), (b, r) => (b, []), (b, k) => (b, []));
    MergesExactlyWhenUniform(fx, run, pane);
  }

  // Whatever Herdr does, merging a run cannot be told from serving it one by one exactly when it is a
  // single request or carries the bypass flag throughout.
  lemma MergesWhateverHerdrDoesIff(run: seq<Request>, pane: string)
    requires IsRun(run, pane)
    ensures (forall fx, b :: MergedRun(fx, b, run) == ServedAll(fx, b, run)) <==> |run| == 1 || AllBypass(run)
  {
    if |run| == 1 || AllBypass(run) {
      forall fx, b
        ensures MergedRun(fx, b, run) == ServedAll(fx, b, run)
      {
        if AllBypass(run) {
          BypassingRunMerges(fx, b, run, pane);
        } else {
          OneRequestMerges(fx, b, run, pane);
        }
      }
    } else if NoneBypasses(run) {
      AFailureShows(run, pane);
    } else {
      AMixedRunShows(run, pane);
    }
  }

  // ---- the loop, step by step ----

  datatype Stage = Idle(pending: Option<Request>) | Merging(run: seq<Request>)

  datatype Event = Did(request: Request) | Ticked(kind: nat)

  // `log` and `arrived` are history.
  datatype Loop = Loop(
    queue: seq<Request>, stage: Stage, bridge: Bridge, out: seq<Reply>,
    log: seq<Event>, arrived: seq<Request>)

  datatype Step = Arrive(request: Request) | Take | Absorb | Finish | Tick(kind: nat)

  function Begin(b: Bridge): Loop {
    Loop([], Idle(None), b, [], [], [])
  }

  predicate MoreToMerge(s: Loop) {
    s.stage.Merging? && s.stage.run != [] && s.stage.run[0].SendInput?
    && s.queue != [] && Merges(s.queue[0], s.stage.run[0].input.pane)
  }

  predicate Enabled(s: Loop, step: Step) {
    match step
    case Arrive(_) => true
    case Take => s.stage.Idle? && (s.stage.pending.Some? || s.queue != [])
    case Absorb => MoreToMerge(s)
    case Finish => s.stage.Merging? && RunOf(s.stage) && !MoreToMerge(s)
    case Tick(_) => s.stage == Idle(None)
  }

  predicate RunOf(stage: Stage) {
    stage.Merging? ==> stage.run != [] && stage.run[0].SendInput? && IsRun(stage.run, stage.run[0].input.pane)
  }

  function DidAll(requests: seq<Request>): (events: seq<Event>)
    ensures |events| == |requests|
  {
    if requests == [] then [] else [Did(requests[0])] + DidAll(requests[1..])
  }

  function AfterTake(fx: Effects, s: Loop): Loop
    requires Enabled(s, Take)
  {
    var next := if s.stage.pending.Some? then s.stage.pending.value else s.queue[0];
    var t := if s.stage.pending.Some? then s else s.(queue := s.queue[1..]);
    if StartsRun(next) then t.(stage := Merging([next]))
    else
      var (b, replies) := Served(fx, s.bridge, next);
      t.(stage := Idle(None), bridge := b, out := s.out + replies, log := s.log + [Did(next)])
  }

  function AfterFinish(fx: Effects, s: Loop): Loop
    requires Enabled(s, Finish)
  {
    assert forall k :: 0 <= k < |s.stage.run| ==> StartsRun(s.stage.run[k]);
    var (b, replies) := MergedRun(fx, s.bridge, s.stage.run);
    var t := s.(bridge := b, out := s.out + replies, log := s.log + DidAll(s.stage.run));
    if s.queue == [] then t.(stage := Idle(None)) else t.(stage := Idle(Some(s.queue[0])), queue := s.queue[1..])
  }

  function Next(fx: Effects, s: Loop, step: Step): Loop
    requires Enabled(s, step)
  {
    match step
    case Arrive(r) => s.(queue := s.queue + [r], arrived := s.arrived + [r])
    case Take => AfterTake(fx, s)
    case Absorb => s.(stage := Merging(s.stage.run + [s.queue[0]]), queue := s.queue[1..])
    case Finish => AfterFinish(fx, s)
    case Tick(kind) =>
      var (b, replies) := fx.tick(s.bridge, kind);
      s.(bridge := b, out := s.out + Unanswered(replies), log := s.log + [Ticked(kind)])
  }

  predicate Possible(fx: Effects, s: Loop, steps: seq<Step>)
    decreases |steps|
  {
    steps == [] || (Enabled(s, steps[0]) && Possible(fx, Next(fx, s, steps[0]), steps[1..]))
  }

  function Run(fx: Effects, s: Loop, steps: seq<Step>): Loop
    requires Possible(fx, s, steps)
    decreases |steps|
  {
    if steps == [] then s else Run(fx, Next(fx, s, steps[0]), steps[1..])
  }

  // ---- what every run keeps ----

  function RequestsIn(log: seq<Event>): seq<Request> {
    if log == [] then []
    else RequestsIn(log[..|log| - 1]) + (if log[|log| - 1].Did? then [log[|log| - 1].request] else [])
  }

  function InHand(stage: Stage): seq<Request> {
    match stage
    case Idle(None) => []
    case Idle(Some(r)) => [r]
    case Merging(run) => run
  }

  // Taken from the queue but not yet served, then still in it.
  function Waiting(s: Loop): seq<Request> {
    InHand(s.stage) + s.queue
  }

  // Nothing is lost, repeated or overtaken.
  predicate Conserved(s: Loop) {
    RequestsIn(s.log) + Waiting(s) == s.arrived
  }

  // The reference: every logged event on its own, one after the other.
  function Replayed(fx: Effects, b: Bridge, log: seq<Event>): (Bridge, seq<Reply>) {
    if log == [] then (b, [])
    else
      var (c, out) := Replayed(fx, b, log[..|log| - 1]);
      match log[|log| - 1]
      case Did(r) => var (d, replies) := Served(fx, c, r); (d, out + replies)
      case Ticked(kind) => var (d, replies) := fx.tick(c, kind); (d, out + Unanswered(replies))
  }

  // The correlation ids acknowledged, and those of the inputs that are not deferred.
  function AckCorrs(out: seq<Reply>): seq<Corr> {
    if out == [] then []
    else AckCorrs(out[..|out| - 1]) + (if out[|out| - 1].Ack? then [out[|out| - 1].corr] else [])
  }

  predicate IsDirect(r: Request) {
    r.SendInput? && !r.input.deferred
  }

  function DirectCorrs(requests: seq<Request>): seq<Corr> {
    if requests == [] then []
    else
      DirectCorrs(requests[..|requests| - 1])
      + (if IsDirect(requests[|requests| - 1]) then [requests[|requests| - 1].corr] else [])
  }

  ghost predicate Inv(fx: Effects, b: Bridge, s: Loop) {
    && RunOf(s.stage) && Conserved(s)
    && AckCorrs(s.out) == DirectCorrs(RequestsIn(s.log))
    && (Reliable(fx) && NoneBypasses(s.arrived) ==> (s.bridge, s.out) == Replayed(fx, b, s.log))
  }

  lemma OneMoreEvent(fx: Effects, b: Bridge, log: seq<Event>, r: Request)
    ensures RequestsIn(log + [Did(r)]) == RequestsIn(log) + [r]
    ensures var (c, out) := Replayed(fx, b, log);
      Replayed(fx, b, log + [Did(r)]) == (Served(fx, c, r).0, out + Served(fx, c, r).1)
  {
    assert (log + [Did(r)])[..|log|] == log;
  }

  lemma OneMoreTick(fx: Effects, b: Bridge, log: seq<Event>, kind: nat)
    ensures RequestsIn(log + [Ticked(kind)]) == RequestsIn(log)
    ensures var (c, out) := Replayed(fx, b, log);
      Replayed(fx, b, log + [Ticked(kind)]) == (fx.tick(c, kind).0, out + Unanswered(fx.tick(c, kind).1))
  {
    assert (log + [Ticked(kind)])[..|log|] == log;
  }

  lemma DidMore(log: seq<Event>, requests: seq<Request>)
    requires requests != []
    ensures log + DidAll(requests) == (log + [Did(requests[0])]) + DidAll(requests[1..])
  {
  }

  lemma {:induction false} RequestsInSum(a: seq<Event>, c: seq<Event>)
    ensures RequestsIn(a + c) == RequestsIn(a) + RequestsIn(c)
  {
    if c == [] {
      assert a + c == a;
    } else {
      var last := |c| - 1;
      assert (a + c)[..|a + c| - 1] == a + c[..last];
      RequestsInSum(a, c[..last]);
    }
  }

  lemma {:induction false} RequestsInDid(requests: seq<Request>)
    ensures RequestsIn(DidAll(requests)) == requests
  {
    if requests != [] {
      RequestsInDid(requests[1..]);
      RequestsInSum([Did(requests[0])], DidAll(requests[1..]));
      assert RequestsIn([Did(requests[0])]) == [requests[0]];
    }
  }

  // Replaying a log that ends with a run is serving that run one by one from where the log led.
  lemma {:induction false} RunReplayed(fx: Effects, b: Bridge, log: seq<Event>, requests: seq<Request>)
    ensures var (c, out) := Replayed(fx, b, log);
      Replayed(fx, b, log + DidAll(requests)) == (ServedAll(fx, c, requests).0, out + ServedAll(fx, c, requests).1)
    decreases |requests|
  {
    var c, out := Replayed(fx, b, log).0, Replayed(fx, b, log).1;
    if requests == [] {
      assert log + DidAll(requests) == log;
      assert out + [] == out;
    } else {
      var r, rest := requests[0], requests[1..];
      OneMoreEvent(fx, b, log, r);
      RunReplayed(fx, b, log + [Did(r)], rest);
      DidMore(log, requests);
      var d := Served(fx, c, r).0;
      Regroup(out, Served(fx, c, r).1, ServedAll(fx, d, rest).1);
    }
  }

  lemma {:induction false} AckCorrsSum(a: seq<Reply>, c: seq<Reply>)
    ensures AckCorrs(a + c) == AckCorrs(a) + AckCorrs(c)
  {
    if c == [] {
      assert a + c == a;
    } else {
      var last := |c| - 1;
      assert (a + c)[..|a + c| - 1] == a + c[..last];
      AckCorrsSum(a, c[..last]);
    }
  }

  lemma {:induction false} NoAcks(out: seq<Reply>)
    requires forall k :: 0 <= k < |out| ==> out[k].Else?
    ensures AckCorrs(out) == []
  {
    if out != [] {
      NoAcks(out[..|out| - 1]);
    }
  }

  lemma {:induction false} RunAcks(pane: string, accepted: bool, corrs: seq<Corr>)
    ensures AckCorrs(AllAcked(pane, accepted, corrs)) == corrs
  {
    if corrs != [] {
      var first := [Ack(pane, accepted, corrs[0])];
      RunAcks(pane, accepted, corrs[1..]);
      AckCorrsSum(first, AllAcked(pane, accepted, corrs[1..]));
      assert AckCorrs(first) == [corrs[0]];
    }
  }

  lemma {:induction false} DirectCorrsSum(a: seq<Request>, run: seq<Request>)
    requires forall k :: 0 <= k < |run| ==> IsDirect(run[k])
    ensures DirectCorrs(a + run) == DirectCorrs(a) + CorrsOf(run)
  {
    if run == [] {
      assert a + run == a;
    } else {
      var last := |run| - 1;
      assert (a + run)[..|a + run| - 1] == a + run[..last];
      DirectCorrsSum(a, run[..last]);
      assert run == run[..last] + [run[last]];
      CorrsOfMore(run[..last], run[last]);
    }
  }

  lemma OneMoreDirect(requests: seq<Request>, r: Request)
    ensures DirectCorrs(requests + [r]) == DirectCorrs(requests) + (if IsDirect(r) then [r.corr] else [])
  {
    assert (requests + [r])[..|requests|] == requests;
  }

  // One request served alone is acknowledged exactly when it is an input that is not deferred.
  lemma ServedAcks(fx: Effects, b: Bridge, r: Request)
    ensures AckCorrs(Served(fx, b, r).1) == if IsDirect(r) then [r.corr] else []
  {
    if StartsRun(r) {
      assert AckCorrs(Served(fx, b, r).1) == AckCorrs([]) + [r.corr];
    } else if IsDirect(r) {
      var (c, accepted, more) := fx.input(b, r.input);
      NoAcks(Unanswered(more));
      AckCorrsSum([Ack(r.input.pane, accepted, r.corr)], Unanswered(more));
      assert AckCorrs([Ack(r.input.pane, accepted, r.corr)]) == [r.corr];
    } else {
      NoAcks(Unanswered(fx.other(b, r).1));
    }
  }

  lemma TakeKeepsServed(fx: Effects, b: Bridge, s: Loop, next: Request, rest: seq<Request>)
    requires Inv(fx, b, s) && Waiting(s) == [next] + rest
    ensures var t := s.(stage := Idle(None), queue := rest, bridge := Served(fx, s.bridge, next).0,
              out := s.out + Served(fx, s.bridge, next).1, log := s.log + [Did(next)]);
      Inv(fx, b, t)
  {
    ServedAcks(fx, s.bridge, next);
    AckCorrsSum(s.out, Served(fx, s.bridge, next).1);
    OneMoreEvent(fx, b, s.log, next);
    Regroup(RequestsIn(s.log), [next], rest);
    assert [] + rest == rest;
    OneMoreDirect(RequestsIn(s.log), next);
  }

  lemma TakeKeeps(fx: Effects, b: Bridge, s: Loop)
    requires Inv(fx, b, s) && Enabled(s, Take)
    ensures Inv(fx, b, Next(fx, s, Take))
  {
    var next := if s.stage.pending.Some? then s.stage.pending.value else s.queue[0];
    var rest := if s.stage.pending.Some? then s.queue else s.queue[1..];
    assert Waiting(s) == [next] + rest;
    if !StartsRun(next) {
      TakeKeepsServed(fx, b, s, next, rest);
    }
  }

  lemma AbsorbKeeps(fx: Effects, b: Bridge, s: Loop)
    requires Inv(fx, b, s) && Enabled(s, Absorb)
    ensures Inv(fx, b, Next(fx, s, Absorb))
  {
    assert s.queue == [s.queue[0]] + s.queue[1..];
    Regroup(s.stage.run, [s.queue[0]], s.queue[1..]);
  }

  lemma InHandIsArrived(s: Loop, k: nat)
    requires Conserved(s) && k < |InHand(s.stage)|
    ensures |RequestsIn(s.log)| + k < |s.arrived| && s.arrived[|RequestsIn(s.log)| + k] == InHand(s.stage)[k]
  {
  }

  lemma FinishConserves(fx: Effects, s: Loop)
    requires Conserved(s) && Enabled(s, Finish)
    requires RequestsIn(s.log + DidAll(s.stage.run)) == RequestsIn(s.log) + s.stage.run
    ensures Conserved(AfterFinish(fx, s))
  {
    assert Waiting(AfterFinish(fx, s)) == s.queue;
    Regroup(RequestsIn(s.log), s.stage.run, s.queue);
  }

  lemma FinishAcks(fx: Effects, s: Loop)
    requires Enabled(s, Finish) && AckCorrs(s.out) == DirectCorrs(RequestsIn(s.log))
    ensures AckCorrs(AfterFinish(fx, s).out) == DirectCorrs(RequestsIn(s.log) + s.stage.run)
  {
    var run := s.stage.run;
    var pane := run[0].input.pane;
    assert forall k :: 0 <= k < |run| ==> Merges(run[k], pane);
    assert forall k :: 0 <= k < |run| ==> IsDirect(run[k]);
    var newest := run[|run| - 1].input;
    RunAcks(newest.pane, TakesLine(fx, s.bridge, newest), CorrsOf(run));
    AckCorrsSum(s.out, MergedRun(fx, s.bridge, run).1);
    DirectCorrsSum(RequestsIn(s.log), run);
  }

  lemma RunDoesNotBypass(s: Loop)
    requires Conserved(s) && s.stage.Merging? && NoneBypasses(s.arrived)
    ensures NoneBypasses(s.stage.run)
  {
    forall k | 0 <= k < |s.stage.run|
      ensures !(StartsRun(s.stage.run[k]) && s.stage.run[k].input.bypassLine)
    {
      InHandIsArrived(s, k);
    }
  }

  lemma FinishKeeps(fx: Effects, b: Bridge, s: Loop)
    requires Inv(fx, b, s) && Enabled(s, Finish)
    ensures Inv(fx, b, Next(fx, s, Finish))
  {
    RequestsInSum(s.log, DidAll(s.stage.run));
    RequestsInDid(s.stage.run);
    RunReplayed(fx, b, s.log, s.stage.run);
    FinishConserves(fx, s);
    FinishAcks(fx, s);
    if Reliable(fx) && NoneBypasses(s.arrived) {
      RunDoesNotBypass(s);
      PlainRunMerges(fx, s.bridge, s.stage.run, s.stage.run[0].input.pane);
    }
  }

  lemma ArriveKeeps(fx: Effects, b: Bridge, s: Loop, r: Request)
    requires Inv(fx, b, s)
    ensures Inv(fx, b, Next(fx, s, Arrive(r)))
  {
    assert forall k :: 0 <= k < |s.arrived| ==> (s.arrived + [r])[k] == s.arrived[k];
    Regroup(InHand(s.stage), s.queue, [r]);
    Regroup(RequestsIn(s.log), Waiting(s), [r]);
  }

  lemma TickKeeps(fx: Effects, b: Bridge, s: Loop, kind: nat)
    requires Inv(fx, b, s) && Enabled(s, Tick(kind))
    ensures Inv(fx, b, Next(fx, s, Tick(kind)))
  {
    var replies := Unanswered(fx.tick(s.bridge, kind).1);
    NoAcks(replies);
    AckCorrsSum(s.out, replies);
    OneMoreTick(fx, b, s.log, kind);
  }

  lemma StepKeepsInv(fx: Effects, b: Bridge, s: Loop, step: Step)
    requires Inv(fx, b, s) && Enabled(s, step)
    ensures Inv(fx, b, Next(fx, s, step))
  {
    match step
    case Arrive(r) => ArriveKeeps(fx, b, s, r);
    case Take => TakeKeeps(fx, b, s);
    case Absorb => AbsorbKeeps(fx, b, s);
    case Finish => FinishKeeps(fx, b, s);
    case Tick(kind) => TickKeeps(fx, b, s, kind);
  }

  lemma {:induction false} RunKeepsInv(fx: Effects, b: Bridge, s: Loop, steps: seq<Step>)
    requires Inv(fx, b, s) && Possible(fx, s, steps)
    ensures Inv(fx, b, Run(fx, s, steps))
    decreases |steps|
  {
    if steps != [] {
      StepKeepsInv(fx, b, s, steps[0]);
      RunKeepsInv(fx, b, Next(fx, s, steps[0]), steps[1..]);
    }
  }

  // However arrivals interleave with the loop: requests are served in the order they came, none
  // lost or repeated, and each input that is not deferred is acknowledged once, in that order.
  lemma RequestsAreServedInOrder(fx: Effects, b: Bridge, steps: seq<Step>)
    requires Possible(fx, Begin(b), steps)
    ensures var s := Run(fx, Begin(b), steps);
      && RequestsIn(s.log) + (InHand(s.stage) + s.queue) == s.arrived
      && AckCorrs(s.out) == DirectCorrs(RequestsIn(s.log))
  {
    RunKeepsInv(fx, b, Begin(b), steps);
  }

  // While Herdr accepts every call and no line carries the bypass flag, merging cannot be observed: the
  // shadow lines, the rest of the bridge and everything sent are those of serving each request on its
  // own.
  lemma MergingIsInvisible(fx: Effects, b: Bridge, steps: seq<Step>)
    requires Reliable(fx) && Possible(fx, Begin(b), steps)
    requires NoneBypasses(Run(fx, Begin(b), steps).arrived)
    ensures var s := Run(fx, Begin(b), steps); (s.bridge, s.out) == Replayed(fx, b, s.log)
  {
    RunKeepsInv(fx, b, Begin(b), steps);
  }

  function Repeated(step: Step, n: nat): seq<Step> {
    if n == 0 then [] else [step] + Repeated(step, n - 1)
  }

  // Taking one more from the queue, then `n - 1` more, is taking `n`.
  lemma TakeOneThenMore(run: seq<Request>, queue: seq<Request>, n: nat)
    requires 0 < n <= |queue|
    ensures (run + [queue[0]]) + queue[1..][..n - 1] == run + queue[..n]
    ensures queue[1..][n - 1..] == queue[n..]
  {
    assert queue[..n] == [queue[0]] + queue[1..][..n - 1];
  }

  // Stepping with nothing arriving takes up the requests that `CoalesceInput` takes up in one go.
  lemma {:induction false} QuietStepsTakeTheRun(fx: Effects, s: Loop, n: nat)
    requires s.stage.Merging? && RunOf(s.stage) && n <= RunLength(s.queue, s.stage.run[0].input.pane)
    ensures Possible(fx, s, Repeated(Absorb, n))
    ensures Run(fx, s, Repeated(Absorb, n)) == s.(stage := Merging(s.stage.run + s.queue[..n]), queue := s.queue[n..])
    decreases n
  {
    if n == 0 {
      assert s.stage.run + s.queue[..0] == s.stage.run;
    } else {
      QuietStepsTakeTheRun(fx, Next(fx, s, Absorb), n - 1);
      TakeOneThenMore(s.stage.run, s.queue, n);
    }
  }

  // ---- a run in which the flag is mixed ----

  // Two lines for one pane, the second with the flag, arrive before the first is finished: the loop
  // refuses both and leaves the line alone, where one by one the first would have been taken.
  lemma AMixedRunIsReached(fx: Effects, pane: string, line: Line, other: Line)
    requires Reliable(fx)
    ensures var b := Bridge(Some(pane), map[], 0);
      var r := SendInput(Input(pane, Some(line), None, None, false, false), None);
      var q := SendInput(Input(pane, Some(other), None, None, false, true), None);
      var steps := [Arrive(r), Arrive(q), Take, Absorb, Finish];
      && Possible(fx, Begin(b), steps)
      && var s := Run(fx, Begin(b), steps);
      && pane !in s.bridge.lines && s.out == [Ack(pane, false, None), Ack(pane, false, None)]
      && Replayed(fx, b, s.log).0.lines == map[pane := line]
  {
    var b := Bridge(Some(pane), map[], 0);
    var r := SendInput(Input(pane, Some(line), None, None, false, false), None);
    var q := SendInput(Input(pane, Some(other), None, None, false, true), None);
    StepsToMerging(fx, b, r, q);
    RefusesBoth(fx, b, r, q, pane);
    TakesTheFirst(fx, b, r, q);
    ReliableLine(fx, b, r.input);
  }

  lemma RefusesBoth(fx: Effects, b: Bridge, r: Request, q: Request, pane: string)
    requires Merges(r, pane) && Merges(q, pane) && q.input.bypassLine && r.corr == q.corr == None
    ensures var merging := Loop([], Merging([r, q]), b, [], [], [r, q]);
      && Enabled(merging, Finish)
      && var s := Next(fx, merging, Finish);
      && s.bridge == b && s.out == [Ack(pane, false, None), Ack(pane, false, None)] && s.log == [Did(r), Did(q)]
  {
    var none: seq<Corr>, nobody: seq<Corr> := [None], [None, None];
    assert [r, q][1..] == [q] && [q][1..] == [] && nobody[1..] == none && none[1..] == [];
    assert CorrsOf([q]) == none;
    assert CorrsOf([r, q]) == nobody;
    assert AllAcked(pane, false, none) == [Ack(pane, false, None)];
    assert AllAcked(pane, false, nobody) == [Ack(pane, false, None), Ack(pane, false, None)];
    assert DidAll([q]) == [Did(q)];
    assert DidAll([r, q]) == [Did(r), Did(q)];
  }

  lemma TakesTheFirst(fx: Effects, b: Bridge, r: Request, q: Request)
    requires StartsRun(r) && StartsRun(q) && q.input.bypassLine
    ensures Replayed(fx, b, [Did(r), Did(q)]).0 == LineApplied(fx, b, r.input)
  {
    assert [Did(r), Did(q)][..1] == [Did(r)] && [Did(r)][..0] == [];
    assert Replayed(fx, b, [Did(r)]).0 == LineApplied(fx, b, r.input);
  }

  lemma StepsToMerging(fx: Effects, b: Bridge, r: Request, q: Request)
    requires StartsRun(r) && Merges(q, r.input.pane)
    ensures var merging := Loop([], Merging([r, q]), b, [], [], [r, q]);
      Enabled(merging, Finish) ==>
        && Possible(fx, Begin(b), [Arrive(r), Arrive(q), Take, Absorb, Finish])
        && Run(fx, Begin(b), [Arrive(r), Arrive(q), Take, Absorb, Finish]) == Next(fx, merging, Finish)
  {
    var steps := [Arrive(r), Arrive(q), Take, Absorb, Finish];
    var s0 := Begin(b);
    var s1 := Loop([r], Idle(None), b, [], [], [r]);
    var s2 := Loop([r, q], Idle(None), b, [], [], [r, q]);
    var s3 := Loop([q], Merging([r]), b, [], [], [r, q]);
    var s4 := Loop([], Merging([r, q]), b, [], [], [r, q]);
    assert Next(fx, s0, steps[0]) == s1;
    assert Next(fx, s1, steps[1]) == s2;
    assert Next(fx, s2, steps[2]) == s3;
    assert Next(fx, s3, steps[3]) == s4;
    assert steps[1..][1..] == [Take, Absorb, Finish] && [Take, Absorb, Finish][1..][1..] == [Finish];
    if Enabled(s4, Finish) {
      assert [Finish][1..] == [];
      assert Possible(fx, s4, [Finish]) && Run(fx, s4, [Finish]) == Next(fx, s4, Finish);
      assert Possible(fx, s3, [Absorb, Finish]) && Run(fx, s3, [Absorb, Finish]) == Next(fx, s4, Finish) by {
        assert [Absorb, Finish][1..] == [Finish];
      }
      assert Possible(fx, s2, [Take, Absorb, Finish]) && Run(fx, s2, [Take, Absorb, Finish]) == Next(fx, s4, Finish) by {
        assert [Take, Absorb, Finish][1..] == [Absorb, Finish];
      }
      assert Possible(fx, s1, steps[1..]) && Run(fx, s1, steps[1..]) == Next(fx, s4, Finish);
    }
  }
}
