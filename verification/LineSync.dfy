/**
 Bringing a pane's input line from what it holds to what the Device wants: backspaces in batches of at
 most 64 down to the common prefix, then the rest typed. Every call to Herdr may fail, and the bridge
 keeps a shadow of the line. A line is a sequence of graphemes.
 */
module LineSync {
  import opened Prelude

  const BATCH: nat := 64

  datatype Grapheme = Grapheme(text: string)
  type Line = seq<Grapheme>

  // A call to Herdr that went through.
  datatype Call = Backspaces(count: nat) | Typed(text: Line)

  // What the pane's line becomes.
  function Applied(line: Line, call: Call): Line {
    match call
    case Backspaces(n) => if n <= |line| then line[..|line| - n] else []
    case Typed(text) => line + text
  }

  function AppliedAll(line: Line, calls: seq<Call>): Line {
    if calls == [] then line else Applied(AppliedAll(line, calls[..|calls| - 1]), calls[|calls| - 1])
  }

  function CommonPrefix(a: Line, b: Line): (n: nat)
    ensures n <= |a| && n <= |b| && a[..n] == b[..n]
    ensures n < |a| && n < |b| ==> a[n] != b[n]
  {
    if a == [] || b == [] || a[0] != b[0] then 0
    else
      var n := CommonPrefix(a[1..], b[1..]);
      assert a[..n + 1] == [a[0]] + a[1..][..n] && b[..n + 1] == [b[0]] + b[1..][..n];
      n + 1
  }

  // `ok`: every call went through. `shadow` is what the bridge believes the line to hold, `calls`
  // what Herdr accepted.
  datatype Outcome = Outcome(ok: bool, shadow: Line, calls: seq<Call>)

  function Smaller(a: nat, b: nat): nat {
    if a < b then a else b
  }

  // `failing` is the index of the call that fails, if one does.
  function Erased(was: Line, remove: nat, calls: seq<Call>, failing: Option<nat>): Outcome
    requires remove <= |was|
    decreases remove
  {
    if remove == 0 then Outcome(true, was, calls)
    else if failing == Some(|calls|) then Outcome(false, was, calls)
    else
      var count := Smaller(remove, BATCH);
      Erased(was[..|was| - count], remove - count, calls + [Backspaces(count)], failing)
  }

  // Typing the tail once the rest is erased.
  function Completed(erased: Outcome, line: Line, tail: Line, failing: Option<nat>): Outcome {
    if !erased.ok || (tail != [] && failing == Some(|erased.calls|)) then erased.(ok := false)
    else if tail == [] then Outcome(true, line, erased.calls)
    else Outcome(true, line, erased.calls + [Typed(tail)])
  }

  function Reconciled(was: Line, line: Line, failing: Option<nat>): Outcome {
    var prefix := CommonPrefix(was, line);
    Completed(Erased(was, |was| - prefix, [], failing), line, line[prefix..], failing)
  }

  method ReconcileLine(was: Line, line: Line, failing: Option<nat>) returns (r: Outcome)
    ensures r == Reconciled(was, line, failing)
  {
    var prefix := CommonPrefix(was, line);
    var remaining := |was| - prefix;
    var shadow, calls: seq<Call> := was, [];
    while remaining != 0
      invariant 0 <= remaining <= |shadow|
      invariant Erased(shadow, remaining, calls, failing) == Erased(was, |was| - prefix, [], failing)
      decreases remaining
    {
      var count := if remaining < BATCH then remaining else BATCH;
      if failing == Some(|calls|) {
        return Outcome(false, shadow, calls);
      }
      shadow := shadow[..|shadow| - count];
      calls := calls + [Backspaces(count)];
      remaining := remaining - count;
    }
    var tail := line[prefix..];
    if tail != [] {
      if failing == Some(|calls|) {
        return Outcome(false, shadow, calls);
      }
      calls := calls + [Typed(tail)];
    }
    r := Outcome(true, line, calls);
  }

  lemma OneMoreCall(line: Line, calls: seq<Call>, call: Call)
    ensures AppliedAll(line, calls + [call]) == Applied(AppliedAll(line, calls), call)
  {
    assert (calls + [call])[..|calls|] == calls;
  }

  // Whether or not a batch fails, the shadow is what the accepted calls made of the line.
  lemma {:induction false} ErasingIsFollowed(start: Line, was: Line, remove: nat, calls: seq<Call>, failing: Option<nat>)
    requires remove <= |was| && AppliedAll(start, calls) == was
    ensures var e := Erased(was, remove, calls, failing);
      && AppliedAll(start, e.calls) == e.shadow
      && |was| - remove <= |e.shadow| && e.shadow <= was
      && (e.ok ==> |e.shadow| == |was| - remove) && (failing == None ==> e.ok)
    decreases remove
  {
    if remove != 0 && failing != Some(|calls|) {
      var count := Smaller(remove, BATCH);
      var shorter := was[..|was| - count];
      OneMoreCall(start, calls, Backspaces(count));
      ErasingIsFollowed(start, shorter, remove - count, calls + [Backspaces(count)], failing);
    }
  }

  // Typing what the wanted line has beyond the common prefix completes it.
  lemma CompletingIsFollowed(was: Line, line: Line, prefix: nat, erased: Outcome, failing: Option<nat>)
    requires prefix <= |line| && prefix <= |was| && was[..prefix] == line[..prefix]
    requires AppliedAll(was, erased.calls) == erased.shadow && erased.shadow <= was && prefix <= |erased.shadow|
    requires erased.ok ==> |erased.shadow| == prefix
    ensures var r := Completed(erased, line, line[prefix..], failing);
      && AppliedAll(was, r.calls) == r.shadow
      && (r.ok ==> r.shadow == line) && (erased.ok && failing == None ==> r.ok)
      && (!r.ok ==> r.shadow <= was && prefix <= |r.shadow|)
  {
    var tail := line[prefix..];
    assert line == line[..prefix] + tail;
    OneMoreCall(was, erased.calls, Typed(tail));
  }

  // Whatever fails, the shadow is what the pane holds; when nothing fails both are the wanted line.
  lemma ShadowFollowsThePane(was: Line, line: Line, failing: Option<nat>)
    ensures var r := Reconciled(was, line, failing);
      && AppliedAll(was, r.calls) == r.shadow
      && (r.ok ==> r.shadow == line) && (failing == None ==> r.ok)
      && (!r.ok ==> r.shadow <= was && CommonPrefix(was, line) <= |r.shadow|)
  {
    var prefix := CommonPrefix(was, line);
    ErasingIsFollowed(was, was, |was| - prefix, [], failing);
    CompletingIsFollowed(was, line, prefix, Erased(was, |was| - prefix, [], failing), failing);
  }

  function Backspaced(calls: seq<Call>): nat {
    if calls == [] then 0
    else Backspaced(calls[..|calls| - 1]) + (if calls[|calls| - 1].Backspaces? then calls[|calls| - 1].count else 0)
  }

  // No call carries more than a batch.
  predicate InBatches(calls: seq<Call>) {
    forall k :: 0 <= k < |calls| && calls[k].Backspaces? ==> 0 < calls[k].count <= BATCH
  }

  lemma OneMoreBatch(calls: seq<Call>, call: Call)
    ensures Backspaced(calls + [call]) == Backspaced(calls) + if call.Backspaces? then call.count else 0
  {
    assert (calls + [call])[..|calls|] == calls;
  }

  lemma {:induction false} ErasesAtMost(was: Line, remove: nat, calls: seq<Call>, failing: Option<nat>)
    requires remove <= |was| && InBatches(calls)
    ensures var e := Erased(was, remove, calls, failing);
      Backspaced(e.calls) <= Backspaced(calls) + remove && InBatches(e.calls)
    decreases remove
  {
    if remove != 0 && failing != Some(|calls|) {
      var count := Smaller(remove, BATCH);
      OneMoreBatch(calls, Backspaces(count));
      ErasesAtMost(was[..|was| - count], remove - count, calls + [Backspaces(count)], failing);
    }
  }

  // The calls never erase more than the old line has beyond what the two lines share, 64 graphemes at
  // a time.
  lemma ErasesOnlyTheDifference(was: Line, line: Line, failing: Option<nat>)
    ensures var calls := Reconciled(was, line, failing).calls;
      Backspaced(calls) <= |was| - CommonPrefix(was, line) && InBatches(calls)
  {
    var prefix := CommonPrefix(was, line);
    ErasesAtMost(was, |was| - prefix, [], failing);
    CompletingErasesNothing(Erased(was, |was| - prefix, [], failing), line, line[prefix..], failing);
  }

  lemma CompletingErasesNothing(erased: Outcome, line: Line, tail: Line, failing: Option<nat>)
    requires InBatches(erased.calls)
    ensures var r := Completed(erased, line, tail, failing);
      Backspaced(r.calls) == Backspaced(erased.calls) && InBatches(r.calls)
  {
    OneMoreBatch(erased.calls, Typed(tail));
  }

  // ---- which calls are made ----

  // How many batches erase `n` graphemes.
  function Batches(n: nat): nat {
    (n + 63) / 64
  }

  predicate AllBackspaces(calls: seq<Call>) {
    forall k :: 0 <= k < |calls| ==> calls[k].Backspaces?
  }

  lemma {:induction false} ErasedUpToTheFailure(was: Line, remove: nat, calls: seq<Call>, failing: Option<nat>)
    requires remove <= |was| && (failing.Some? ==> |calls| <= failing.value)
    ensures var all, e := Erased(was, remove, calls, None), Erased(was, remove, calls, failing);
      && all.ok && calls <= all.calls && |all.calls| == |calls| + Batches(remove)
      && (forall k :: |calls| <= k < |all.calls| ==> all.calls[k].Backspaces?)
      && (e.ok <==> failing == None || |all.calls| <= failing.value)
      && e.calls == if e.ok then all.calls else all.calls[..failing.value]
    decreases remove
  {
    if remove != 0 {
      var count := Smaller(remove, BATCH);
      var more := calls + [Backspaces(count)];
      var later := if failing == Some(|calls|) then None else failing;
      ErasedUpToTheFailure(was[..|was| - count], remove - count, more, later);
      assert Batches(remove) == 1 + Batches(remove - count);
      assert more[..|calls|] == calls;
    }
  }

  lemma TypedUpToTheFailure(all: Outcome, e: Outcome, line: Line, tail: Line, failing: Option<nat>)
    requires all.ok && (e.ok <==> failing == None || |all.calls| <= failing.value)
    requires e.calls == if e.ok then all.calls else all.calls[..failing.value]
    ensures var calls, r := Completed(all, line, tail, None).calls, Completed(e, line, tail, failing);
      && calls == all.calls + (if tail == [] then [] else [Typed(tail)])
      && (r.ok <==> failing == None || |calls| <= failing.value)
      && r.calls == if r.ok then calls else calls[..failing.value]
  {
    assert all.calls + [] == all.calls;
    if tail != [] && failing.Some? && failing.value <= |all.calls| {
      assert (all.calls + [Typed(tail)])[..failing.value] == all.calls[..failing.value];
      assert all.calls[..|all.calls|] == all.calls;
    }
  }

  // When nothing fails, the calls are as few backspaces as batches of 64 allow, then the tail typed if
  // there is one. When a call fails, exactly those before it were made.
  lemma CallsUpToTheFailure(was: Line, line: Line, failing: Option<nat>) returns (erasing: seq<Call>)
    ensures AllBackspaces(erasing) && |erasing| == Batches(|was| - CommonPrefix(was, line))
    ensures var all, r := Reconciled(was, line, None).calls, Reconciled(was, line, failing);
      var tail := line[CommonPrefix(was, line)..];
      && all == erasing + (if tail == [] then [] else [Typed(tail)])
      && (r.ok <==> failing == None || |all| <= failing.value)
      && r.calls == if r.ok then all else all[..failing.value]
  {
    var prefix := CommonPrefix(was, line);
    var all, e := Erased(was, |was| - prefix, [], None), Erased(was, |was| - prefix, [], failing);
    ErasedUpToTheFailure(was, |was| - prefix, [], failing);
    TypedUpToTheFailure(all, e, line, line[prefix..], failing);
    erasing := all.calls;
  }

  lemma {:induction false} CommonPrefixOfExtension(line: Line, more: Line)
    ensures CommonPrefix(line + more, line) == |line|
  {
    if line != [] {
      assert (line + more)[1..] == line[1..] + more;
      CommonPrefixOfExtension(line[1..], more);
    }
  }

  // Erasing more than one batch stops short when the second call fails.
  lemma SecondBatchFails(line: Line, more: Line)
    requires |more| == BATCH + 1
    ensures var r := Reconciled(line + more, line, Some(1)); !r.ok && |r.shadow| == |line| + 1
  {
    CommonPrefixOfExtension(line, more);
    assert Erased(line + more, BATCH + 1, [], Some(1)).calls == [Backspaces(BATCH)];
  }
}
