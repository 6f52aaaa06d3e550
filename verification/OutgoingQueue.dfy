/**
 What the bridge sends to the Device in one go: every waiting message, less the pane frames that a
 later frame of the same pane in the batch replaces.
 */
module OutgoingQueue {
  import opened Prelude

  datatype Message = PaneFrame(pane: string, content: nat) | Other(content: nat)

  datatype Outgoing = Outgoing(message: Message, corr: Option<string>)

  predicate IsFrameOf(m: Outgoing, pane: string) {
    m.message.PaneFrame? && m.message.pane == pane
  }

  predicate HasFrameOf(batch: seq<Outgoing>, pane: string) {
    exists k :: 0 <= k < |batch| && IsFrameOf(batch[k], pane)
  }

  predicate Replaced(m: Outgoing, later: seq<Outgoing>) {
    m.message.PaneFrame? && HasFrameOf(later, m.message.pane)
  }

  // The batch without the frames that a later one replaces.
  function Latest(batch: seq<Outgoing>): seq<Outgoing> {
    if batch == [] then []
    else (if Replaced(batch[0], batch[1..]) then [] else [batch[0]]) + Latest(batch[1..])
  }

  function Reversed<T>(s: seq<T>): (r: seq<T>)
    ensures |r| == |s|
    ensures forall k :: 0 <= k < |s| ==> r[k] == s[|s| - 1 - k]
  {
    seq(|s|, k requires 0 <= k < |s| => s[|s| - 1 - k])
  }

  lemma ReversedSum<T>(a: seq<T>, x: T)
    ensures Reversed(a + [x]) == [x] + Reversed(a)
  {
  }

  class Outbox {
    var queue: seq<Outgoing>

    constructor (waiting: seq<Outgoing>)
      ensures queue == waiting
    {
      queue := waiting;
    }

    method Drain(first: Outgoing) returns (batch: seq<Outgoing>)
      modifies this
      ensures queue == [] && batch == Latest([first] + old(queue))
    {
      batch := [first];
      while queue != []
        invariant batch + queue == [first] + old(queue)
        decreases |queue|
      {
        batch := batch + [queue[0]];
        queue := queue[1..];
      }
      assert batch + queue == batch;
      batch := KeepLatest(batch);
    }
  }

  // Walks the batch backwards and keeps the first frame met for each pane.
  method KeepLatest(batch: seq<Outgoing>) returns (kept: seq<Outgoing>)
    ensures kept == Latest(batch)
  {
    var backwards := Reversed(batch);
    var panes: set<string> := {};
    kept := [];
    for i := 0 to |backwards|
      invariant forall pane :: pane in panes <==> HasFrameOf(batch[|batch| - i..], pane)
      invariant Reversed(kept) == Latest(batch[|batch| - i..])
    {
      var m := backwards[i];
      ghost var later, more := batch[|batch| - i..], batch[|batch| - i - 1..];
      assert m == more[0] && more[1..] == later;
      HasFrameOfMore(m, later);
      if m.message.PaneFrame? {
        if m.message.pane !in panes {
          panes := panes + {m.message.pane};
          ReversedSum(kept, m);
          kept := kept + [m];
        }
      } else {
        ReversedSum(kept, m);
        kept := kept + [m];
      }
      assert more == [m] + later;
    }
    assert batch[|batch| - |backwards|..] == batch;
    kept := Reversed(kept);
  }

  lemma HasFrameOfMore(m: Outgoing, later: seq<Outgoing>)
    ensures forall pane :: HasFrameOf([m] + later, pane) <==> IsFrameOf(m, pane) || HasFrameOf(later, pane)
  {
    forall pane
      ensures HasFrameOf([m] + later, pane) <==> IsFrameOf(m, pane) || HasFrameOf(later, pane)
    {
      if IsFrameOf(m, pane) {
        assert IsFrameOf(([m] + later)[0], pane);
      } else if HasFrameOf(later, pane) {
        var k :| 0 <= k < |later| && IsFrameOf(later[k], pane);
        assert IsFrameOf(([m] + later)[k + 1], pane);
      }
    }
  }

  // ---- what the Device sees ----

  predicate IsSubsequence<T(==)>(a: seq<T>, b: seq<T>)
    decreases |b|
  {
    a == [] || (b != [] && ((a[0] == b[0] && IsSubsequence(a[1..], b[1..])) || IsSubsequence(a, b[1..])))
  }

  function OthersOf(batch: seq<Outgoing>): seq<Outgoing> {
    if batch == [] then []
    else (if batch[0].message.PaneFrame? then [] else [batch[0]]) + OthersOf(batch[1..])
  }

  function FramesOf(batch: seq<Outgoing>, pane: string): seq<Outgoing> {
    if batch == [] then []
    else
      (match batch[0].message case PaneFrame(of, _) => if of == pane then [batch[0]] else [] case Other(_) => [])
      + FramesOf(batch[1..], pane)
  }

  // Nothing is added or reordered.
  lemma {:induction false} LatestIsASubsequence(batch: seq<Outgoing>)
    ensures IsSubsequence(Latest(batch), batch)
  {
    if batch != [] {
      LatestIsASubsequence(batch[1..]);
      if Replaced(batch[0], batch[1..]) {
        assert Latest(batch) == Latest(batch[1..]);
      } else {
        assert Latest(batch)[1..] == Latest(batch[1..]);
      }
    }
  }

  // Every message that is not a frame is kept, in order.
  lemma {:induction false} LatestKeepsOthers(batch: seq<Outgoing>)
    ensures OthersOf(Latest(batch)) == OthersOf(batch)
  {
    if batch != [] {
      LatestKeepsOthers(batch[1..]);
      if Replaced(batch[0], batch[1..]) {
        assert Latest(batch) == Latest(batch[1..]);
      } else {
        assert Latest(batch)[1..] == Latest(batch[1..]);
      }
    }
  }

  lemma {:induction false} NoFrames(batch: seq<Outgoing>, pane: string)
    ensures HasFrameOf(batch, pane) <==> FramesOf(batch, pane) != []
  {
    if batch != [] {
      NoFrames(batch[1..], pane);
      HasFrameOfMore(batch[0], batch[1..]);
      assert batch == [batch[0]] + batch[1..];
    }
  }

  // Of each pane's frames exactly the last is kept.
  lemma {:induction false} LatestKeepsTheLastFrame(batch: seq<Outgoing>, pane: string)
    ensures var frames := FramesOf(batch, pane);
      FramesOf(Latest(batch), pane) == if frames == [] then [] else [frames[|frames| - 1]]
  {
    if batch != [] {
      var first, rest := batch[0], batch[1..];
      LatestKeepsTheLastFrame(rest, pane);
      NoFrames(rest, pane);
      if Replaced(first, rest) {
        assert Latest(batch) == Latest(rest);
      } else {
        assert Latest(batch)[1..] == Latest(rest);
      }
    }
  }

  // A Device that holds the latest frame of each pane and every other message in order.
  datatype View = View(frames: map<string, Outgoing>, others: seq<Outgoing>)

  function Seen(v: View, m: Outgoing): View {
    if m.message.PaneFrame? then v.(frames := v.frames[m.message.pane := m]) else v.(others := v.others + [m])
  }

  function Receive(v: View, batch: seq<Outgoing>): View
    decreases |batch|
  {
    if batch == [] then v else Receive(Seen(v, batch[0]), batch[1..])
  }

  // A frame that the batch replaces leaves no trace.
  lemma {:induction false} ReplacedFrameLeavesNoTrace(v: View, batch: seq<Outgoing>, m: Outgoing)
    requires m.message.PaneFrame? && HasFrameOf(batch, m.message.pane)
    ensures Receive(Seen(v, m), batch) == Receive(v, batch)
    decreases |batch|
  {
    var pane, first, rest := m.message.pane, batch[0], batch[1..];
    var w := Seen(v, m);
    assert batch == [first] + rest;
    HasFrameOfMore(first, rest);
    if IsFrameOf(first, pane) {
      assert w.frames[pane := first] == v.frames[pane := first];
    } else {
      ReplacedFrameLeavesNoTrace(Seen(v, first), rest, m);
      assert Seen(w, first) == Seen(Seen(v, first), m) by {
        if first.message.PaneFrame? {
          var other := first.message.pane;
          assert w.frames[other := first] == v.frames[other := first][pane := m];
        }
      }
    }
  }

  // The Device ends where the whole batch would have taken it, whatever it held before.
  lemma {:induction false} DeviceEndsTheSame(v: View, batch: seq<Outgoing>)
    ensures Receive(v, Latest(batch)) == Receive(v, batch)
    decreases |batch|
  {
    if batch != [] {
      var m, rest := batch[0], batch[1..];
      if Replaced(m, rest) {
        assert Latest(batch) == Latest(rest);
        DeviceEndsTheSame(v, rest);
        ReplacedFrameLeavesNoTrace(v, rest, m);
      } else {
        assert Latest(batch)[1..] == Latest(rest);
        DeviceEndsTheSame(Seen(v, m), rest);
      }
    }
  }
}
