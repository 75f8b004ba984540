/** Replay empties the spool in the order in which it was filled, and stops at the first refusal. */
module ReplayLaws {
  import opened Outcomes
  import opened RetryLaws
  import opened Shipping
  import opened ShippingLaws
  import opened SpoolQueue
  import opened Wrappers

  /** The files a replay can send, in order. */
  function Deliverables(q: Queue): Queue {
    if q == [] then []
    else (if Deliverable(q[0]) then [q[0]] else []) + Deliverables(q[1..])
  }

  lemma {:induction false} PeekKeepsDeliverables(q: Queue)
    ensures Deliverables(Peeked(q)) == Deliverables(q)
    ensures Peeked(q) == [] ==> Deliverables(q) == []
    ensures Peeked(q) != [] ==> Deliverables(q) == [Peeked(q)[0]] + Deliverables(Peeked(q)[1..])
  {
    if q != [] && !Deliverable(q[0]) {
      PeekKeepsDeliverables(q[1..]);
    }
  }

  /** The number of files settled, out of `n`: attempts that are not to be retried, up to the first
      that is. */
  function SettledCount(turns: seq<Turn>, n: nat): (r: nat)
    ensures r <= n
    ensures forall i | 0 <= i < r :: OutcomeAt(true, turns, i) != Retry
    ensures r < n ==> OutcomeAt(true, turns, r) == Retry
  {
    if n == 0 || OutcomeAt(true, turns, 0) == Retry then 0
    else
      var r := SettledCount(LaterTurns(turns), n - 1);
      assert forall i :: 0 < i ==> OutcomeAt(true, turns, i) == OutcomeAt(true, LaterTurns(turns), i - 1);
      r + 1
  }

  function ShippedCount(turns: seq<Turn>, r: nat): nat {
    if r == 0 then 0
    else (if OutcomeAt(true, turns, 0) == Shipped then 1 else 0) + ShippedCount(LaterTurns(turns), r - 1)
  }

  /** The posts of a replay: file by file. */
  function Posts(q: Queue, turns: seq<Turn>, k: nat): seq<Exchange>
    requires k <= |q|
  {
    seq(k, i requires 0 <= i < k => Exchange(q[i].batch, TurnAt(turns, i).answer))
  }

  function Min(a: nat, b: nat): nat {
    if a <= b then a else b
  }

  ghost predicate IsSuffix(a: Queue, b: Queue) {
    |a| <= |b| && a == b[|b| - |a|..]
  }

  lemma SuffixIsTransitive(a: Queue, b: Queue, c: Queue)
    requires IsSuffix(a, b) && IsSuffix(b, c)
    ensures IsSuffix(a, c)
  {
    assert c[|c| - |b|..][|b| - |a|..] == c[|c| - |a|..];
  }

  lemma PeekedIsSuffix(q: Queue)
    ensures IsSuffix(Peeked(q), q)
  {
    assert q == Skipped(q) + Peeked(q);
  }

  /** Replay, as far as the spool and the network see it. */
  datatype Drain = Drain(left: Queue, posts: seq<Exchange>, taken: nat)

  function Drained(q: Queue, turns: seq<Turn>, maxFiles: nat): Drain
    decreases maxFiles
  {
    var p := Peeked(q);
    if maxFiles == 0 then Drain(q, [], 0)
    else if p == [] then Drain(p, [], 0)
    else
      var post := [Exchange(p[0].batch, TurnAt(turns, 0).answer)];
      if OutcomeAt(true, turns, 0) == Retry then Drain(p, post, 0)
      else
        var d := Drained(p[1..], LaterTurns(turns), maxFiles - 1);
        Drain(d.left, post + d.posts, d.taken + if OutcomeAt(true, turns, 0) == Shipped then 1 else 0)
  }

  /** The state once the oldest deliverable file is settled. */
  function NextState(s: State): State
    requires s.spool.Some? && Peeked(s.spool.value.files) != [] && OutcomeNow(s) != Retry
  {
    Settled(Posted(Looked(s), Peeked(s.spool.value.files)[0].batch), OutcomeNow(s))
  }

  lemma ReplayStep(s: State, maxFiles: nat)
    requires s.spool.Some? && s.started && maxFiles > 0
    requires Peeked(s.spool.value.files) != [] && OutcomeNow(s) != Retry
    ensures Replayed(s, maxFiles).0 == Replayed(NextState(s), maxFiles - 1).0
    ensures Replayed(s, maxFiles).1
            == Replayed(NextState(s), maxFiles - 1).1 + if OutcomeNow(s) == Shipped then 1 else 0
  {
    hide Posted, Settled, Peeked;
    assert OutcomeNow(Looked(s)) == OutcomeNow(s);
  }

  lemma NextSpool(s: State)
    requires s.spool.Some? && Peeked(s.spool.value.files) != [] && OutcomeNow(s) != Retry && Ordered(s)
    ensures var s2 := NextState(s);
            && s2.spool == Some(Directory(Peeked(s.spool.value.files)[1..], s.spool.value.clock))
            && s2.started == s.started && s2.buffer == s.buffer && s2.turns == LaterTurns(s.turns)
            && (s.started ==>
                  s2.log == s.log + [Exchange(Peeked(s.spool.value.files)[0].batch, TurnAt(s.turns, 0).answer)])
            && Ordered(s2)
  {
    hide Peeked, Skipped, Weight, Removed, InOrder;
    HeadLeaves(s.spool.value);
  }

  lemma HeadLeaves(d: Directory)
    requires WellFormed(d) && Peeked(d.files) != []
    ensures var q := Peeked(d.files);
            && Removed(q, q[0].name) == q[1..]
            && WellFormed(Directory(q[1..], d.clock))
  {
    hide Skipped, Peeked, Removed, InOrder, Weight;
    SkippedThenPeeked(d.files);
    SuffixInOrder(Skipped(d.files), Peeked(d.files));
    RemovingHead(Peeked(d.files));
  }

  lemma SkippedThenPeeked(q: Queue)
    ensures Skipped(q) + Peeked(q) == q
  {
  }

  /** What the spool and the network see of a replay that starts in s. */
  ghost predicate DrainsAs(s: State, t: State, taken: nat, d: Drain)
    requires s.spool.Some?
  {
    && t.spool == Some(Directory(d.left, s.spool.value.clock))
    && t.log == s.log + d.posts
    && t.turns == TurnsAfter(s.turns, |d.posts|)
    && taken == d.taken
    && t.started == s.started && t.buffer == s.buffer
  }

  lemma {:induction false} ReplayDrains(s: State, maxFiles: nat)
    requires s.spool.Some? && s.started && Ordered(s)
    ensures DrainsAs(s, Replayed(s, maxFiles).0, Replayed(s, maxFiles).1,
                     Drained(s.spool.value.files, s.turns, maxFiles))
    decreases maxFiles
  {
    hide Replayed, Drained, DrainsAs, Peeked, NextState, Ordered;
    if maxFiles > 0 && Peeked(s.spool.value.files) != [] && OutcomeNow(s) != Retry {
      NextSpool(s);
      ReplayDrains(NextState(s), maxFiles - 1);
      ReplayGoesOn(s, maxFiles);
    } else {
      ReplayEnds(s, maxFiles);
    }
  }

  lemma ReplayGoesOn(s: State, maxFiles: nat)
    requires s.spool.Some? && s.started && maxFiles > 0 && Ordered(s)
    requires Peeked(s.spool.value.files) != [] && OutcomeNow(s) != Retry
    requires NextState(s).spool.Some?
    requires DrainsAs(NextState(s), Replayed(NextState(s), maxFiles - 1).0, Replayed(NextState(s), maxFiles - 1).1,
                      Drained(NextState(s).spool.value.files, NextState(s).turns, maxFiles - 1))
    ensures DrainsAs(s, Replayed(s, maxFiles).0, Replayed(s, maxFiles).1,
                     Drained(s.spool.value.files, s.turns, maxFiles))
  {
    hide Replayed, Peeked, NextState, Ordered, Deliverable;
    ReplayStep(s, maxFiles);
    NextSpool(s);
    var p := Peeked(s.spool.value.files);
    var d := Drained(p[1..], LaterTurns(s.turns), maxFiles - 1);
    var post := [Exchange(p[0].batch, TurnAt(s.turns, 0).answer)];
    assert s.log + post + d.posts == s.log + (post + d.posts);
  }

  lemma ReplayEnds(s: State, maxFiles: nat)
    requires s.spool.Some? && s.started
    requires maxFiles == 0 || Peeked(s.spool.value.files) == [] || OutcomeNow(s) == Retry
    ensures DrainsAs(s, Replayed(s, maxFiles).0, Replayed(s, maxFiles).1,
                     Drained(s.spool.value.files, s.turns, maxFiles))
  {
    hide Peeked, Weight, Skipped, Settled;
    assert s.log + [] == s.log;
  }

  /** The number of files a replay tries to settle. */
  function ToSettle(q: Queue, maxFiles: nat): nat {
    Min(maxFiles, |Deliverables(q)|)
  }

  /** With D the deliverable files and n = min(maxFiles, |D|), the files settled are the first r of
      D, where r counts the answers before the first "try again". The files after those, and the
      file refused, stay as they are. */
  ghost predicate LeavesTheRest(q: Queue, turns: seq<Turn>, maxFiles: nat, left: Queue) {
    var files, n := Deliverables(q), ToSettle(q, maxFiles);
    var r := SettledCount(turns, n);
    && IsSuffix(left, q)
    && Deliverables(left) == files[r..]
    && (r < n ==> left != [] && left[0] == files[r])
  }

  /** The posts are the files settled in their order, and then the one refused. */
  ghost predicate PostsInTurn(q: Queue, turns: seq<Turn>, maxFiles: nat, posts: seq<Exchange>, taken: nat) {
    var n := ToSettle(q, maxFiles);
    var r := SettledCount(turns, n);
    && posts == Posts(Deliverables(q), turns, if r < n then r + 1 else n)
    && taken == ShippedCount(turns, r)
  }

  lemma {:induction false} DrainsInTurn(q: Queue, turns: seq<Turn>, maxFiles: nat)
    ensures var d := Drained(q, turns, maxFiles);
            LeavesTheRest(q, turns, maxFiles, d.left) && PostsInTurn(q, turns, maxFiles, d.posts, d.taken)
    decreases maxFiles
  {
    hide LeavesTheRest, PostsInTurn, Peeked, OutcomeAt;
    if maxFiles > 0 && Peeked(q) != [] && OutcomeAt(true, turns, 0) != Retry {
      var d := Drained(Peeked(q)[1..], LaterTurns(turns), maxFiles - 1);
      DrainsInTurn(Peeked(q)[1..], LaterTurns(turns), maxFiles - 1);
      LeavesOneLess(q, turns, maxFiles, d.left);
      PostsOneMore(q, turns, maxFiles, d.posts, d.taken);
    } else {
      DrainsNoMore(q, turns, maxFiles);
    }
  }

  lemma DrainsNoMore(q: Queue, turns: seq<Turn>, maxFiles: nat)
    requires maxFiles == 0 || Peeked(q) == [] || OutcomeAt(true, turns, 0) == Retry
    ensures var d := Drained(q, turns, maxFiles);
            LeavesTheRest(q, turns, maxFiles, d.left) && PostsInTurn(q, turns, maxFiles, d.posts, d.taken)
  {
    hide Peeked, Deliverables, OutcomeAt, SettledCount, IsSuffix, TurnAt, ShippedCount;
    PeekKeepsDeliverables(q);
    PeekedIsSuffix(q);
    assert IsSuffix(q, q) by {
      WholeIsSuffix(q);
    }
    NothingSettled(turns, ToSettle(q, maxFiles));
    var files := Deliverables(q);
    assert files[0..] == files;
    if ToSettle(q, maxFiles) > 0 {
      assert Posts(files, turns, 1) == [Exchange(files[0].batch, TurnAt(turns, 0).answer)];
    }
  }

  lemma WholeIsSuffix(q: Queue)
    ensures IsSuffix(q, q)
  {
  }

  lemma NothingSettled(turns: seq<Turn>, n: nat)
    requires n == 0 || OutcomeAt(true, turns, 0) == Retry
    ensures SettledCount(turns, n) == 0 && ShippedCount(turns, 0) == 0
  {
  }

  /** The file peeked at is the first deliverable one. */
  lemma PeekSplits(q: Queue)
    requires Peeked(q) != []
    ensures IsSuffix(Peeked(q)[1..], q)
    ensures Deliverables(q) != [] && Deliverables(q)[0] == Peeked(q)[0]
    ensures Deliverables(Peeked(q)[1..]) == Deliverables(q)[1..]
  {
    PeekKeepsDeliverables(q);
    PeekedIsSuffix(q);
    SuffixIsTransitive(Peeked(q)[1..], Peeked(q), q);
  }

  lemma SettleOneMore(turns: seq<Turn>, n: nat)
    requires n > 0 && OutcomeAt(true, turns, 0) != Retry
    ensures var r := SettledCount(turns, n);
            && r == SettledCount(LaterTurns(turns), n - 1) + 1
            && ShippedCount(turns, r)
               == ShippedCount(LaterTurns(turns), r - 1) + if OutcomeAt(true, turns, 0) == Shipped then 1 else 0
  {
  }

  lemma LeavesOneLess(q: Queue, turns: seq<Turn>, maxFiles: nat, left: Queue)
    requires maxFiles > 0 && Peeked(q) != [] && OutcomeAt(true, turns, 0) != Retry
    requires LeavesTheRest(Peeked(q)[1..], LaterTurns(turns), maxFiles - 1, left)
    ensures LeavesTheRest(q, turns, maxFiles, left)
  {
    hide Peeked, Deliverables, OutcomeAt, IsSuffix, SettledCount;
    PeekSplits(q);
    SuffixIsTransitive(left, Peeked(q)[1..], q);
    SettleOneMore(turns, ToSettle(q, maxFiles));
    var files, r := Deliverables(q), SettledCount(turns, ToSettle(q, maxFiles));
    assert files[1..][r - 1..] == files[r..];
  }

  lemma PostsOneMore(q: Queue, turns: seq<Turn>, maxFiles: nat, posts: seq<Exchange>, taken: nat)
    requires maxFiles > 0 && Peeked(q) != [] && OutcomeAt(true, turns, 0) != Retry
    requires PostsInTurn(Peeked(q)[1..], LaterTurns(turns), maxFiles - 1, posts, taken)
    ensures PostsInTurn(q, turns, maxFiles, [Exchange(Peeked(q)[0].batch, TurnAt(turns, 0).answer)] + posts,
                        taken + if OutcomeAt(true, turns, 0) == Shipped then 1 else 0)
  {
    hide Peeked, Deliverables, OutcomeAt, SettledCount, ShippedCount;
    PeekSplits(q);
    var files, n := Deliverables(q), ToSettle(q, maxFiles);
    SettleOneMore(turns, n);
    var r := SettledCount(turns, n);
    var k := if r < n then r + 1 else n;
    assert [Exchange(files[0].batch, TurnAt(turns, 0).answer)] + Posts(files[1..], LaterTurns(turns), k - 1)
        == Posts(files, turns, k);
  }

  /** Replay is first in, first out. */
  lemma ReplayIsFifo(s: State, maxFiles: nat)
    requires s.spool.Some? && s.started && Ordered(s)
    ensures var (t, taken) := Replayed(s, maxFiles);
            && t.spool.Some? && s.log <= t.log
            && LeavesTheRest(s.spool.value.files, s.turns, maxFiles, t.spool.value.files)
            && PostsInTurn(s.spool.value.files, s.turns, maxFiles, t.log[|s.log|..], taken)
  {
    hide Replayed, Drained, LeavesTheRest, PostsInTurn;
    ReplayDrains(s, maxFiles);
    DrainsInTurn(s.spool.value.files, s.turns, maxFiles);
  }

  ghost predicate AcceptsAll(turns: seq<Turn>, n: nat) {
    forall i | 0 <= i < n :: OutcomeAt(true, turns, i) == Shipped
  }

  lemma {:induction false} AcceptedShips(turns: seq<Turn>, n: nat)
    requires AcceptsAll(turns, n)
    ensures SettledCount(turns, n) == n && ShippedCount(turns, n) == n
  {
    if n > 0 {
      forall i | 0 <= i < n - 1
        ensures OutcomeAt(true, LaterTurns(turns), i) == Shipped
      {
        assert OutcomeAt(true, turns, i + 1) == Shipped;
      }
      AcceptedShips(LaterTurns(turns), n - 1);
    }
  }

  /** Against a server that accepts, a replay of k files sends min(k, n) of the n there are. */
  lemma AcceptingServerTakesBatches(s: State, maxFiles: nat)
    requires s.spool.Some? && s.started && Ordered(s)
    requires AcceptsAll(s.turns, ToSettle(s.spool.value.files, maxFiles))
    ensures var (t, taken) := Replayed(s, maxFiles);
            var n := ToSettle(s.spool.value.files, maxFiles);
            && taken == n
            && t.spool.Some? && t.started && Ordered(t)
            && Deliverables(t.spool.value.files) == Deliverables(s.spool.value.files)[n..]
            && t.turns == TurnsAfter(s.turns, n)
  {
    hide Replayed, Drained, Deliverables;
    ReplayDrains(s, maxFiles);
    var q := s.spool.value.files;
    DrainsInTurn(q, s.turns, maxFiles);
    AcceptedShips(s.turns, ToSettle(q, maxFiles));
    var p := Drained(q, s.turns, maxFiles).left;
    assert q == q[..|q| - |p|] + p;
    SuffixInOrder(q[..|q| - |p|], p);
  }

  function ReplayedTimes(s: State, maxFiles: nat, times: nat): State
    decreases times
  {
    if times == 0 then s else ReplayedTimes(Replayed(s, maxFiles).0, maxFiles, times - 1)
  }

  /** Calling replay again and again empties the spool, the number of files going down each time:
      enough calls of k files each leave nothing deliverable. */
  lemma {:induction false} ReplaysDrainTheSpool(s: State, maxFiles: nat, times: nat)
    requires s.spool.Some? && s.started && Ordered(s)
    requires AcceptsAll(s.turns, |Deliverables(s.spool.value.files)|)
    requires times * maxFiles >= |Deliverables(s.spool.value.files)|
    ensures ReplayedTimes(s, maxFiles, times).spool.Some?
    ensures Deliverables(ReplayedTimes(s, maxFiles, times).spool.value.files) == []
    decreases times
  {
    hide Replayed, Deliverables, Ordered;
    if times > 0 {
      var n := ToSettle(s.spool.value.files, maxFiles);
      AcceptingServerTakesBatches(s, maxFiles);
      var t := Replayed(s, maxFiles).0;
      forall i | 0 <= i < |Deliverables(s.spool.value.files)| - n
        ensures OutcomeAt(true, t.turns, i) == Shipped
      {
        assert OutcomeAt(true, s.turns, i + n) == Shipped;
      }
      assert (times - 1) * maxFiles == times * maxFiles - maxFiles;
      ReplaysDrainTheSpool(t, maxFiles, times - 1);
    }
  }
}
