/**
 The Redis driver's snapshot sequence: LASTSAVE, BGSAVE, poll LASTSAVE until it has
 grown, ask where the RDB file is, open it. The world answers call number n; nothing
 is assumed about when calls fail or when the context is cancelled.
 */
module RedisSnapshot {
  import opened Positional

  /** What the server has done when it answers: saves begun, saves finished, time of the last. */
  datatype Instant = Instant(began: nat, done: nat, last: int)

  datatype Call = LastSave | BgSave | ConfigDir | ConfigName | Open

  /**
   `clock(n)` is read after call n, `start` when the waiting starts; `cancelled(n)` says
   whether the context is done just before call n, `interrupted(n)` during the sleep after it.
   */
  datatype World = World(
    server: nat -> Instant, fails: nat -> bool, start: int, clock: nat -> int,
    cancelled: nat -> bool, interrupted: nat -> bool, dir: string, name: string)
  {
    /** One save at a time, time does not run backwards, an accepted BGSAVE is under way. */
    ghost predicate Valid() {
      && (forall n: nat ::
            && server(n).done <= server(n).began <= server(n).done + 1
            && server(n).began <= server(n + 1).began && server(n).done <= server(n + 1).done
            && server(n).last <= server(n + 1).last
            && (server(n).done == server(n + 1).done ==> server(n).last == server(n + 1).last))
      && (!fails(1) ==> server(1).began > server(1).done)
    }

    /** Every sleep between polls, from call `first` on, lasts at least the interval. */
    ghost predicate Sleeps(first: nat, interval: nat) {
      start <= clock(first) && forall n: nat :: first <= n ==> clock(n) + interval <= clock(n + 1)
    }

    /** The poll with call number n ends the waiting, one way or another. */
    predicate Decides(prev: int, timeout: nat, n: nat) {
      cancelled(n) || fails(n) || server(n).last > prev || clock(n) > start + timeout || interrupted(n)
    }

    predicate Undecided(prev: int, timeout: nat, from: nat, to: nat) {
      forall n | from <= n < to :: !Decides(prev, timeout, n)
    }

    /** How it ends. */
    function Verdict(prev: int, timeout: nat, n: nat): Outcome {
      if cancelled(n) then Cancelled
      else if fails(n) then CallFailed
      else if server(n).last > prev then Saved
      else if clock(n) > start + timeout then TimedOut
      else Cancelled
    }

    /** Poll k is the first to decide, and it sees a newer save. */
    predicate SavedAt(prev: int, timeout: nat, first: nat, k: nat) {
      && first <= k && Undecided(prev, timeout, first, k)
      && !cancelled(k) && !fails(k) && server(k).last > prev
    }

    /** The RDB file is opened, with poll k the one that saw the newer save. */
    predicate OpensAfter(timeout: nat, k: nat) {
      && !fails(0) && !fails(1)
      && SavedAt(server(0).last, timeout, 2, k)
      && !fails(k + 1) && !fails(k + 2) && dir != "" && name != ""
    }
  }

  datatype Outcome = Saved | CallFailed | TimedOut | Cancelled

  datatype DumpResult = Archived | NoPath | Failed(why: Outcome)

  function Polls(n: nat): seq<Call> { seq(n, _ => LastSave) }

  class Session {
    const w: World
    var trace: seq<Call>

    constructor (w: World)
      ensures this.w == w && trace == []
    {
      this.w := w;
      trace := [];
    }

    method Issue(c: Call) returns (ok: bool)
      modifies this
      ensures trace == old(trace) + [c]
      ensures ok == !w.fails(|old(trace)|)
    {
      ok := !w.fails(|trace|);
      trace := trace + [c];
    }

    /** `waitForSave`: the first deciding poll decides, and it comes within a fixed number of polls. */
    method WaitForSave(prev: int, interval: nat, timeout: nat) returns (r: Outcome, k: nat)
      requires interval > 0 && w.Sleeps(|trace|, interval)
      modifies this
      ensures |old(trace)| <= k && w.Undecided(prev, timeout, |old(trace)|, k) && w.Decides(prev, timeout, k)
      ensures r == w.Verdict(prev, timeout, k)
      ensures trace == old(trace) + Polls(k - |old(trace)| + if w.cancelled(k) then 0 else 1)
      ensures |trace| <= |old(trace)| + timeout / interval + 2
    {
      var first := |trace|;
      var deadline := w.start + timeout;
      ghost var most := timeout / interval;
      k := first;
      while true
        invariant first <= k == |trace|
        invariant w.Undecided(prev, timeout, first, k)
        invariant trace == old(trace) + Polls(k - first)
        invariant k > first ==> w.clock(k - 1) <= deadline
        invariant k <= first + most + 1
        decreases first + most + 1 - k
      {
        if w.cancelled(k) {
          return Cancelled, k;
        }
        var ok := Issue(LastSave);
        if !ok {
          return CallFailed, k;
        }
        if w.server(k).last > prev {
          return Saved, k;
        }
        if w.clock(k) > deadline {
          return TimedOut, k;
        }
        if w.interrupted(k) {
          return Cancelled, k;
        }
        PollCount(w, first, interval, timeout, k);
        k := k + 1;
      }
    }

    /** `Dump`: the file is opened in exactly the stated circumstances, after exactly the stated calls. */
    method Dump(interval: nat, timeout: nat, archiveOk: bool) returns (r: DumpResult, k: nat)
      requires trace == []
      requires interval > 0 && w.Sleeps(2, interval)
      modifies this
      ensures Open in trace <==> w.OpensAfter(timeout, k)
      ensures Open in trace ==> trace == [LastSave, BgSave] + Polls(k - 1) + [ConfigDir, ConfigName, Open]
      ensures r == Archived <==> Open in trace && !w.fails(k + 3) && archiveOk
      ensures Open !in trace ==> forall j: nat :: !w.OpensAfter(timeout, j)
      ensures |trace| <= timeout / interval + 7
      ensures w.fails(0) || w.fails(1) ==>
        r == Failed(CallFailed) && trace == if w.fails(0) then [LastSave] else [LastSave, BgSave]
      ensures !w.fails(0) && !w.fails(1) ==>
        && k >= 2 && w.Undecided(w.server(0).last, timeout, 2, k)
        && (w.cancelled(k) ==> r == Failed(Cancelled))
        && (!w.cancelled(k) && w.fails(k) ==> r == Failed(CallFailed))
        && (!w.cancelled(k) && !w.fails(k) && w.server(k).last <= w.server(0).last ==>
              if w.clock(k) > w.start + timeout then r == Failed(TimedOut)
              else w.interrupted(k) && r == Failed(Cancelled))
        && (!w.cancelled(k) && !w.fails(k) && w.server(k).last > w.server(0).last ==>
              if w.fails(k + 1) || w.fails(k + 2) then r == Failed(CallFailed)
              else if w.dir == "" || w.name == "" then r == NoPath
              else if w.fails(k + 3) || !archiveOk then r == Failed(CallFailed)
              else r == Archived)
    {
      k := 0;
      var ok := Issue(LastSave);
      if !ok {
        return Failed(CallFailed), 0;
      }
      var prev := w.server(0).last;
      ok := Issue(BgSave);
      if !ok {
        return Failed(CallFailed), 0;
      }
      var waited;
      waited, k := WaitForSave(prev, interval, timeout);
      forall j: nat | w.OpensAfter(timeout, j) ensures j == k && waited == Saved {
        OneDecides(w, prev, timeout, k, j);
      }
      if waited != Saved {
        return Failed(waited), k;
      }
      ok := Issue(ConfigDir);
      if !ok {
        return Failed(CallFailed), k;
      }
      ok := Issue(ConfigName);
      if !ok {
        return Failed(CallFailed), k;
      }
      if w.dir == "" || w.name == "" {
        return NoPath, k;
      }
      ok := Issue(Open);
      assert trace[|trace| - 1] == Open;
      r := if ok && archiveOk then Archived else Failed(CallFailed);
    }
  }

  /** In so many words: polls that change nothing, and how the first other one ends the waiting. */
  lemma WaitingEndsExactly(w: World, prev: int, timeout: nat, first: nat, k: nat)
    requires first <= k && w.Undecided(prev, timeout, first, k) && w.Decides(prev, timeout, k)
    ensures forall n | first <= n < k ::
      && !w.cancelled(n) && !w.fails(n) && w.server(n).last <= prev
      && w.clock(n) <= w.start + timeout && !w.interrupted(n)
    ensures w.Verdict(prev, timeout, k) == Saved <==>
      !w.cancelled(k) && !w.fails(k) && w.server(k).last > prev
    ensures w.Verdict(prev, timeout, k) == CallFailed <==> !w.cancelled(k) && w.fails(k)
    ensures w.Verdict(prev, timeout, k) == TimedOut <==>
      !w.cancelled(k) && !w.fails(k) && w.server(k).last <= prev && w.clock(k) > w.start + timeout
    ensures w.Verdict(prev, timeout, k) == Cancelled <==>
      || w.cancelled(k)
      || (!w.fails(k) && w.server(k).last <= prev && w.clock(k) <= w.start + timeout && w.interrupted(k))
  {
    forall n | first <= n < k
      ensures !w.cancelled(n) && !w.fails(n) && w.server(n).last <= prev
      ensures w.clock(n) <= w.start + timeout && !w.interrupted(n)
    {
      assert !w.Decides(prev, timeout, n);
    }
  }

  lemma QuotientBound(m: nat, interval: nat, timeout: nat)
    requires interval > 0
    ensures m * interval <= timeout <==> m <= timeout / interval
  {
    var q := timeout / interval;
    assert timeout == q * interval + timeout % interval;
    if m <= q {
      MulMono(m, q, interval);
    } else {
      MulMono(q + 1, m, interval);
      assert (q + 1) * interval == q * interval + interval;
    }
  }

  /** Poll number k - first comes that many intervals after the start. */
  lemma {:induction false} Elapsed(w: World, first: nat, interval: nat, k: nat)
    requires w.Sleeps(first, interval) && first <= k
    ensures w.start + (k - first) * interval <= w.clock(k)
    decreases k
  {
    if k == first {
    } else {
      Elapsed(w, first, interval, k - 1);
      assert (k - first) * interval == (k - 1 - first) * interval + interval;
      assert w.clock(k - 1) + interval <= w.clock(k - 1 + 1);
    }
  }

  /** A poll before the deadline is one of the first few. */
  lemma PollCount(w: World, first: nat, interval: nat, timeout: nat, k: nat)
    requires interval > 0 && w.Sleeps(first, interval) && first <= k && w.clock(k) <= w.start + timeout
    ensures k - first <= timeout / interval
  {
    Elapsed(w, first, interval, k);
    QuotientBound(k - first, interval, timeout);
  }

  /** There is only one first deciding poll. */
  lemma OneDecides(w: World, prev: int, timeout: nat, k: nat, j: nat)
    requires 2 <= k && w.Undecided(prev, timeout, 2, k) && w.Decides(prev, timeout, k)
    requires w.SavedAt(prev, timeout, 2, j)
    ensures j == k && w.Verdict(prev, timeout, k) == Saved
  {
    assert w.Decides(prev, timeout, j);
  }

  // ---- what the opened file holds ----------------------------------------------------------

  lemma {:induction false} SavesOnlyGrow(w: World, i: nat, j: nat)
    requires w.Valid() && i <= j
    ensures w.server(i).began <= w.server(j).began && w.server(i).done <= w.server(j).done
    ensures w.server(i).done == w.server(j).done ==> w.server(i).last == w.server(j).last
    decreases j
  {
    if i == j {
    } else {
      SavesOnlyGrow(w, i, j - 1);
      assert w.server(j - 1).done <= w.server(j - 1 + 1).done;
    }
  }

  /** The file that is opened was finished after the first LASTSAVE was answered. */
  lemma OpenedSaveIsNew(w: World, timeout: nat, k: nat)
    requires w.Valid() && w.OpensAfter(timeout, k)
    ensures w.server(0).done < w.server(k).done <= w.server(k + 3).done
  {
    SavesOnlyGrow(w, 0, k);
    SavesOnlyGrow(w, k, k + 3);
  }

  /** The save in the opened file was also begun after the first LASTSAVE. */
  predicate BegunSince(w: World, k: nat) {
    w.server(k + 3).done > w.server(0).began
  }

  /** A world in which the save under way at the start is the one that gets opened. */
  function StaleWorld(at: Instant): World {
    World(
      n => if n == 0 then at else Instant(at.began + 1, at.done + 1, at.last + 1),
      _ => false, 0, n => n, _ => false, _ => false, "d", "f")
  }

  lemma StaleWorldOpens(at: Instant)
    requires at.began == at.done + 1
    ensures var w := StaleWorld(at); w.Valid() && w.server(0) == at && w.OpensAfter(0, 2) && !BegunSince(w, 2)
  {
    var w := StaleWorld(at);
    assert w.server(0) == at && w.server(2).last == at.last + 1 && w.server(5).done == at.began;
  }

  /**
   A dump is sure to hold data from after it was asked for exactly when no save was
   under way at that moment: a scheduled save that ends between the first LASTSAVE and
   BGSAVE is mistaken for the requested one.
   */
  lemma BegunSinceExactlyWhen(at: Instant)
    requires at.done <= at.began <= at.done + 1
    ensures (forall w: World, timeout: nat, k: nat ::
               w.Valid() && w.server(0) == at && w.OpensAfter(timeout, k) ==> BegunSince(w, k))
            <==> at.began == at.done
  {
    if at.began == at.done {
      forall w: World, timeout: nat, k: nat | w.Valid() && w.server(0) == at && w.OpensAfter(timeout, k)
        ensures BegunSince(w, k)
      {
        OpenedSaveIsNew(w, timeout, k);
      }
    } else {
      StaleWorldOpens(at);
      var w := StaleWorld(at);
      assert w.Valid() && w.server(0) == at && w.OpensAfter(0, 2) && !BegunSince(w, 2);
    }
  }

  /** A save that never lands, and sleeps of just the interval. */
  function SlowWorld(prev: int, interval: nat, first: nat): World {
    World(
      n => Instant(if n == 0 then 0 else 1, 0, prev), _ => false, 0,
      n => (n - first) * interval, _ => false, _ => false, "", "")
  }

  lemma SlowWorldSleeps(prev: int, interval: nat, first: nat)
    ensures SlowWorld(prev, interval, first).Valid() && SlowWorld(prev, interval, first).Sleeps(first, interval)
  {
    var w := SlowWorld(prev, interval, first);
    forall n: nat | first <= n ensures w.clock(n) + interval <= w.clock(n + 1) {
      assert (n + 1 - first) * interval == (n - first) * interval + interval;
    }
  }

  /** Which of its polls decide: the ones after the deadline. */
  lemma SlowPoll(prev: int, interval: nat, timeout: nat, first: nat, m: nat)
    requires interval > 0
    ensures var w := SlowWorld(prev, interval, first);
      w.Decides(prev, timeout, first + m) <==> m > timeout / interval
  {
    QuotientBound(m, interval, timeout);
    assert SlowWorld(prev, interval, first).clock(first + m) == m * interval;
  }

  /** The number of polls can reach its bound: the last of them times out. */
  lemma PollBoundReached(prev: int, interval: nat, timeout: nat, first: nat)
    requires interval > 0
    ensures var w, k := SlowWorld(prev, interval, first), first + timeout / interval + 1;
      && w.Valid() && w.Sleeps(first, interval)
      && w.Undecided(prev, timeout, first, k) && w.Verdict(prev, timeout, k) == TimedOut
  {
    var w, q := SlowWorld(prev, interval, first), timeout / interval;
    SlowWorldSleeps(prev, interval, first);
    forall n | first <= n < first + q + 1 ensures !w.Decides(prev, timeout, n) {
      SlowPoll(prev, interval, timeout, first, n - first);
    }
    SlowPoll(prev, interval, timeout, first, q + 1);
  }
}
