/** Pre- and post-hooks under one shared time budget. Durations are nanoseconds. */
module Hooks {
  import opened Prelude
  import opened Frames
  import opened Rings

  const MINUTE: int := 60_000_000_000
  const DEFAULT_HOOK_TIMEOUT: int := 5 * MINUTE
  const HOOK_TIMEOUT_MAX: int := 15 * MINUTE
  const HOOKS_TOTAL_BUDGET: int := 30 * MINUTE
  const HOOKS_MAX_COUNT: nat := 16
  const HOOK_OUTPUT_BUF_BYTES: nat := 8192

  /** How a process ends; the middle two are told apart by the context's error. */
  datatype Ending = Exited(code: int) | DeadlineHit | CallerCancelled | NotStarted

  /** A shell command: how long it lasts when given a timeout, how it ends, and what it writes. */
  datatype Hook = Hook(command: string, lasts: int -> nat, ending: Ending, stdout: seq<Bytes>, stderr: seq<Bytes>)

  /** The hook is dead at most d after its timeout fires. */
  ghost predicate EndsWithin(h: Hook, d: nat) {
    forall t: int :: h.lasts(t) <= Max(t, 0) + d
  }

  datatype Attempt =
    | OverBudget | EmptyCommand
    | Ran(timeout: int, duration: nat, exitCode: int, timedOut: bool, stdout: Bytes, stderr: Bytes)
  {
    predicate Good() { Ran? && exitCode == 0 }
    function Charge(): nat { if Ran? then duration else 0 }
  }

  /** RunHook's clamping. */
  function Clamp(timeout: int): int {
    var t := if timeout <= 0 then DEFAULT_HOOK_TIMEOUT else timeout;
    if t > HOOK_TIMEOUT_MAX then HOOK_TIMEOUT_MAX else t
  }

  /** What RunHook reports of a process given timeout t: a code of 0 only for success, and the tails of its output. */
  function Report(h: Hook, t: int): Attempt {
    Ran(t, h.lasts(t), if h.ending.Exited? then h.ending.code else -1, h.ending.DeadlineHit?,
        Last(Concat(h.stdout), HOOK_OUTPUT_BUF_BYTES), Last(Concat(h.stderr), HOOK_OUTPUT_BUF_BYTES))
  }

  /** `RunHook`; its error is nil exactly when the attempt is good. */
  method RunHook(h: Hook, timeout: int) returns (a: Attempt)
    ensures a == if h.command == "" then EmptyCommand else Report(h, Clamp(timeout))
    ensures a.Ran? <==> h.command != ""
    ensures a.Ran? ==>
      && a.timeout == (if timeout <= 0 then 300_000_000_000
                       else if timeout > 900_000_000_000 then 900_000_000_000 else timeout)
      && a.duration == h.lasts(a.timeout)
      && (forall c: int :: h.ending == Exited(c) ==> a.exitCode == c)
      && (!h.ending.Exited? ==> a.exitCode == -1)
      && (a.timedOut <==> h.ending == DeadlineHit)
      && IsTail(a.stdout, Concat(h.stdout), 8192) && IsTail(a.stderr, Concat(h.stderr), 8192)
  {
    if h.command == "" {
      return EmptyCommand;
    }
    var t := Clamp(timeout);
    var stdout := Capture(HOOK_OUTPUT_BUF_BYTES, h.stdout);
    var stderr := Capture(HOOK_OUTPUT_BUF_BYTES, h.stderr);
    var exitCode := if h.ending.Exited? then h.ending.code else -1;
    a := Ran(t, h.lasts(t), exitCode, h.ending.DeadlineHit?, stdout, stderr);
  }

  /** One call of HookSet.Run when `used` of the budget is gone. */
  function AttemptOf(used: int, h: Hook, timeout: int): Attempt {
    if used >= HOOKS_TOTAL_BUDGET then OverBudget
    else
      var remaining := HOOKS_TOTAL_BUDGET - used;
      var t := if timeout <= 0 || timeout > remaining then remaining else timeout;
      if h.command == "" then EmptyCommand
      else Report(h, Clamp(t))
  }

  class HookSet {
    var consumed: int

    constructor ()
      ensures consumed == 0
    {
      consumed := 0;
    }

    method Run(h: Hook, timeout: int) returns (a: Attempt)
      modifies this
      ensures a == AttemptOf(old(consumed), h, timeout)
      ensures consumed == old(consumed) + a.Charge()
    {
      var used := consumed;
      if used >= HOOKS_TOTAL_BUDGET {
        return OverBudget;
      }
      var remaining := HOOKS_TOTAL_BUDGET - used;
      var t := timeout;
      if t <= 0 || t > remaining {
        t := remaining;
      }
      a := RunHook(h, t);
      consumed := consumed + a.Charge();
    }
  }

  // ---- the budget over any sequence of calls ------------------------------------------------

  datatype Call = Call(hook: Hook, timeout: int)

  function ConsumedAfter(used: int, calls: seq<Call>): int
    decreases |calls|
  {
    if calls == [] then used
    else ConsumedAfter(used + AttemptOf(used, calls[0].hook, calls[0].timeout).Charge(), calls[1..])
  }

  /** A hook that is started gets a positive timeout within both caps; asking for none asks for all. */
  lemma TimeoutBounds(used: int, h: Hook, timeout: int)
    requires AttemptOf(used, h, timeout).Ran?
    ensures var t := AttemptOf(used, h, timeout).timeout;
      && 0 < t <= Min(900_000_000_000, 1_800_000_000_000 - used)
      && (timeout > 0 ==> t <= timeout)
      && (timeout <= 0 ==> t == Min(HOOK_TIMEOUT_MAX, HOOKS_TOTAL_BUDGET - used))
  {
  }

  /** What a caller asks for; nothing asked for is no bound. */
  function Wanted(timeout: int): int {
    if timeout <= 0 then 1_800_000_000_000 else timeout
  }

  /** Which of the three an attempt is, and that a started hook is given its own timeout and reports for itself. */
  lemma AttemptExactly(used: int, h: Hook, timeout: int)
    requires used >= 0
    ensures var a := AttemptOf(used, h, timeout);
      && (a.OverBudget? <==> used >= 1_800_000_000_000)
      && (a.Ran? <==> used < 1_800_000_000_000 && h.command != "")
      && (a.Ran? ==>
            && a.timeout == Min(900_000_000_000, Min(1_800_000_000_000 - used, Wanted(timeout)))
            && a.duration == h.lasts(a.timeout) && a.Charge() == a.duration
            && (a.Good() <==> h.ending == Exited(0))
            && (a.timedOut <==> h.ending == DeadlineHit)
            && IsTail(a.stdout, Concat(h.stdout), 8192) && IsTail(a.stderr, Concat(h.stderr), 8192))
      && (!a.Ran? ==> a.Charge() == 0 && !a.Good())
  {
  }

  /** However many hooks run, their total exceeds the budget by at most one overrun. */
  lemma {:induction false} BudgetHolds(used: int, calls: seq<Call>, d: nat)
    requires used <= HOOKS_TOTAL_BUDGET + d
    requires forall i | 0 <= i < |calls| :: EndsWithin(calls[i].hook, d)
    ensures used <= ConsumedAfter(used, calls) <= HOOKS_TOTAL_BUDGET + d
    decreases |calls|
  {
    if calls == [] {
    } else {
      var a := AttemptOf(used, calls[0].hook, calls[0].timeout);
      if a.Ran? {
        TimeoutBounds(used, calls[0].hook, calls[0].timeout);
        assert EndsWithin(calls[0].hook, d);
      }
      BudgetHolds(used + a.Charge(), calls[1..], d);
    }
  }

  // ---- the hook loops of a backup run ---------------------------------------------------------

  /** A list of hooks part of the way through: what became of them, and the budget used. */
  datatype Tally = Tally(trace: seq<Attempt>, used: int, good: bool)
  {
    function With(h: Hook): Tally {
      var a := AttemptOf(used, h, 0);
      Tally(trace + [a], used + a.Charge(), good && a.Good())
    }
  }

  /** What the first n attempts of a trace have been charged. */
  function Charged(trace: seq<Attempt>, n: nat): nat
    requires n <= |trace|
  {
    if n == 0 then 0 else Charged(trace, n - 1) + trace[n - 1].Charge()
  }

  lemma {:induction false} ChargedBefore(trace: seq<Attempt>, a: Attempt, n: nat)
    requires n <= |trace|
    ensures Charged(trace + [a], n) == Charged(trace, n)
  {
    if n == 0 {
    } else {
      ChargedBefore(trace, a, n - 1);
    }
  }

  /** A trace tries the first hooks of a list, in order, each with what those before it left of the budget. */
  ghost predicate TriesInOrder(trace: seq<Attempt>, used: int, hooks: seq<Hook>) {
    && |trace| <= |hooks|
    && forall i {:trigger hooks[i]} | 0 <= i < |trace| ::
         trace[i] == AttemptOf(used + Charged(trace, i), hooks[i], 0)
  }

  lemma TriesNext(trace: seq<Attempt>, used: int, hooks: seq<Hook>, a: Attempt)
    requires TriesInOrder(trace, used, hooks) && |trace| < |hooks|
    requires a == AttemptOf(used + Charged(trace, |trace|), hooks[|trace|], 0)
    ensures TriesInOrder(trace + [a], used, hooks)
    ensures Charged(trace + [a], |trace + [a]|) == Charged(trace, |trace|) + a.Charge()
  {
    var next := trace + [a];
    ChargedBefore(trace, a, |trace|);
    forall i {:trigger hooks[i]} | 0 <= i < |next| ensures next[i] == AttemptOf(used + Charged(next, i), hooks[i], 0) {
      if i < |trace| {
        ChargedBefore(trace, a, i);
        assert next[i] == trace[i];
      }
    }
  }

  /** How many hooks of a list are considered at all. */
  function Allowed(hooks: seq<Hook>): (n: nat)
    ensures n <= |hooks|
  {
    Min(HOOKS_MAX_COUNT, |hooks|)
  }

  /** The first n pre-hooks in order, up to and including the first that is not good. */
  function PreTally(used: int, hooks: seq<Hook>, n: nat): Tally
    requires n <= |hooks|
  {
    if n == 0 then Tally([], used, true)
    else
      var t := PreTally(used, hooks, n - 1);
      if t.good then t.With(hooks[n - 1]) else t
  }

  /** The first n post-hooks in order, whatever becomes of them. */
  function PostTally(used: int, hooks: seq<Hook>, n: nat): Tally
    requires n <= |hooks|
  {
    if n == 0 then Tally([], used, true) else PostTally(used, hooks, n - 1).With(hooks[n - 1])
  }

  /** Once a pre-hook has failed, the rest of the list adds nothing. */
  lemma {:induction false} PreTallyEnds(used: int, hooks: seq<Hook>, i: nat, n: nat)
    requires i <= n <= |hooks| && !PreTally(used, hooks, i).good
    ensures PreTally(used, hooks, n) == PreTally(used, hooks, i)
    decreases n
  {
    if i == n {
    } else {
      PreTallyEnds(used, hooks, i, n - 1);
    }
  }

  lemma {:induction false} PreInOrder(used: int, hooks: seq<Hook>, n: nat)
    requires n <= |hooks|
    ensures var t := PreTally(used, hooks, n);
      && TriesInOrder(t.trace, used, hooks) && t.used == used + Charged(t.trace, |t.trace|)
      && |t.trace| <= n && (t.good ==> |t.trace| == n)
  {
    if n == 0 {
    } else {
      PreInOrder(used, hooks, n - 1);
      var t := PreTally(used, hooks, n - 1);
      if t.good {
        TriesNext(t.trace, used, hooks, AttemptOf(t.used, hooks[n - 1], 0));
      }
    }
  }

  lemma {:induction false} PostInOrder(used: int, hooks: seq<Hook>, n: nat)
    requires n <= |hooks|
    ensures var t := PostTally(used, hooks, n);
      && TriesInOrder(t.trace, used, hooks) && t.used == used + Charged(t.trace, |t.trace|)
      && |t.trace| == n
  {
    if n == 0 {
    } else {
      PostInOrder(used, hooks, n - 1);
      var t := PostTally(used, hooks, n - 1);
      TriesNext(t.trace, used, hooks, AttemptOf(t.used, hooks[n - 1], 0));
    }
  }

  /** The pre-hook loop; `passed` is false when the run is aborted before the dump. */
  method RunPre(shared: HookSet, hooks: seq<Hook>) returns (trace: seq<Attempt>, passed: bool)
    modifies shared
    ensures Tally(trace, shared.consumed, passed) == PreTally(old(shared.consumed), hooks, Allowed(hooks))
  {
    var i := 0;
    trace := [];
    while i < |hooks| && i < HOOKS_MAX_COUNT
      invariant i <= Allowed(hooks)
      invariant Tally(trace, shared.consumed, true) == PreTally(old(shared.consumed), hooks, i)
    {
      var a := shared.Run(hooks[i], 0);
      trace := trace + [a];
      i := i + 1;
      if !a.Good() {
        PreTallyEnds(old(shared.consumed), hooks, i, Allowed(hooks));
        return trace, false;
      }
    }
    return trace, true;
  }

  /** The deferred post-hook loop. */
  method RunPost(shared: HookSet, hooks: seq<Hook>) returns (trace: seq<Attempt>)
    modifies shared
    ensures var t := PostTally(old(shared.consumed), hooks, Allowed(hooks));
      trace == t.trace && shared.consumed == t.used
  {
    var i := 0;
    trace := [];
    while i < |hooks| && i < HOOKS_MAX_COUNT
      invariant i <= Allowed(hooks)
      invariant var t := PostTally(old(shared.consumed), hooks, i); trace == t.trace && shared.consumed == t.used
    {
      var a := shared.Run(hooks[i], 0);
      trace := trace + [a];
      i := i + 1;
    }
  }

  /**
   One backup run's hooks. A failed pre-hook aborts before the dump, and because the
   deferred block is registered after the pre-hook loop, it also skips the post-hooks.
   */
  method HooksOfRun(pre: seq<Hook>, post: seq<Hook>)
    returns (preTrace: seq<Attempt>, dumped: bool, postTrace: seq<Attempt>, consumed: int)
    ensures var before := PreTally(0, pre, Allowed(pre));
      && preTrace == before.trace && dumped == before.good
      && var after := PostTally(before.used, post, Allowed(post));
      && postTrace == (if dumped then after.trace else [])
      && consumed == if dumped then after.used else before.used
    ensures |preTrace| <= Min(16, |pre|)
    ensures TriesInOrder(preTrace, 0, pre)
    ensures forall i | 0 <= i < |preTrace| - 1 :: preTrace[i].Good()
    ensures dumped <==> |preTrace| == Min(16, |pre|) && forall i | 0 <= i < |preTrace| :: preTrace[i].Good()
    ensures |postTrace| == if dumped then Min(16, |post|) else 0
    ensures TriesInOrder(postTrace, Charged(preTrace, |preTrace|), post)
    ensures consumed == Charged(preTrace, |preTrace|) + Charged(postTrace, |postTrace|)
  {
    PreInOrder(0, pre, Allowed(pre));
    DumpNeedsAllPreHooks(0, pre, Allowed(pre));
    PostInOrder(PreTally(0, pre, Allowed(pre)).used, post, Allowed(post));
    var hooks := new HookSet();
    preTrace, dumped := RunPre(hooks, pre);
    postTrace := [];
    if dumped {
      postTrace := RunPost(hooks, post);
    }
    consumed := hooks.consumed;
  }

  // ---- what the tallies mean --------------------------------------------------------------------

  /** One more attempt stays within the budget and one overrun. */
  lemma AttemptWithinBudget(used: int, h: Hook, d: nat)
    requires used <= HOOKS_TOTAL_BUDGET + d && EndsWithin(h, d)
    ensures used + AttemptOf(used, h, 0).Charge() <= HOOKS_TOTAL_BUDGET + d
  {
    BudgetHolds(used, [Call(h, 0)], d);
    assert [Call(h, 0)][1..] == [];
  }

  /** Both loops are calls of the shared set, so the budget covers them. */
  lemma {:induction false} TallyWithinBudget(used: int, hooks: seq<Hook>, n: nat, d: nat)
    requires used <= HOOKS_TOTAL_BUDGET + d && n <= |hooks|
    requires forall i | 0 <= i < n :: EndsWithin(hooks[i], d)
    ensures PreTally(used, hooks, n).used <= HOOKS_TOTAL_BUDGET + d
    ensures PostTally(used, hooks, n).used <= HOOKS_TOTAL_BUDGET + d
  {
    if n == 0 {
    } else {
      TallyWithinBudget(used, hooks, n - 1, d);
      AttemptWithinBudget(PreTally(used, hooks, n - 1).used, hooks[n - 1], d);
      AttemptWithinBudget(PostTally(used, hooks, n - 1).used, hooks[n - 1], d);
    }
  }

  /** Pre- and post-hooks of a run together: at most 30 minutes plus one overrun. */
  lemma RunWithinBudget(pre: seq<Hook>, post: seq<Hook>, d: nat)
    requires forall i | 0 <= i < |pre| :: EndsWithin(pre[i], d)
    requires forall i | 0 <= i < |post| :: EndsWithin(post[i], d)
    ensures var used := PreTally(0, pre, Allowed(pre)).used;
      && used <= 1_800_000_000_000 + d
      && PostTally(used, post, Allowed(post)).used <= 1_800_000_000_000 + d
  {
    TallyWithinBudget(0, pre, Allowed(pre), d);
    TallyWithinBudget(PreTally(0, pre, Allowed(pre)).used, post, Allowed(post), d);
  }

  /**
   The dump goes ahead only if all of the first sixteen pre-hooks ran and succeeded; when
   it does not, all those before the last one attempted did.
   */
  lemma {:induction false} DumpNeedsAllPreHooks(used: int, hooks: seq<Hook>, n: nat)
    requires n <= |hooks|
    ensures var t := PreTally(used, hooks, n);
      var tried := |t.trace|;
      && tried <= n && (t.good ==> tried == n) && (!t.good ==> tried > 0 && !t.trace[tried - 1].Good())
      && forall i | 0 <= i < (if t.good then n else tried - 1) ::
           t.trace[i].Good() && hooks[i].ending == Exited(0) && hooks[i].command != ""
  {
    if n == 0 {
    } else {
      DumpNeedsAllPreHooks(used, hooks, n - 1);
    }
  }

  /** Every one of the first sixteen post-hooks is attempted, failures notwithstanding. */
  lemma {:induction false} PostHooksAllAttempted(used: int, hooks: seq<Hook>, n: nat)
    requires n <= |hooks|
    ensures |PostTally(used, hooks, n).trace| == n
  {
    if n == 0 {
    } else {
      PostHooksAllAttempted(used, hooks, n - 1);
    }
  }
}
