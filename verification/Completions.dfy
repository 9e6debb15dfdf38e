/**
 The four polling loops of a completion queue (cq.h) as relations between a device, a queue and how a loop ends.

 `all` is every completion the device delivers, in order, and `head` the number already
 consumed, so the queue is `all[head..]`. The device is an arbitrary function: on its t-th
 poll it is willing to hand over `device(t)` completions (fewer if the request or the queue
 is smaller); a negative answer is an error that hands over none.
 */
module Completions {
  import opened Words

  /** `kMaxPollCq`, the length of the local array every loop polls into. */
  const MAX_POLL: nat := 32

  datatype Wc = Wc(success: bool, op: nat, wrId: Word, byteLen: nat, immData: nat)

  /** `rdma_success_cqe`. */
  datatype Cqe = Cqe(op: nat, wrId: Word, length: nat, immData: nat)

  type Device = nat -> int

  function CqeOf(w: Wc): Cqe {
    Cqe(w.op, w.wrId, w.byteLen, w.immData)
  }

  /** The entries for completions a, a+1, ..., b-1. */
  function CqesOf(all: seq<Wc>, a: nat, b: nat): (cs: seq<Cqe>)
    requires a <= b <= |all|
    ensures |cs| == b - a && forall i :: 0 <= i < b - a ==> cs[i] == CqeOf(all[a + i])
  {
    seq(b - a, i requires 0 <= i < b - a => CqeOf(all[a + i]))
  }

  /** `n` if it is positive, else 0: how many completions a poll that returned `n` removed. */
  function Removed(n: int): nat {
    if n > 0 then n else 0
  }

  /** What `ibv_poll_cq` returns with `waiting` completions in the queue; a request below zero gets none. */
  function Polled(d: Device, t: nat, request: int, waiting: nat): int {
    if d(t) < 0 then d(t) else Min(d(t), Removed(Min(request, waiting)))
  }

  predicate Succeeded(all: seq<Wc>, a: nat, b: nat)
    requires b <= |all|
  {
    forall i :: a <= i < b ==> all[i].success
  }

  // ---------- assumptions on the device ----------

  function Deficit(n: int): nat {
    if n < 0 then -n else 0
  }

  /** The sum of the errors in polls a, a+1, ..., b-1. */
  function Errors(d: Device, a: nat, b: nat): nat
    decreases b - a
  {
    if a >= b then 0 else Deficit(d(a)) + Errors(d, a + 1, b)
  }

  /** How patient a caller must be: `quiet` is past the last error, `next(t)` the first poll from t on that yields. */
  datatype Patience = Patience(quiet: nat, next: nat -> nat)

  /** The device never stays silent for good, nor fails for good. */
  ghost predicate Patient(d: Device, w: Patience) {
    && (forall t: nat :: t >= w.quiet ==> d(t) >= 0)
    && (forall t: nat :: NextIsRight(d, w, t))
  }

  ghost predicate NextIsRight(d: Device, w: Patience, t: nat) {
    w.next(t) >= t && if w.next(t) == t then d(t) > 0 else w.next(t + 1) == w.next(t)
  }

  /**
   What a loop that wants `wanted` more can wait for. Every unit of error makes it want one more, so a count
   below zero has to be made up for by errors, and the queue has to hold the rest.
   */
  predicate Enough(d: Device, w: Patience, t: nat, wanted: int, all: seq<Wc>, head: nat) {
    0 <= wanted + Errors(d, t, w.quiet) <= |all| - head
  }

  /** Of two polls the later is nearer the end of a patient device's errors and silences, unless the first yields. */
  predicate Nearer(w: Patience, t: nat, n: int) {
    t < w.quiet || n > 0 || (n == 0 && 0 <= w.next(t) - t && w.next(t + 1) - (t + 1) < w.next(t) - t)
  }

  /** A poll of a blocking loop leaves enough, and either hands over something or brings the next yield nearer. */
  lemma StaysEnough(d: Device, w: Patience, t: nat, wanted: int, all: seq<Wc>, head: nat)
    requires Patient(d, w) && Enough(d, w, t, wanted, all, head) && wanted != 0 && head <= |all|
    ensures var n := Polled(d, t, Min(wanted, MAX_POLL), |all| - head);
            && n <= Removed(wanted) && Nearer(w, t, n)
            && Enough(d, w, t + 1, wanted - n, all, head + Removed(n))
  {
    assert t >= w.quiet ==> d(t) >= 0;
    assert NextIsRight(d, w, t);
  }

  // ---------- the loops ----------

  /**
   The four loops: `poll` and `poll_with_wc`, which block; `try_poll` and `try_poll_with_wc`, each as
   written or with the request bounded by what is still wanted.
   */
  datatype Form = Poll(withWc: bool) | TryPoll(written: bool) | TryPollWithWc(written: bool)

  predicate FillsVector(form: Form) {
    form == Poll(true) || form.TryPollWithWc?
  }

  /** The loop's condition; `poll` alone goes on until it has counted exactly `k`. */
  predicate Wants(form: Form, k: int, tot: int) {
    if form == Poll(false) then tot != k else tot < k
  }

  /** `entries_to_poll`; a trying loop stops at an answer below it. */
  function Asked(form: Form, k: int, tot: int): int {
    if form == TryPollWithWc(true) then Min(k, MAX_POLL) else Min(k - tot, MAX_POLL)
  }

  /** What is passed to `ibv_poll_cq`. */
  function Request(form: Form, k: int, tot: int): int {
    if form == TryPoll(true) then k else Asked(form, k, tot)
  }

  /** `Overrun`: a write outside the local array or the result vector. */
  datatype Ending = Stopped | Panicked | Overrun

  datatype Verdict = GoOn | Finish(ending: Ending)

  /** What a poll that returned `n` leads to; `good`: no completion of its batch had failed. */
  function Judge(form: Form, k: int, tot: int, n: int, good: bool): Verdict {
    if n > MAX_POLL then Finish(Overrun)
    else if !good then Finish(Panicked)
    else if FillsVector(form) && n > 0 && (tot < 0 || tot + n > k) then Finish(Overrun)
    else if !form.Poll? && n < Asked(form, k, tot) then Finish(Stopped)
    else GoOn
  }

  /** Where a loop stands between two polls: what it has counted, and the completions consumed. */
  datatype At = At(tot: int, head: nat)

  /** How a loop ends: what it counted, the polls made by then, and the completions consumed. */
  datatype LoopEnd = LoopEnd(ending: Ending, tot: int, polls: nat, head: nat)

  /** Poll `t` takes the loop from `a` to `b` and it goes on. */
  predicate GoesOn(form: Form, d: Device, t: nat, k: int, all: seq<Wc>, a: At, b: At) {
    && Wants(form, k, a.tot) && a.head <= |all|
    && var n := Polled(d, t, Request(form, k, a.tot), |all| - a.head);
       && Judge(form, k, a.tot, n, Succeeded(all, a.head, a.head + Removed(n))).GoOn?
       && b == At(a.tot + n, a.head + Removed(n))
  }

  /** The loop ends at `a`, with no poll left to make or with poll `t`. */
  predicate Ends(form: Form, d: Device, t: nat, k: int, all: seq<Wc>, a: At, end: LoopEnd) {
    && a.head <= |all|
    && if !Wants(form, k, a.tot) then end == LoopEnd(Stopped, a.tot, t, a.head)
       else
         var n := Polled(d, t, Request(form, k, a.tot), |all| - a.head);
         var next := a.head + Removed(n);
         match Judge(form, k, a.tot, n, Succeeded(all, a.head, next))
         case GoOn => false
         case Finish(ending) => end == LoopEnd(ending, if ending.Stopped? then a.tot + n else a.tot, t + 1, next)
  }

  /** `path` is where the loop stands before polls t, t+1, ... */
  predicate Path(form: Form, d: Device, t: nat, k: int, all: seq<Wc>, path: seq<At>) {
    path != [] && forall i :: 0 <= i < |path| - 1 ==> StepAt(form, d, t, k, all, path, i)
  }

  predicate StepAt(form: Form, d: Device, t: nat, k: int, all: seq<Wc>, path: seq<At>, i: nat)
    requires i < |path| - 1
  {
    GoesOn(form, d, t + i, k, all, path[i], path[i + 1])
  }

  /** The rest of a loop's run, from `a` and poll `t` on. */
  predicate RunsFrom(form: Form, d: Device, t: nat, k: int, all: seq<Wc>, a: At, path: seq<At>, end: LoopEnd) {
    && Path(form, d, t, k, all, path) && path[0] == a
    && Ends(form, d, t + |path| - 1, k, all, path[|path| - 1], end)
  }

  /** The whole run of a loop for `k` completions that starts with poll `t` and `head` already consumed. */
  predicate Runs(form: Form, d: Device, t: nat, k: int, all: seq<Wc>, head: nat, path: seq<At>, end: LoopEnd) {
    RunsFrom(form, d, t, k, all, At(0, head), path, end)
  }

  /** The loop ends like this. */
  ghost predicate RunsTo(form: Form, d: Device, t: nat, k: int, all: seq<Wc>, head: nat, end: LoopEnd) {
    exists path :: Runs(form, d, t, k, all, head, path, end)
  }

  lemma {:induction false} ErrorsSplit(d: Device, a: nat, b: nat, c: nat)
    requires a <= b <= c
    ensures Errors(d, a, c) == Errors(d, a, b) + Errors(d, b, c)
    decreases b - a
  {
    if a < b {
      ErrorsSplit(d, a + 1, b, c);
    }
  }

  lemma OneError(d: Device, a: nat, b: nat)
    requires a <= b
    ensures Errors(d, a, b + 1) == Errors(d, a, b) + Deficit(d(b))
  {
    ErrorsSplit(d, a, b, b + 1);
    assert Errors(d, b, b + 1) == Deficit(d(b)) + Errors(d, b + 1, b + 1);
  }

  lemma {:induction false} NoErrors(d: Device, a: nat, b: nat)
    requires forall u :: a <= u < b ==> d(u) >= 0
    ensures Errors(d, a, b) == 0
    decreases b - a
  {
    if a < b {
      NoErrors(d, a + 1, b);
    }
  }

  /** Along a path every completion consumed is counted, less the errors; none of them had failed. */
  lemma {:induction false} PathCounts(form: Form, d: Device, t: nat, k: int, all: seq<Wc>, path: seq<At>, i: nat)
    requires Path(form, d, t, k, all, path) && i < |path| && path[0].head <= |all|
    ensures path[0].head <= path[i].head <= |all|
    ensures path[i].tot == path[0].tot + (path[i].head - path[0].head) - Errors(d, t, t + i)
    ensures Succeeded(all, path[0].head, path[i].head)
  {
    if i > 0 {
      PathCounts(form, d, t, k, all, path, i - 1);
      assert StepAt(form, d, t, k, all, path, i - 1);
      OneError(d, t, t + (i - 1));
    }
  }

  /** The end of a loop at `a`: with or without a last poll, what it consumes is counted, less the error it may be. */
  lemma EndCounts(form: Form, d: Device, t: nat, k: int, all: seq<Wc>, a: At, end: LoopEnd)
    requires Ends(form, d, t, k, all, a, end)
    ensures t <= end.polls <= t + 1 && a.head <= end.head <= |all|
    ensures end.ending.Stopped? ==>
              && Succeeded(all, a.head, end.head)
              && end.tot == a.tot + (end.head - a.head) - (if end.polls > t then Deficit(d(t)) else 0)
    ensures end.ending.Panicked? ==> !Succeeded(all, a.head, end.head)
  {
  }

  lemma RunCounts(form: Form, d: Device, t: nat, k: int, all: seq<Wc>, head: nat, path: seq<At>, end: LoopEnd)
    requires Runs(form, d, t, k, all, head, path, end) && head <= |all|
    ensures head <= end.head <= |all| && t <= end.polls
    ensures end.ending.Stopped? ==>
              && Succeeded(all, head, end.head)
              && end.tot == (end.head - head) - Errors(d, t, end.polls)
    ensures end.ending.Panicked? ==> !Succeeded(all, head, end.head)
  {
    var last := |path| - 1;
    PathCounts(form, d, t, k, all, path, last);
    EndCounts(form, d, t + last, k, all, path[last], end);
    OneError(d, t, t + last);
  }

  /**
   However the device splits the queue into batches, every form consumes a prefix of it. A loop that
   stops has counted each completion consumed, less the errors it was answered; one that panics has
   consumed a failed completion, and one that stops has not.
   */
  lemma RunConsumesPrefix(form: Form, d: Device, t: nat, k: int, all: seq<Wc>, head: nat, end: LoopEnd)
    requires RunsTo(form, d, t, k, all, head, end) && head <= |all|
    ensures head <= end.head <= |all| && t <= end.polls
    ensures end.ending.Stopped? ==> Succeeded(all, head, end.head)
    ensures end.ending.Stopped? ==> end.tot == (end.head - head) - Errors(d, t, end.polls)
    ensures end.ending.Panicked? ==> !Succeeded(all, head, end.head)
  {
    var path :| Runs(form, d, t, k, all, head, path, end);
    RunCounts(form, d, t, k, all, head, path, end);
  }

  // ---------- comparing forms ----------

  /** At `a` the two forms make the same request and treat the answer to poll `t` alike. */
  predicate SameStep(f: Form, g: Form, d: Device, t: nat, k: int, all: seq<Wc>, a: At) {
    && Wants(f, k, a.tot) == Wants(g, k, a.tot)
    && (Wants(f, k, a.tot) && a.head <= |all| ==>
          && Request(f, k, a.tot) == Request(g, k, a.tot)
          && var n := Polled(d, t, Request(f, k, a.tot), |all| - a.head);
             var good := Succeeded(all, a.head, a.head + Removed(n));
             Judge(f, k, a.tot, n, good) == Judge(g, k, a.tot, n, good))
  }

  predicate SameSteps(f: Form, g: Form, d: Device, t: nat, k: int, all: seq<Wc>, path: seq<At>) {
    forall i :: 0 <= i < |path| ==> SameStep(f, g, d, t + i, k, all, path[i])
  }

  lemma {:induction false} PathsAgree(
    f: Form, g: Form, d: Device, t: nat, k: int, all: seq<Wc>, p: seq<At>, q: seq<At>, i: nat)
    requires Path(f, d, t, k, all, p) && Path(g, d, t, k, all, q) && p[0] == q[0]
    requires SameSteps(f, g, d, t, k, all, p) && i < |p| && i < |q|
    ensures p[i] == q[i]
  {
    if i > 0 {
      PathsAgree(f, g, d, t, k, all, p, q, i - 1);
      assert StepAt(f, d, t, k, all, p, i - 1);
      assert StepAt(g, d, t, k, all, q, i - 1);
      assert SameStep(f, g, d, t + (i - 1), k, all, p[i - 1]);
    }
  }

  lemma EndsAlike(f: Form, g: Form, d: Device, t: nat, k: int, all: seq<Wc>, a: At, e: LoopEnd, e': LoopEnd)
    requires SameStep(f, g, d, t, k, all, a) && Ends(f, d, t, k, all, a, e) && Ends(g, d, t, k, all, a, e')
    ensures e == e'
  {
  }

  /** Where one form ends, another that steps alike does not go on. */
  lemma EndsNotGoesOn(f: Form, g: Form, d: Device, t: nat, k: int, all: seq<Wc>, a: At, e: LoopEnd)
    requires SameStep(f, g, d, t, k, all, a) || SameStep(g, f, d, t, k, all, a)
    requires Ends(f, d, t, k, all, a, e)
    ensures forall b :: !GoesOn(g, d, t, k, all, a, b)
  {
  }

  lemma PathGoesOn(form: Form, d: Device, t: nat, k: int, all: seq<Wc>, path: seq<At>, i: nat)
    requires Path(form, d, t, k, all, path) && i < |path|
    ensures i < |path| - 1 ==> GoesOn(form, d, t + i, k, all, path[i], path[i + 1])
  {
    assert i < |path| - 1 ==> StepAt(form, d, t, k, all, path, i);
  }

  /** A path does not go on past where another form that steps alike ends. */
  lemma NotLonger(f: Form, g: Form, d: Device, t: nat, k: int, all: seq<Wc>, p: seq<At>, e: LoopEnd, q: seq<At>)
    requires Path(f, d, t, k, all, p) && Ends(f, d, t + |p| - 1, k, all, p[|p| - 1], e)
    requires Path(g, d, t, k, all, q) && p[0] == q[0] && SameSteps(f, g, d, t, k, all, p)
    ensures |q| <= |p|
  {
    var m := |p| - 1;
    if m < |q| {
      PathsAgree(f, g, d, t, k, all, p, q, m);
      PathGoesOn(g, d, t, k, all, q, m);
      EndsNotGoesOn(f, g, d, t + m, k, all, p[m], e);
    }
  }

  lemma NotShorter(f: Form, g: Form, d: Device, t: nat, k: int, all: seq<Wc>, p: seq<At>, q: seq<At>, e: LoopEnd)
    requires Path(f, d, t, k, all, p) && SameSteps(f, g, d, t, k, all, p)
    requires Path(g, d, t, k, all, q) && p[0] == q[0] && Ends(g, d, t + |q| - 1, k, all, q[|q| - 1], e)
    ensures |p| <= |q|
  {
    var m := |q| - 1;
    if m < |p| {
      PathsAgree(f, g, d, t, k, all, p, q, m);
      PathGoesOn(f, d, t, k, all, p, m);
      EndsNotGoesOn(g, f, d, t + m, k, all, q[m], e);
    }
  }

  lemma SamePath(f: Form, g: Form, d: Device, t: nat, k: int, all: seq<Wc>, head: nat,
                 p: seq<At>, e: LoopEnd, q: seq<At>, e': LoopEnd)
    requires Runs(f, d, t, k, all, head, p, e) && Runs(g, d, t, k, all, head, q, e')
    requires SameSteps(f, g, d, t, k, all, p)
    ensures |p| == |q| && p[|p| - 1] == q[|p| - 1]
  {
    NotLonger(f, g, d, t, k, all, p, e, q);
    NotShorter(f, g, d, t, k, all, p, q, e');
    PathsAgree(f, g, d, t, k, all, p, q, |p| - 1);
  }

  /** A run is determined by the device and the queue; two forms that step alike along it end alike. */
  lemma RunsAgree(f: Form, g: Form, d: Device, t: nat, k: int, all: seq<Wc>, head: nat,
                  p: seq<At>, e: LoopEnd, q: seq<At>, e': LoopEnd)
    requires Runs(f, d, t, k, all, head, p, e) && Runs(g, d, t, k, all, head, q, e')
    requires SameSteps(f, g, d, t, k, all, p)
    ensures e == e'
  {
    SamePath(f, g, d, t, k, all, head, p, e, q, e');
    EndsAlike(f, g, d, t + |p| - 1, k, all, p[|p| - 1], e, e');
  }

  // ---------- the blocking forms ----------

  lemma {:induction false} BlockingStaysBelow(
    withWc: bool, d: Device, t: nat, k: nat, all: seq<Wc>, path: seq<At>, i: nat)
    requires Path(Poll(withWc), d, t, k, all, path) && path[0].tot <= k && i < |path|
    ensures path[i].tot <= k
  {
    if i > 0 {
      BlockingStaysBelow(withWc, d, t, k, all, path, i - 1);
      assert StepAt(Poll(withWc), d, t, k, all, path, i - 1);
    }
  }

  /**
   Every finished `poll(k)`, for a `k` of either sign, and every finished `poll_with_wc(k)` that got a vector: if
   it stops it has counted exactly `k`, so it has consumed one completion too many for every unit of error it was
   answered. `poll` never overruns.
   */
  lemma BlockingConsumesErrorsToo(
    withWc: bool, d: Device, t: nat, k: int, all: seq<Wc>, head: nat, end: LoopEnd)
    requires RunsTo(Poll(withWc), d, t, k, all, head, end) && head <= |all| && (withWc ==> k >= 0)
    ensures end.ending.Stopped? ==> end.tot == k && end.head == head + k + Errors(d, t, end.polls)
    ensures end.ending.Overrun? ==> withWc
  {
    var path :| Runs(Poll(withWc), d, t, k, all, head, path, end);
    if withWc {
      BlockingStaysBelow(withWc, d, t, k, all, path, |path| - 1);
    }
    RunConsumesPrefix(Poll(withWc), d, t, k, all, head, end);
  }

  /** What a run that met no error has consumed before its last poll. */
  lemma BlockingBeforeLast(
    withWc: bool, d: Device, t: nat, k: nat, all: seq<Wc>, head: nat, path: seq<At>, end: LoopEnd)
    requires Runs(Poll(withWc), d, t, k, all, head, path, end) && head <= |all|
    requires Errors(d, t, end.polls) == 0
    ensures var last := path[|path| - 1];
            && last.head == head + last.tot && 0 <= last.tot <= k && Succeeded(all, head, last.head)
            && (end.polls > t + |path| - 1 ==> d(end.polls - 1) >= 0)
  {
    var last := |path| - 1;
    PathCounts(Poll(withWc), d, t, k, all, path, last);
    BlockingStaysBelow(withWc, d, t, k, all, path, last);
    EndCounts(Poll(withWc), d, t + last, k, all, path[last], end);
    OneError(d, t, t + last);
  }

  /**
   For every way the device splits the queue: a blocking call that met no error has consumed exactly
   the first `k` completions, and it panics iff one of those had failed.
   */
  lemma BlockingTakesExactly(
    withWc: bool, d: Device, t: nat, k: nat, all: seq<Wc>, head: nat, end: LoopEnd)
    requires RunsTo(Poll(withWc), d, t, k, all, head, end) && head + k <= |all|
    requires Errors(d, t, end.polls) == 0
    ensures end.ending.Panicked? <==> !Succeeded(all, head, head + k)
    ensures !end.ending.Panicked? ==> end.ending.Stopped? && end.head == head + k
  {
    var path :| Runs(Poll(withWc), d, t, k, all, head, path, end);
    BlockingBeforeLast(withWc, d, t, k, all, head, path, end);
    RunConsumesPrefix(Poll(withWc), d, t, k, all, head, end);
    BlockingConsumesErrorsToo(withWc, d, t, k, all, head, end);
  }

  /** The same for a caller that has had to allow for errors. */
  lemma BlockingWithoutErrors(
    withWc: bool, d: Device, w: Patience, t: nat, k: nat, all: seq<Wc>, head: nat, end: LoopEnd)
    requires RunsTo(Poll(withWc), d, t, k, all, head, end) && Enough(d, w, t, k, all, head)
    ensures head + k <= |all|
    ensures Errors(d, t, end.polls) == 0 ==>
              && (end.ending.Stopped? <==> Succeeded(all, head, head + k))
              && (end.ending.Stopped? ==> end.head == head + k)
  {
    if Errors(d, t, end.polls) == 0 {
      BlockingTakesExactly(withWc, d, t, k, all, head, end);
    }
  }

  lemma BlockingStepsAlike(d: Device, t: nat, k: nat, all: seq<Wc>, head: nat, p: seq<At>, e: LoopEnd)
    requires Runs(Poll(true), d, t, k, all, head, p, e) && !e.ending.Overrun?
    ensures SameSteps(Poll(true), Poll(false), d, t, k, all, p)
  {
    forall i | 0 <= i < |p| ensures SameStep(Poll(true), Poll(false), d, t + i, k, all, p[i]) {
      BlockingStaysBelow(true, d, t, k, all, p, i);
      if i < |p| - 1 {
        assert StepAt(Poll(true), d, t, k, all, p, i);
      }
    }
  }

  /** The two blocking forms do the same on every device, unless errors send `poll_with_wc` outside its vector. */
  lemma BlockingFormsAgree(d: Device, t: nat, k: nat, all: seq<Wc>, head: nat, e: LoopEnd, e': LoopEnd)
    requires RunsTo(Poll(true), d, t, k, all, head, e) && RunsTo(Poll(false), d, t, k, all, head, e')
    ensures e.ending.Overrun? || e == e'
  {
    var p :| Runs(Poll(true), d, t, k, all, head, p, e);
    var q :| Runs(Poll(false), d, t, k, all, head, q, e');
    if !e.ending.Overrun? {
      BlockingStepsAlike(d, t, k, all, head, p, e);
      RunsAgree(Poll(true), Poll(false), d, t, k, all, head, p, e, q, e');
    }
  }

  // ---------- when poll_with_wc leaves its vector ----------

  /**
   Before poll `i` of the run the loop has been answered more units of error than it has consumed completions,
   and the poll hands over completions, none of them failed: they would go before the start of the vector.
   */
  predicate WritesBefore(d: Device, t: nat, k: int, all: seq<Wc>, head: nat, path: seq<At>, i: nat)
    requires i < |path|
  {
    var a := path[i];
    && a.tot < k && head <= a.head < |all| && a.head - head < Errors(d, t, t + i) && d(t + i) > 0
    && Succeeded(all, a.head, a.head + Min(d(t + i), Min(Min(k - a.tot, MAX_POLL), |all| - a.head)))
  }

  /** Run by run: `poll_with_wc` leaves its vector exactly when some poll writes before its start. */
  lemma PollWithWcOverrunsExactly(d: Device, t: nat, k: int, all: seq<Wc>, head: nat, path: seq<At>, end: LoopEnd)
    requires Runs(Poll(true), d, t, k, all, head, path, end) && head <= |all|
    ensures end.ending.Overrun? <==> exists i :: 0 <= i < |path| && WritesBefore(d, t, k, all, head, path, i)
  {
    var last := |path| - 1;
    PathCounts(Poll(true), d, t, k, all, path, last);
    if end.ending.Overrun? {
      assert WritesBefore(d, t, k, all, head, path, last);
    }
    forall i | 0 <= i < |path| && WritesBefore(d, t, k, all, head, path, i) ensures end.ending.Overrun? {
      PathCounts(Poll(true), d, t, k, all, path, i);
      if i < last {
        assert StepAt(Poll(true), d, t, k, all, path, i);
      }
    }
  }

  /** One error on the first poll is enough, whatever the size. */
  lemma PollWithWcErrorWitness(k: int)
    requires k > 0
    ensures var d := (t: nat) => if t == 0 then -1 else 1;
            Runs(Poll(true), d, 0, k, Successes(k), 0, [At(0, 0), At(-1, 0)], LoopEnd(Overrun, -1, 2, 1))
  {
  }

  // ---------- when a blocking form ends ----------

  lemma EndsOrPolls(withWc: bool, d: Device, t: nat, k: int, all: seq<Wc>, a: At) returns (b: At, end: LoopEnd)
    requires a.head <= |all| && a.tot >= 0 && d(t) >= 0 && (k >= a.tot || withWc)
    ensures Ends(Poll(withWc), d, t, k, all, a, end)
            || (&& GoesOn(Poll(withWc), d, t, k, all, a, b) && b.head <= |all| && b.tot <= k
                && b.tot - a.tot == b.head - a.head == Min(d(t), Min(Min(k - a.tot, MAX_POLL), |all| - a.head))
                && Succeeded(all, a.head, b.head))
  {
    b, end := a, LoopEnd(Stopped, a.tot, t, a.head);
    if Wants(Poll(withWc), k, a.tot) {
      var n := Polled(d, t, Request(Poll(withWc), k, a.tot), |all| - a.head);
      b := At(a.tot + n, a.head + Removed(n));
      if !Succeeded(all, a.head, b.head) {
        end := LoopEnd(Panicked, a.tot, t + 1, b.head);
      }
    }
  }

  /** The queue holds what the loop wants, or a failed completion that it will come to first. */
  predicate CanFinish(k: int, all: seq<Wc>, a: At) {
    a.head <= |all| && (k - a.tot <= |all| - a.head || !Succeeded(all, a.head, |all|))
  }

  lemma {:induction false} BlockingFinishes(withWc: bool, d: Device, w: Patience, t: nat, k: int, all: seq<Wc>, a: At)
    returns (path: seq<At>, end: LoopEnd)
    requires Patient(d, w) && w.quiet <= t && a.tot >= 0 && (k >= a.tot || withWc) && CanFinish(k, all, a)
    ensures RunsFrom(Poll(withWc), d, t, k, all, a, path, end)
    decreases |all| - a.head, w.next(t) - t
  {
    assert d(t) >= 0 && NextIsRight(d, w, t);
    var b;
    b, end := EndsOrPolls(withWc, d, t, k, all, a);
    path := [a];
    if !Ends(Poll(withWc), d, t, k, all, a, end) {
      var rest;
      rest, end := BlockingFinishes(withWc, d, w, t + 1, k, all, b);
      RunGrows(Poll(withWc), d, t, k, all, a, b, rest, end);
      path := [a] + rest;
    }
  }

  /**
   On a device that is past its errors and never silent for good, a blocking form ends exactly when its count is
   not negative and the queue holds as many completions, or a failed one. A negative count makes `poll` run forever.
   */
  lemma BlockingEndsExactly(withWc: bool, d: Device, w: Patience, t: nat, k: int, all: seq<Wc>, head: nat)
    requires Patient(d, w) && w.quiet <= t && head <= |all|
    ensures (exists end :: RunsTo(Poll(withWc), d, t, k, all, head, end))
            <==> (k < 0 ==> withWc) && (k > |all| - head ==> !Succeeded(all, head, |all|))
  {
    if (k < 0 ==> withWc) && (k > |all| - head ==> !Succeeded(all, head, |all|)) {
      var path, end := BlockingFinishes(withWc, d, w, t, k, all, At(0, head));
      assert Runs(Poll(withWc), d, t, k, all, head, path, end);
      assert RunsTo(Poll(withWc), d, t, k, all, head, end);
    }
    forall end | RunsTo(Poll(withWc), d, t, k, all, head, end)
      ensures (k < 0 ==> withWc) && (k > |all| - head ==> !Succeeded(all, head, |all|))
    {
      NoErrors(d, t, end.polls);
      EndedEnough(withWc, d, t, k, all, head, end);
    }
  }

  lemma EndedEnough(withWc: bool, d: Device, t: nat, k: int, all: seq<Wc>, head: nat, end: LoopEnd)
    requires RunsTo(Poll(withWc), d, t, k, all, head, end) && head <= |all| && Errors(d, t, end.polls) == 0
    ensures (k < 0 ==> withWc) && (k > |all| - head ==> !Succeeded(all, head, |all|))
  {
    RunConsumesPrefix(Poll(withWc), d, t, k, all, head, end);
    if k >= 0 {
      var path :| Runs(Poll(withWc), d, t, k, all, head, path, end);
      BlockingBeforeLast(withWc, d, t, k, all, head, path, end);
      BlockingConsumesErrorsToo(withWc, d, t, k, all, head, end);
    } else if !withWc {
      NegativeWaits(d, t, k, all, head, end);
    }
  }

  /** As long as it is answered no error, `poll` with a negative count hears nothing and goes on. */
  lemma NegativeWaits(d: Device, t: nat, k: int, all: seq<Wc>, head: nat, end: LoopEnd)
    requires RunsTo(Poll(false), d, t, k, all, head, end) && head <= |all| && k < 0
    ensures Errors(d, t, end.polls) > 0
  {
    var path :| Runs(Poll(false), d, t, k, all, head, path, end);
    var last := |path| - 1;
    assert t + last <= end.polls;
    ErrorsSplit(d, t, t + last, end.polls);
    if Errors(d, t, t + last) == 0 {
      NegativePath(d, t, k, all, path, last);
    }
  }

  lemma {:induction false} NegativePath(d: Device, t: nat, k: int, all: seq<Wc>, path: seq<At>, i: nat)
    requires Path(Poll(false), d, t, k, all, path) && i < |path| && k < path[0].tot
    requires Errors(d, t, t + i) == 0
    ensures path[i] == path[0]
  {
    if i > 0 {
      OneError(d, t, t + (i - 1));
      NegativePath(d, t, k, all, path, i - 1);
      assert StepAt(Poll(false), d, t, k, all, path, i - 1);
    }
  }

  lemma {:induction false} SilentPath(
    withWc: bool, d: Device, t: nat, k: int, all: seq<Wc>, path: seq<At>, i: nat)
    requires Path(Poll(withWc), d, t, k, all, path) && i < |path| && forall u :: t <= u < t + i ==> d(u) == 0
    ensures path[i] == path[0]
  {
    if i > 0 {
      SilentPath(withWc, d, t, k, all, path, i - 1);
      assert StepAt(Poll(withWc), d, t, k, all, path, i - 1);
    }
  }

  /** On a device that is silent for good a blocking form ends only if it has nothing to wait for. */
  lemma SilentDeviceIsAwaited(withWc: bool, d: Device, t: nat, k: int, all: seq<Wc>, head: nat, end: LoopEnd)
    requires RunsTo(Poll(withWc), d, t, k, all, head, end) && head <= |all| && forall u: nat :: u >= t ==> d(u) == 0
    ensures !Wants(Poll(withWc), k, 0)
  {
    var path :| Runs(Poll(withWc), d, t, k, all, head, path, end);
    var last := |path| - 1;
    SilentPath(withWc, d, t, k, all, path, last);
    assert d(t + last) == 0;
  }

  // ---------- the trying forms ----------

  lemma PathGrows(form: Form, d: Device, t: nat, k: int, all: seq<Wc>, a: At, rest: seq<At>)
    requires Path(form, d, t + 1, k, all, rest) && GoesOn(form, d, t, k, all, a, rest[0])
    ensures Path(form, d, t, k, all, [a] + rest)
  {
    var path := [a] + rest;
    forall i | 0 <= i < |path| - 1 ensures StepAt(form, d, t, k, all, path, i) {
      if i > 0 {
        assert StepAt(form, d, t + 1, k, all, rest, i - 1);
      }
    }
  }

  lemma RunGrows(form: Form, d: Device, t: nat, k: int, all: seq<Wc>, a: At, b: At, rest: seq<At>, end: LoopEnd)
    requires RunsFrom(form, d, t + 1, k, all, b, rest, end) && GoesOn(form, d, t, k, all, a, b)
    ensures RunsFrom(form, d, t, k, all, a, [a] + rest, end)
  {
    PathGrows(form, d, t, k, all, a, rest);
  }

  lemma EndsOrGoesOn(form: Form, d: Device, t: nat, k: int, all: seq<Wc>, a: At) returns (b: At, end: LoopEnd)
    requires !form.Poll? && a.head <= |all| && a.tot >= 0
    ensures Ends(form, d, t, k, all, a, end) || (GoesOn(form, d, t, k, all, a, b) && b.tot > a.tot && b.head <= |all|)
  {
    b, end := a, LoopEnd(Stopped, a.tot, t, a.head);
    if a.tot < k {
      var n := Polled(d, t, Request(form, k, a.tot), |all| - a.head);
      b := At(a.tot + n, a.head + Removed(n));
      var verdict := Judge(form, k, a.tot, n, Succeeded(all, a.head, b.head));
      if verdict.Finish? {
        end := LoopEnd(verdict.ending, if verdict.ending.Stopped? then b.tot else a.tot, t + 1, b.head);
      }
    }
  }

  /** Every trying form finishes on every device. */
  lemma {:induction false} TryingFinishes(form: Form, d: Device, t: nat, k: int, all: seq<Wc>, a: At)
    returns (path: seq<At>, end: LoopEnd)
    requires !form.Poll? && a.head <= |all| && a.tot >= 0
    ensures RunsFrom(form, d, t, k, all, a, path, end)
    decreases k - a.tot
  {
    var b;
    b, end := EndsOrGoesOn(form, d, t, k, all, a);
    path := [a];
    if !Ends(form, d, t, k, all, a, end) {
      var rest;
      rest, end := TryingFinishes(form, d, t + 1, k, all, b);
      RunGrows(form, d, t, k, all, a, b, rest, end);
      path := [a] + rest;
    }
  }

  /** The form writes only inside its buffers, whatever the device does. */
  ghost predicate NeverOverruns(form: Form, k: int) {
    forall d: Device, t: nat, all: seq<Wc>, head: nat, end: LoopEnd ::
      head <= |all| && RunsTo(form, d, t, k, all, head, end) ==> !end.ending.Overrun?
  }

  predicate Bounded(form: Form, k: int) {
    match form
    case Poll(withWc) => withWc ==> k <= 0
    case TryPoll(written) => written ==> k <= 32
    case TryPollWithWc(written) => written ==> k <= 32 || k % 32 == 0
  }

  /** What a trying loop keeps while it stays inside: as written it counts in whole batches. */
  predicate OnTrack(form: Form, k: nat, tot: int)
    requires !form.Poll?
  {
    && 0 <= tot <= k && Bounded(form, k)
    && (form.written ==> tot == 0 || tot == k || (form.TryPollWithWc? && tot % MAX_POLL == 0 && k % MAX_POLL == 0))
  }

  lemma BoundedBatch(form: Form, k: nat, tot: nat, n: int)
    requires !form.Poll? && OnTrack(form, k, tot) && tot < k && n <= Request(form, k, tot)
    ensures Request(form, k, tot) == Asked(form, k, tot) == Min(k - tot, MAX_POLL)
    ensures n <= MAX_POLL && tot + n <= k
    ensures n >= Asked(form, k, tot) ==> OnTrack(form, k, tot + n)
  {
    if form == TryPollWithWc(true) && k > MAX_POLL {
      assert tot + MAX_POLL <= k && (tot + MAX_POLL) % MAX_POLL == 0;
    }
  }

  lemma {:induction false} PathStaysOnTrack(
    form: Form, d: Device, t: nat, k: nat, all: seq<Wc>, path: seq<At>, i: nat)
    requires !form.Poll? && Bounded(form, k) && Path(form, d, t, k, all, path) && path[0].tot == 0 && i < |path|
    ensures OnTrack(form, k, path[i].tot)
  {
    if i > 0 {
      PathStaysOnTrack(form, d, t, k, all, path, i - 1);
      assert StepAt(form, d, t, k, all, path, i - 1);
      BoundedBatch(form, k, path[i - 1].tot, path[i].tot - path[i - 1].tot);
    }
  }

  function Successes(n: nat): (ws: seq<Wc>)
    ensures |ws| == n && Succeeded(ws, 0, n)
  {
    seq(n, _ => Wc(true, 0, 0, 0, 0))
  }

  /** A device that fills every request keeps the written `try_poll_with_wc` in whole batches of 32. */
  lemma {:induction false} GreedyPath(d: Device, k: nat, all: seq<Wc>, path: seq<At>, i: nat)
    requires (forall u: nat :: d(u) == MAX_POLL) && k > MAX_POLL && |all| >= k + MAX_POLL && Succeeded(all, 0, |all|)
    requires Path(TryPollWithWc(true), d, 0, k, all, path) && path[0] == At(0, 0) && i < |path|
    ensures path[i].tot == path[i].head <= k && path[i].tot % MAX_POLL == 0
  {
    if i > 0 {
      GreedyPath(d, k, all, path, i - 1);
      assert StepAt(TryPollWithWc(true), d, 0, k, all, path, i - 1);
      assert path[i].tot == path[i - 1].tot + MAX_POLL;
    }
  }

  lemma BoundedNeverOverruns(form: Form, d: Device, t: nat, k: int, all: seq<Wc>, head: nat, end: LoopEnd)
    requires Bounded(form, k) && head <= |all| && RunsTo(form, d, t, k, all, head, end)
    ensures !end.ending.Overrun?
  {
    var path: seq<At> :| Runs(form, d, t, k, all, head, path, end);
    var last := path[|path| - 1];
    assert |path| > 1 ==> StepAt(form, d, t, k, all, path, 0);
    if form == Poll(false) {
      BlockingConsumesErrorsToo(false, d, t, k, all, head, end);
    } else if !form.Poll? && k >= 0 {
      PathStaysOnTrack(form, d, t, k, all, path, |path| - 1);
      if last.tot < k {
        BoundedBatch(form, k, last.tot, Polled(d, t + |path| - 1, Request(form, k, last.tot), |all| - last.head));
      }
    }
  }

  /** Beyond the bound, some device makes the form overrun: one that fills every request, or answers one error. */
  lemma UnboundedOverruns(form: Form, k: int) returns (d: Device, all: seq<Wc>, end: LoopEnd)
    requires !Bounded(form, k)
    ensures RunsTo(form, d, 0, k, all, 0, end) && end.ending.Overrun?
  {
    match form {
      case Poll(_) =>
        PollWithWcErrorWitness(k);
        d, all, end := (t: nat) => if t == 0 then -1 else 1, Successes(k), LoopEnd(Overrun, -1, 2, 1);
        assert Runs(form, d, 0, k, all, 0, [At(0, 0), At(-1, 0)], end);
      case TryPoll(_) =>
        d, all, end := (t: nat) => k, Successes(k), LoopEnd(Overrun, 0, 1, k);
        assert Runs(form, d, 0, k, all, 0, [At(0, 0)], end);
      case TryPollWithWc(_) =>
        d, all := (t: nat) => MAX_POLL, Successes(k + MAX_POLL);
        var path;
        path, end := TryingFinishes(form, d, 0, k, all, At(0, 0));
        GreedyPath(d, k, all, path, |path| - 1);
        assert Runs(form, d, 0, k, all, 0, path, end);
    }
  }

  /**
   The exact request sizes for which each form is safe on every device: all of them for `poll` and for the
   bounded trying forms; none but the empty ones for `poll_with_wc`, which takes no error; at most 32 for `try_poll`
   as written; at most 32 or a multiple of 32 for `try_poll_with_wc` as written.
   */
  lemma NeverOverrunsExactly(form: Form, k: int)
    ensures NeverOverruns(form, k) <==> Bounded(form, k)
  {
    if Bounded(form, k) {
      forall d: Device, t: nat, all: seq<Wc>, head: nat, end: LoopEnd
        | head <= |all| && RunsTo(form, d, t, k, all, head, end)
        ensures !end.ending.Overrun?
      {
        BoundedNeverOverruns(form, d, t, k, all, head, end);
      }
    } else {
      var d, all, end := UnboundedOverruns(form, k);
    }
  }

  ghost predicate AlwaysAgree(written: bool, k: nat) {
    forall d: Device, t: nat, all: seq<Wc>, head: nat, e: LoopEnd, e': LoopEnd ::
      && RunsTo(TryPoll(written), d, t, k, all, head, e)
      && RunsTo(TryPollWithWc(written), d, t, k, all, head, e')
      ==> e == e'
  }

  lemma TryFormsStepAlike(written: bool, d: Device, t: nat, k: nat, all: seq<Wc>, p: seq<At>)
    requires Path(TryPoll(written), d, t, k, all, p) && p[0].tot == 0 && (written ==> k <= MAX_POLL)
    ensures SameSteps(TryPoll(written), TryPollWithWc(written), d, t, k, all, p)
  {
    forall i | 0 <= i < |p|
      ensures SameStep(TryPoll(written), TryPollWithWc(written), d, t + i, k, all, p[i])
    {
      PathStaysOnTrack(TryPoll(written), d, t, k, all, p, i);
    }
  }

  /** The two trying forms end alike on every device exactly for k <= 32 as written, and for every k once bounded. */
  lemma TryFormsAgreeExactly(written: bool, k: nat)
    ensures AlwaysAgree(written, k) <==> (written ==> k <= 32)
  {
    var f, g := TryPoll(written), TryPollWithWc(written);
    if written ==> k <= MAX_POLL {
      forall d: Device, t: nat, all: seq<Wc>, head: nat, e: LoopEnd, e': LoopEnd
        | RunsTo(f, d, t, k, all, head, e) && RunsTo(g, d, t, k, all, head, e')
        ensures e == e'
      {
        var p :| Runs(f, d, t, k, all, head, p, e);
        var q :| Runs(g, d, t, k, all, head, q, e');
        TryFormsStepAlike(written, d, t, k, all, p);
        RunsAgree(f, g, d, t, k, all, head, p, e, q, e');
      }
    } else {
      var d, all := (t: nat) => k, Successes(k);
      assert Runs(f, d, 0, k, all, 0, [At(0, 0)], LoopEnd(Overrun, 0, 1, k));
      var q, e' := TryingFinishes(g, d, 0, k, all, At(0, 0));
      assert Runs(g, d, 0, k, all, 0, q, e');
      assert RunsTo(f, d, 0, k, all, 0, LoopEnd(Overrun, 0, 1, k)) && RunsTo(g, d, 0, k, all, 0, e');
    }
  }

  // ---------- trying against blocking ----------

  predicate CameShort(k: int, end: LoopEnd) {
    end.ending.Stopped? && end.tot < k
  }

  /** The poll at `a` gets all that it asks for, or a failure. */
  predicate IsFull(form: Form, d: Device, t: nat, k: int, all: seq<Wc>, a: At)
    requires a.head <= |all|
  {
    var n := Polled(d, t, Request(form, k, a.tot), |all| - a.head);
    n >= Asked(form, k, a.tot) || !Succeeded(all, a.head, a.head + Removed(n))
  }

  /** If a trying form does not come short, every poll it makes is full. */
  lemma FullUpTo(form: Form, d: Device, t: nat, k: nat, all: seq<Wc>, head: nat, p: seq<At>, e: LoopEnd, i: nat)
    requires !form.Poll? && Bounded(form, k) && head <= |all| && i < |p|
    requires Runs(form, d, t, k, all, head, p, e) && !CameShort(k, e)
    ensures OnTrack(form, k, p[i].tot) && p[i].head <= |all|
    ensures p[i].tot < k ==> IsFull(form, d, t + i, k, all, p[i])
  {
    PathCounts(form, d, t, k, all, p, i);
    PathStaysOnTrack(form, d, t, k, all, p, i);
    if i < |p| - 1 {
      assert StepAt(form, d, t, k, all, p, i);
    } else if p[i].tot < k {
      EndsFull(form, d, t + i, k, all, p[i], e);
    }
  }

  lemma EndsFull(form: Form, d: Device, t: nat, k: nat, all: seq<Wc>, a: At, e: LoopEnd)
    requires !form.Poll? && OnTrack(form, k, a.tot) && a.tot < k
    requires Ends(form, d, t, k, all, a, e) && !CameShort(k, e)
    ensures IsFull(form, d, t, k, all, a)
  {
    BoundedBatch(form, k, a.tot, Polled(d, t, Request(form, k, a.tot), |all| - a.head));
  }

  lemma FullBatchIsBlocking(form: Form, withWc: bool, d: Device, t: nat, k: nat, all: seq<Wc>, a: At)
    requires !form.Poll? && OnTrack(form, k, a.tot) && a.head <= |all|
    requires a.tot < k ==> IsFull(form, d, t, k, all, a)
    ensures SameStep(form, Poll(withWc), d, t, k, all, a)
  {
    if a.tot < k {
      BoundedBatch(form, k, a.tot, Polled(d, t, Request(form, k, a.tot), |all| - a.head));
    }
  }

  lemma TryingStepsLikeBlocking(
    form: Form, withWc: bool, d: Device, t: nat, k: nat, all: seq<Wc>, head: nat, p: seq<At>, e: LoopEnd)
    requires !form.Poll? && Bounded(form, k) && head <= |all|
    requires Runs(form, d, t, k, all, head, p, e) && !CameShort(k, e)
    ensures SameSteps(form, Poll(withWc), d, t, k, all, p)
  {
    forall i | 0 <= i < |p| ensures SameStep(form, Poll(withWc), d, t + i, k, all, p[i]) {
      FullUpTo(form, d, t, k, all, head, p, e, i);
      FullBatchIsBlocking(form, withWc, d, t + i, k, all, p[i]);
    }
  }

  /**
   All four loops on the same device and queue: a trying form, written or bounded, at any size that is safe for it,
   ends just as either blocking form does exactly when it does not come short.
   */
  lemma TryingIsBlockingExactly(
    form: Form, withWc: bool, d: Device, t: nat, k: nat, all: seq<Wc>, head: nat, e: LoopEnd, e': LoopEnd)
    requires !form.Poll? && Bounded(form, k) && head <= |all|
    requires RunsTo(form, d, t, k, all, head, e) && RunsTo(Poll(withWc), d, t, k, all, head, e')
    ensures e == e' <==> !CameShort(k, e)
  {
    if CameShort(k, e) {
      BlockingConsumesErrorsToo(withWc, d, t, k, all, head, e');
    } else {
      var p :| Runs(form, d, t, k, all, head, p, e);
      var q :| Runs(Poll(withWc), d, t, k, all, head, q, e');
      TryingStepsLikeBlocking(form, withWc, d, t, k, all, head, p, e);
      RunsAgree(form, Poll(withWc), d, t, k, all, head, p, e, q, e');
    }
  }

  /** A trying form at a safe size comes short exactly when its last poll hands over less than it was asked for. */
  lemma ShortExactly(form: Form, d: Device, t: nat, k: nat, all: seq<Wc>, head: nat, path: seq<At>, end: LoopEnd)
    requires !form.Poll? && Bounded(form, k) && head <= |all| && Runs(form, d, t, k, all, head, path, end)
    ensures var last := path[|path| - 1]; var u := t + |path| - 1;
            && last.head <= |all|
            && (CameShort(k, end) <==>
                  && end.ending.Stopped? && end.polls == u + 1 && last.tot < k
                  && Polled(d, u, Min(k - last.tot, MAX_POLL), |all| - last.head) < Min(k - last.tot, MAX_POLL))
            && (CameShort(k, end) ==>
                  end.head == last.head + Removed(Polled(d, u, Min(k - last.tot, MAX_POLL), |all| - last.head)))
  {
    var last := path[|path| - 1];
    PathCounts(form, d, t, k, all, path, |path| - 1);
    PathStaysOnTrack(form, d, t, k, all, path, |path| - 1);
    if last.tot < k {
      BoundedBatch(form, k, last.tot, Polled(d, t + |path| - 1, Request(form, k, last.tot), |all| - last.head));
    }
  }

  /** It polls again only after a poll that got all it asked for: 32, or what is still wanted. */
  lemma TriesOnlyWhileFull(form: Form, d: Device, t: nat, k: nat, all: seq<Wc>, head: nat, path: seq<At>, end: LoopEnd,
                           i: nat)
    requires !form.Poll? && Bounded(form, k) && head <= |all| && Runs(form, d, t, k, all, head, path, end)
    requires i < |path| - 1
    ensures path[i].tot < k && path[i + 1].tot == path[i].tot + Min(k - path[i].tot, 32)
    ensures d(t + i) >= Min(k - path[i].tot, 32)
  {
    PathCounts(form, d, t, k, all, path, i);
    PathStaysOnTrack(form, d, t, k, all, path, i);
    assert StepAt(form, d, t, k, all, path, i);
    BoundedBatch(form, k, path[i].tot, path[i + 1].tot - path[i].tot);
  }

  /** So it comes short only if the device did on the last poll of the run, or the queue is empty now. */
  lemma ShortOnlyIfAPollWas(form: Form, d: Device, t: nat, k: nat, all: seq<Wc>, head: nat, end: LoopEnd)
    requires !form.Poll? && Bounded(form, k) && head <= |all| && RunsTo(form, d, t, k, all, head, end)
    ensures CameShort(k, end) ==> end.polls > t && (d(end.polls - 1) < 32 || end.head == |all|)
  {
    var path :| Runs(form, d, t, k, all, head, path, end);
    ShortExactly(form, d, t, k, all, head, path, end);
  }

  lemma BoundedCount(form: Form, d: Device, t: nat, k: nat, all: seq<Wc>, head: nat, end: LoopEnd)
    requires !form.Poll? && Bounded(form, k) && head <= |all| && RunsTo(form, d, t, k, all, head, end)
    ensures end.ending.Stopped? ==> end.tot <= k
  {
    var path: seq<At> :| Runs(form, d, t, k, all, head, path, end);
    var last := path[|path| - 1];
    PathCounts(form, d, t, k, all, path, |path| - 1);
    PathStaysOnTrack(form, d, t, k, all, path, |path| - 1);
    if last.tot < k {
      BoundedBatch(form, k, last.tot, Polled(d, t + |path| - 1, Request(form, k, last.tot), |all| - last.head));
    }
  }

  /** A device that offers 32 on every poll of the run is drained as far as the call goes. */
  lemma FullDeviceIsDrained(form: Form, d: Device, t: nat, k: nat, all: seq<Wc>, head: nat, end: LoopEnd)
    requires !form.Poll? && Bounded(form, k) && head <= |all| && RunsTo(form, d, t, k, all, head, end)
    requires forall u :: t <= u < end.polls ==> d(u) >= MAX_POLL
    ensures end.ending.Stopped? ==> end.tot == Min(k, |all| - head) && end.head == head + end.tot
  {
    ShortOnlyIfAPollWas(form, d, t, k, all, head, end);
    RunConsumesPrefix(form, d, t, k, all, head, end);
    NoErrors(d, t, end.polls);
    BoundedCount(form, d, t, k, all, head, end);
  }
}
