/**
 `rdma_cq` (cq.h) as the object it is in the source. The methods poll the device in the source's loops, and each
 is proved to end as the module `Completions` says its form does.
 */
module CompletionQueue {
  import opened Words
  import opened Completions

  /** How a call that returns a vector ends; `Threw` is the vector's `length_error`. */
  datatype Result = Done(cqes: seq<Cqe>) | Panic | Wild | Threw

  function EndingOf(r: Result): Ending {
    match r
    case Panic => Panicked
    case Wild => Overrun
    case _ => Stopped
  }

  /** The first `tot` entries of the vector are those of the completions from `start` on. */
  predicate Filled(ret: seq<Cqe>, tot: nat, all: seq<Wc>, start: nat) {
    tot <= |ret| && start + tot <= |all| && forall i :: 0 <= i < tot ==> ret[i] == CqeOf(all[start + i])
  }

  /** As long as no poll has failed, the vector holds the completions consumed so far, in order. */
  predicate InOrder(errors: nat, ret: seq<Cqe>, tot: int, all: seq<Wc>, start: nat, head: nat) {
    errors == 0 ==> 0 <= tot && head == start + tot && Filled(ret, tot, all, start)
  }

  lemma FilledIsCqes(ret: seq<Cqe>, tot: nat, all: seq<Wc>, start: nat)
    requires Filled(ret, tot, all, start)
    ensures ret[..tot] == CqesOf(all, start, start + tot)
  {
  }

  lemma PathExtends(form: Form, d: Device, t: nat, k: int, all: seq<Wc>, path: seq<At>, b: At)
    requires Path(form, d, t, k, all, path)
    requires GoesOn(form, d, t + |path| - 1, k, all, path[|path| - 1], b)
    ensures Path(form, d, t, k, all, path + [b])
  {
    var longer := path + [b];
    forall i | 0 <= i < |longer| - 1 ensures StepAt(form, d, t, k, all, longer, i) {
      assert i < |path| - 1 ==> StepAt(form, d, t, k, all, path, i);
    }
  }

  /** The loop has come to (tot, head) and is about to make poll `now`. */
  predicate CameTo(form: Form, d: Device, t: nat, k: int, all: seq<Wc>, start: nat,
                   path: seq<At>, tot: int, head: nat, now: nat)
  {
    && Path(form, d, t, k, all, path) && path[0] == At(0, start)
    && path[|path| - 1] == At(tot, head) && now == t + |path| - 1
  }

  /** The loop can come to (tot, head) before poll `now`. */
  ghost predicate StandsAt(form: Form, d: Device, t: nat, k: int, all: seq<Wc>, start: nat,
                           tot: int, head: nat, now: nat)
  {
    exists path :: CameTo(form, d, t, k, all, start, path, tot, head, now)
  }

  lemma Starts(form: Form, d: Device, t: nat, k: int, all: seq<Wc>, start: nat)
    ensures StandsAt(form, d, t, k, all, start, 0, start, t)
  {
    assert CameTo(form, d, t, k, all, start, [At(0, start)], 0, start, t);
  }

  /** What the loop learns from a poll: the status check, and the fit of the batch for a vector form. */
  predicate PollEnding(form: Form, k: int, tot: int, n: int, good: bool, ending: Ending) {
    ending == if n > MAX_POLL then Overrun
              else if !good then Panicked
              else if FillsVector(form) && n > 0 && (tot < 0 || tot + n > k) then Overrun
              else Stopped
  }

  predicate IsOver(form: Form, k: int, tot: int, n: int, ending: Ending) {
    !ending.Stopped? || (!form.Poll? && n < Asked(form, k, tot))
  }

  /** How a loop ends that a poll ended: a batch that is not taken is not counted. */
  function EndAfter(tot: int, n: int, ending: Ending, polls: nat, head: nat): LoopEnd {
    LoopEnd(ending, if ending.Stopped? then tot + n else tot, polls, head)
  }

  lemma PollDecides(form: Form, d: Device, k: int, all: seq<Wc>, a: At, now: nat, n: int, next: nat, ending: Ending)
    requires Wants(form, k, a.tot) && a.head <= |all|
    requires n == Polled(d, now, Request(form, k, a.tot), |all| - a.head) && next == a.head + Removed(n)
    requires PollEnding(form, k, a.tot, n, Succeeded(all, a.head, next), ending)
    ensures if IsOver(form, k, a.tot, n, ending)
            then Ends(form, d, now, k, all, a, EndAfter(a.tot, n, ending, now + 1, next))
            else GoesOn(form, d, now, k, all, a, At(a.tot + n, next))
  {
  }

  /** After a poll that returned `n` the loop has ended, or it has come one step further. */
  lemma OnePoll(form: Form, d: Device, t: nat, k: int, all: seq<Wc>, start: nat, tot: int, head: nat, now: nat,
                n: int, next: nat, ending: Ending)
    requires StandsAt(form, d, t, k, all, start, tot, head, now) && Wants(form, k, tot) && head <= |all|
    requires n == Polled(d, now, Request(form, k, tot), |all| - head) && next == head + Removed(n)
    requires PollEnding(form, k, tot, n, Succeeded(all, head, next), ending)
    ensures if IsOver(form, k, tot, n, ending)
            then RunsTo(form, d, t, k, all, start, EndAfter(tot, n, ending, now + 1, next))
            else StandsAt(form, d, t, k, all, start, tot + n, next, now + 1)
  {
    var path :| CameTo(form, d, t, k, all, start, path, tot, head, now);
    PollDecides(form, d, k, all, At(tot, head), now, n, next, ending);
    if IsOver(form, k, tot, n, ending) {
      assert Runs(form, d, t, k, all, start, path, EndAfter(tot, n, ending, now + 1, next));
    } else {
      PathExtends(form, d, t, k, all, path, At(tot + n, next));
      assert CameTo(form, d, t, k, all, start, path + [At(tot + n, next)], tot + n, next, now + 1);
    }
  }

  lemma NoMorePolls(form: Form, d: Device, t: nat, k: int, all: seq<Wc>, start: nat, tot: int, head: nat, now: nat)
    requires StandsAt(form, d, t, k, all, start, tot, head, now) && !Wants(form, k, tot) && head <= |all|
    ensures RunsTo(form, d, t, k, all, start, LoopEnd(Stopped, tot, now, head))
  {
    var path :| CameTo(form, d, t, k, all, start, path, tot, head, now);
    assert Runs(form, d, t, k, all, start, path, LoopEnd(Stopped, tot, now, head));
  }

  class Cq {
    const device: Device
    var all: seq<Wc>
    var head: nat
    var polls: nat

    ghost predicate Valid()
      reads this
    {
      head <= |all|
    }

    /** A new queue of a device that will deliver `all`. */
    constructor (device: Device, all: seq<Wc>)
      ensures Valid() && this.device == device && this.all == all && head == 0 && polls == 0
    {
      this.device := device;
      this.all := all;
      head, polls := 0, 0;
    }

    /** The device: writes the completions it hands over as far as the array goes. */
    method IbvPollCq(request: int, wc: array<Wc>) returns (n: int)
      requires Valid()
      modifies this`head, this`polls, wc
      ensures Valid() && polls == old(polls) + 1
      ensures n == Polled(device, old(polls), request, |all| - old(head)) && head == old(head) + Removed(n)
      ensures forall i :: 0 <= i < n && i < wc.Length ==> wc[i] == all[old(head) + i]
    {
      n := Polled(device, polls, request, |all| - head);
      for i := 0 to Min(Removed(n), wc.Length)
        invariant head == old(head) && polls == old(polls)
        invariant forall j :: 0 <= j < i ==> wc[j] == all[head + j]
      {
        wc[i] := all[head + i];
      }
      polls := polls + 1;
      head := head + Removed(n);
    }

    /** `do_poll`, where `Stopped` means that it returned. */
    method DoPoll(request: int, wc: array<Wc>) returns (n: int, ending: Ending)
      requires Valid()
      modifies this`head, this`polls, wc
      ensures Valid() && polls == old(polls) + 1
      ensures n == Polled(device, old(polls), request, |all| - old(head)) && head == old(head) + Removed(n)
      ensures ending == if n > wc.Length then Overrun
                        else if !Succeeded(all, old(head), head) then Panicked else Stopped
      ensures forall i :: 0 <= i < n && i < wc.Length ==> wc[i] == all[old(head) + i]
    {
      n := IbvPollCq(request, wc);
      if n > wc.Length {
        return n, Overrun;
      }
      var i := 0;
      while i < n
        invariant 0 <= i <= Removed(n)
        invariant forall j :: 0 <= j < i ==> wc[j].success
      {
        if !wc[i].success {
          return n, Panicked;
        }
        i := i + 1;
      }
      assert forall j :: old(head) <= j < head ==> all[j] == wc[j - old(head)];
      ending := Stopped;
    }

    /** Copies a batch, the completions from `from` on, to `ret[tot..tot + n]`. */
    method CopyBatch(wc: array<Wc>, n: int, ret: seq<Cqe>, tot: nat, ghost start: nat, ghost from: nat)
      returns (filled: seq<Cqe>)
      requires n <= wc.Length && tot + Removed(n) <= |ret| && from + Removed(n) <= |all|
      requires forall i :: 0 <= i < n ==> wc[i] == all[from + i]
      ensures |filled| == |ret|
      ensures Filled(ret, tot, all, start) && from == start + tot ==> Filled(filled, tot + Removed(n), all, start)
    {
      filled := ret;
      for i := 0 to Removed(n)
        invariant |filled| == |ret|
        invariant Filled(ret, tot, all, start) && from == start + tot ==> Filled(filled, tot + i, all, start)
      {
        filled := filled[tot + i := Cqe(wc[i].op, wc[i].wrId, wc[i].byteLen, wc[i].immData)];
      }
    }

    /**
     One poll of a loop with a result vector: the batch goes to `ret[tot..tot + n]`, and `Overrun`
     says that this is not inside the vector.
     */
    method PollInto(request: int, wc: array<Wc>, ret: seq<Cqe>, tot: int, ghost start: nat, ghost errors: nat)
      returns (n: int, ending: Ending, filled: seq<Cqe>)
      requires Valid() && request <= wc.Length && InOrder(errors, ret, tot, all, start, head)
      modifies this`head, this`polls, wc
      ensures Valid() && polls == old(polls) + 1
      ensures n == Polled(device, old(polls), request, |all| - old(head)) && head == old(head) + Removed(n)
      ensures ending == if !Succeeded(all, old(head), head) then Panicked
                        else if n > 0 && (tot < 0 || tot + n > |ret|) then Overrun else Stopped
      ensures |filled| == |ret|
      ensures n <= 0 ==> filled == ret
      ensures ending.Stopped? ==> InOrder(errors + Deficit(n), filled, tot + n, all, start, head)
    {
      filled := ret;
      n, ending := DoPoll(request, wc);
      if ending.Stopped? && n > 0 {
        if tot < 0 || tot + n > |ret| {
          return n, Overrun, ret;
        }
        filled := CopyBatch(wc, n, ret, tot, start, old(head));
      }
    }

    /** One iteration of `poll`, begun at poll `t` with `start` completions already consumed. */
    method PollAwayOnce(numEntries: int, ghost k: int, ghost w: Patience, wc: array<Wc>, ghost t: nat, ghost start: nat)
      returns (n: int, ending: Ending)
      requires Valid() && Patient(device, w) && Enough(device, w, polls, numEntries, all, head)
      requires wc.Length == MAX_POLL && numEntries != 0
      requires StandsAt(Form.Poll(false), device, t, k, all, start, k - numEntries, head, polls)
      modifies this`head, this`polls, wc
      ensures Valid() && polls == old(polls) + 1
      ensures !ending.Stopped? ==>
                RunsTo(Form.Poll(false), device, t, k, all, start, LoopEnd(ending, k - numEntries, polls, head))
      ensures ending.Stopped? ==>
                && n <= Removed(numEntries) && Nearer(w, old(polls), n)
                && Enough(device, w, polls, numEntries - n, all, head)
                && StandsAt(Form.Poll(false), device, t, k, all, start, k - numEntries + n, head, polls)
    {
      ghost var from, now := head, polls;
      StaysEnough(device, w, now, numEntries, all, from);
      n, ending := DoPoll(Min(numEntries, MAX_POLL), wc);
      OnePoll(Form.Poll(false), device, t, k, all, start, k - numEntries, from, now, n, head, ending);
    }

    /** The loop of `poll`, for a count of either sign: `tot` is what it has counted when it ends. */
    method PollAway(k: int, ghost w: Patience) returns (ending: Ending, ghost tot: int)
      requires Valid() && Patient(device, w) && Enough(device, w, polls, k, all, head)
      modifies this`head, this`polls
      ensures Valid()
      ensures RunsTo(Form.Poll(false), device, old(polls), k, all, old(head), LoopEnd(ending, tot, polls, head))
    {
      var wc := new Wc[MAX_POLL](_ => Wc(false, 0, 0, 0, 0));
      var numEntries := k;
      Starts(Form.Poll(false), device, polls, k, all, head);
      while numEntries != 0
        invariant Valid() && fresh(wc) && wc.Length == MAX_POLL
        invariant Enough(device, w, polls, numEntries, all, head)
        invariant StandsAt(Form.Poll(false), device, old(polls), k, all, old(head), k - numEntries, head, polls)
        decreases if polls < w.quiet then w.quiet - polls else 0, numEntries, w.next(polls) - polls
      {
        var n;
        n, ending := PollAwayOnce(numEntries, k, w, wc, old(polls), old(head));
        if ending != Stopped {
          return ending, k - numEntries;
        }
        numEntries := numEntries - n;
      }
      NoMorePolls(Form.Poll(false), device, old(polls), k, all, old(head), k, head, polls);
      return Stopped, k;
    }

    /**
     `poll(k)`. If it returns it has consumed as many completions as the count and the errors it was answered add up
     to, and none of them had failed; without errors these are exactly the first `k`.
     */
    method Poll(k: int, ghost w: Patience) returns (ending: Ending, ghost tot: int)
      requires Valid() && Patient(device, w) && Enough(device, w, polls, k, all, head)
      modifies this`head, this`polls
      ensures Valid() && old(head) <= head && old(polls) <= polls
      ensures RunsTo(Form.Poll(false), device, old(polls), k, all, old(head), LoopEnd(ending, tot, polls, head))
      ensures if ending.Stopped?
              then head == old(head) + k + Errors(device, old(polls), polls) && Succeeded(all, old(head), head)
              else ending.Panicked? && !Succeeded(all, old(head), head)
      ensures Errors(device, old(polls), polls) == 0 && k >= 0 ==>
                && old(head) + k <= |all|
                && (ending.Stopped? <==> Succeeded(all, old(head), old(head) + k))
    {
      ending, tot := PollAway(k, w);
      ghost var end := LoopEnd(ending, tot, polls, head);
      RunConsumesPrefix(Form.Poll(false), device, old(polls), k, all, old(head), end);
      BlockingConsumesErrorsToo(false, device, old(polls), k, all, old(head), end);
      if k >= 0 {
        BlockingWithoutErrors(false, device, w, old(polls), k, all, old(head), end);
      }
    }

    /** One iteration of `poll_with_wc`, begun at poll `t` with `start` completions already consumed. */
    method PollVectorOnce(k: nat, ghost w: Patience, wc: array<Wc>, ret: seq<Cqe>, tot: int,
                          ghost t: nat, ghost start: nat)
      returns (n: int, ending: Ending, filled: seq<Cqe>)
      requires Valid() && Patient(device, w) && Enough(device, w, polls, k - tot, all, head)
      requires wc.Length == MAX_POLL && |ret| == k && tot < k && t <= polls
      requires StandsAt(Form.Poll(true), device, t, k, all, start, tot, head, polls)
      requires InOrder(Errors(device, t, polls), ret, tot, all, start, head)
      modifies this`head, this`polls, wc
      ensures Valid() && |filled| == k && polls == old(polls) + 1
      ensures !ending.Stopped? ==>
                RunsTo(Form.Poll(true), device, t, k, all, start, LoopEnd(ending, tot, polls, head))
      ensures ending.Stopped? ==>
                && n <= k - tot && Nearer(w, old(polls), n)
                && Enough(device, w, polls, k - tot - n, all, head)
                && StandsAt(Form.Poll(true), device, t, k, all, start, tot + n, head, polls)
                && InOrder(Errors(device, t, polls), filled, tot + n, all, start, head)
    {
      ghost var from, now, errors := head, polls, Errors(device, t, polls);
      StaysEnough(device, w, now, k - tot, all, from);
      OneError(device, t, now);
      n, ending, filled := PollInto(Min(k - tot, MAX_POLL), wc, ret, tot, start, errors);
      OnePoll(Form.Poll(true), device, t, k, all, start, tot, from, now, n, head, ending);
    }

    /** The loop of `poll_with_wc`. */
    method PollVector(k: nat, ghost w: Patience) returns (ret: seq<Cqe>, ending: Ending, ghost tot: int)
      requires Valid() && Patient(device, w) && Enough(device, w, polls, k, all, head)
      modifies this`head, this`polls
      ensures Valid() && |ret| == k && polls >= old(polls)
      ensures RunsTo(Form.Poll(true), device, old(polls), k, all, old(head), LoopEnd(ending, tot, polls, head))
      ensures ending.Stopped? && Errors(device, old(polls), polls) == 0 ==>
                head == old(head) + k && Filled(ret, k, all, old(head))
    {
      ret := seq(k, _ => Cqe(0, 0, 0, 0));
      var wc := new Wc[MAX_POLL](_ => Wc(false, 0, 0, 0, 0));
      var total := 0;
      Starts(Form.Poll(true), device, polls, k, all, head);
      while total < k
        invariant Valid() && fresh(wc) && wc.Length == MAX_POLL && |ret| == k && total <= k && old(polls) <= polls
        invariant Enough(device, w, polls, k - total, all, head)
        invariant StandsAt(Form.Poll(true), device, old(polls), k, all, old(head), total, head, polls)
        invariant InOrder(Errors(device, old(polls), polls), ret, total, all, old(head), head)
        decreases if polls < w.quiet then w.quiet - polls else 0, k - total, w.next(polls) - polls
      {
        var n;
        n, ending, ret := PollVectorOnce(k, w, wc, ret, total, old(polls), old(head));
        if ending != Stopped {
          return ret, ending, total;
        }
        total := total + n;
      }
      NoMorePolls(Form.Poll(true), device, old(polls), k, all, old(head), total, head, polls);
      return ret, Stopped, total;
    }

    /**
     `poll_with_wc(k)`. Unless a poll failed it returns exactly the completions consumed, in order.
     A negative `k` makes the vector throw before any poll.
     */
    method PollWithWc(k: int, ghost w: Patience) returns (result: Result, ghost tot: int)
      requires Valid() && Patient(device, w) && (k >= 0 ==> Enough(device, w, polls, k, all, head))
      modifies this`head, this`polls
      ensures Valid()
      ensures k < 0 ==> result == Threw && head == old(head)
      ensures k >= 0 ==>
                && !result.Threw?
                && RunsTo(Form.Poll(true), device, old(polls), k, all, old(head),
                          LoopEnd(EndingOf(result), tot, polls, head))
                && (result.Done? ==> |result.cqes| == k)
                && (Errors(device, old(polls), polls) == 0 ==>
                      && old(head) + k <= |all|
                      && (result.Done? <==> Succeeded(all, old(head), old(head) + k))
                      && (result.Done? ==> head == old(head) + k && result.cqes == CqesOf(all, old(head), head)))
      ensures Errors(device, old(polls), polls) == 0 && result.Done? ==>
                forall i :: 0 <= i < |result.cqes| ==>
                  var c, done := result.cqes[i], all[old(head) + i];
                  c.op == done.op && c.wrId == done.wrId && c.length == done.byteLen && c.immData == done.immData
    {
      if k < 0 {
        return Threw, 0;
      }
      var ret, ending;
      ret, ending, tot := PollVector(k, w);
      BlockingWithoutErrors(true, device, w, old(polls), k, all, old(head), LoopEnd(ending, tot, polls, head));
      if ending != Stopped {
        return if ending == Panicked then Panic else Wild, tot;
      }
      if Errors(device, old(polls), polls) == 0 {
        FilledIsCqes(ret, k, all, old(head));
        assert ret[..k] == ret;
      }
      return Done(ret), tot;
    }

    /** `try_poll(k)` as written. */
    method TryPoll(k: int) returns (ret: int, ending: Ending)
      requires Valid()
      modifies this`head, this`polls
      ensures Valid()
      ensures RunsTo(Form.TryPoll(true), device, old(polls), k, all, old(head), LoopEnd(ending, ret, polls, head))
      ensures k <= 0 ==> ret == 0 && ending.Stopped? && head == old(head)
    {
      var wc := new Wc[MAX_POLL](_ => Wc(false, 0, 0, 0, 0));
      ret := 0;
      Starts(Form.TryPoll(true), device, polls, k, all, head);
      while ret < k
        invariant Valid() && fresh(wc) && wc.Length == MAX_POLL && 0 <= ret
        invariant k <= 0 ==> ret == 0 && head == old(head)
        invariant StandsAt(Form.TryPoll(true), device, old(polls), k, all, old(head), ret, head, polls)
      {
        ghost var from, now := head, polls;
        var entriesToPoll := Min(k - ret, MAX_POLL);
        var n;
        n, ending := DoPoll(k, wc);
        OnePoll(Form.TryPoll(true), device, old(polls), k, all, old(head), ret, from, now, n, head, ending);
        if ending != Stopped {
          return;
        }
        ret := ret + n;
        if n < entriesToPoll {
          return;
        }
      }
      NoMorePolls(Form.TryPoll(true), device, old(polls), k, all, old(head), ret, head, polls);
      ending := Stopped;
    }

    /** One iteration of `try_poll_with_wc`; `over`: it was the last. */
    method TryVectorOnce(k: nat, written: bool, wc: array<Wc>, ret: seq<Cqe>, tot: nat, ghost t: nat, ghost start: nat)
      returns (n: int, ending: Ending, filled: seq<Cqe>, over: bool)
      requires Valid() && wc.Length == MAX_POLL && tot < k == |ret|
      requires head == start + tot && Filled(ret, tot, all, start)
      requires StandsAt(Form.TryPollWithWc(written), device, t, k, all, start, tot, head, polls)
      modifies this`head, this`polls, wc
      ensures Valid() && |filled| == k && polls == old(polls) + 1
      ensures !ending.Stopped? ==> over
      ensures ending.Stopped? ==>
                && head == start + tot + Removed(n) && (tot + n >= 0 ==> Filled(filled, tot + n, all, start))
      ensures if over
              then RunsTo(Form.TryPollWithWc(written), device, t, k, all, start, EndAfter(tot, n, ending, polls, head))
              else n > 0 && StandsAt(Form.TryPollWithWc(written), device, t, k, all, start, tot + n, head, polls)
    {
      ghost var from, now := head, polls;
      var entriesToPoll := if written then Min(k, MAX_POLL) else Min(k - tot, MAX_POLL);
      n, ending, filled := PollInto(entriesToPoll, wc, ret, tot, start, 0);
      OnePoll(Form.TryPollWithWc(written), device, t, k, all, start, tot, from, now, n, head, ending);
      over := ending != Stopped || n < entriesToPoll;
    }

    /** The loop of `try_poll_with_wc`: the vector holds the first `tot` completions consumed. */
    method TryVector(k: nat, written: bool) returns (result: Result, ghost tot: int)
      requires Valid()
      modifies this`head, this`polls
      ensures Valid() && old(polls) <= polls
      ensures RunsTo(Form.TryPollWithWc(written), device, old(polls), k, all, old(head),
                     LoopEnd(EndingOf(result), tot, polls, head))
      ensures result.Threw? ==> tot < 0
      ensures result.Done? ==>
                0 <= tot && old(head) + tot <= head && result.cqes == CqesOf(all, old(head), old(head) + tot)
    {
      var ret := seq(k, _ => Cqe(0, 0, 0, 0));
      var wc := new Wc[MAX_POLL](_ => Wc(false, 0, 0, 0, 0));
      var total := 0;
      Starts(Form.TryPollWithWc(written), device, polls, k, all, head);
      while total < k
        invariant Valid() && fresh(wc) && wc.Length == MAX_POLL && old(polls) <= polls
        invariant 0 <= total && |ret| == k && head == old(head) + total && Filled(ret, total, all, old(head))
        invariant StandsAt(Form.TryPollWithWc(written), device, old(polls), k, all, old(head), total, head, polls)
      {
        var n, ending, over;
        n, ending, ret, over := TryVectorOnce(k, written, wc, ret, total, old(polls), old(head));
        if ending != Stopped {
          return if ending == Panicked then Panic else Wild, total;
        }
        total := total + n;
        if over {
          result := Resized(ret, total, old(head));
          return result, total;
        }
      }
      NoMorePolls(Form.TryPollWithWc(written), device, old(polls), k, all, old(head), total, head, polls);
      result := Resized(ret, total, old(head));
      return result, total;
    }

    /** `try_poll_with_wc(k)` as written: whatever it returns is the first completions consumed, in order. */
    method TryPollWithWc(k: int) returns (result: Result, ghost tot: int)
      requires Valid()
      modifies this`head, this`polls
      ensures Valid()
      ensures k < 0 ==> result == Threw && head == old(head)
      ensures k >= 0 ==>
                && RunsTo(Form.TryPollWithWc(true), device, old(polls), k, all, old(head),
                          LoopEnd(EndingOf(result), tot, polls, head))
                && (result.Threw? ==> tot < 0)
                && (result.Done? ==> 0 <= tot && old(head) + tot <= head
                                     && result.cqes == CqesOf(all, old(head), old(head) + tot))
      ensures 0 <= k && (k <= 32 || k % 32 == 0) ==> !result.Wild?
      ensures result.Done? ==> old(head) + |result.cqes| <= head
      ensures result.Done? ==>
                forall i :: 0 <= i < |result.cqes| ==>
                  var c, done := result.cqes[i], all[old(head) + i];
                  c.op == done.op && c.wrId == done.wrId && c.length == done.byteLen && c.immData == done.immData
    {
      if k < 0 {
        return Threw, 0;
      }
      result, tot := TryVector(k, true);
      if Bounded(Form.TryPollWithWc(true), k) {
        BoundedNeverOverruns(Form.TryPollWithWc(true), device, old(polls), k, all, old(head),
                             LoopEnd(EndingOf(result), tot, polls, head));
      }
    }

    /**
     `try_poll_with_wc(k)` with the request bounded by what is still wanted: it never leaves its vector, the vector is
     the first completions consumed, in order, and it is shorter than `k` only if the last poll came back short.
     */
    method TryPollWithWcBounded(k: int) returns (result: Result, ghost tot: int)
      requires Valid()
      modifies this`head, this`polls
      ensures Valid() && old(polls) <= polls
      ensures k < 0 ==> result == Threw && head == old(head)
      ensures k >= 0 ==>
                && RunsTo(Form.TryPollWithWc(false), device, old(polls), k, all, old(head),
                          LoopEnd(EndingOf(result), tot, polls, head))
                && !result.Wild? && (result.Threw? ==> tot < 0)
      ensures result.Done? ==>
                && old(head) + |result.cqes| <= head && |result.cqes| <= k
                && result.cqes == CqesOf(all, old(head), old(head) + |result.cqes|)
                && (|result.cqes| < k ==>
                      polls > old(polls) && (device(polls - 1) < 32 || head == |all|))
      ensures result.Done? ==>
                forall i :: 0 <= i < |result.cqes| ==>
                  var c, done := result.cqes[i], all[old(head) + i];
                  c.op == done.op && c.wrId == done.wrId && c.length == done.byteLen && c.immData == done.immData
    {
      if k < 0 {
        return Threw, 0;
      }
      result, tot := TryVector(k, false);
      ghost var end := LoopEnd(EndingOf(result), tot, polls, head);
      BoundedNeverOverruns(Form.TryPollWithWc(false), device, old(polls), k, all, old(head), end);
      ShortOnlyIfAPollWas(Form.TryPollWithWc(false), device, old(polls), k, all, old(head), end);
      BoundedCount(Form.TryPollWithWc(false), device, old(polls), k, all, old(head), end);
    }

    /** `ret.resize(tot)`: a negative size is a huge one. */
    method Resized(ret: seq<Cqe>, tot: int, ghost start: nat) returns (result: Result)
      requires tot >= 0 ==> Filled(ret, tot, all, start)
      ensures result == if tot < 0 then Threw else Done(CqesOf(all, start, start + tot))
    {
      if tot < 0 {
        return Threw;
      }
      FilledIsCqes(ret, tot, all, start);
      return Done(ret[..tot]);
    }
  }
}
