/**
 Posting (qp.h): one verb, and a range of verbs chained in place through `wr.next`. The device
 logs the requests it finds when it walks a chain from its head.
 */
module SendPath {
  import opened Words
  import opened VerbModel
  import opened VerbObject
  import opened QueuePair

  /** `qp_verb_compat`. */
  predicate Compatible(t: QpType, op: Opcode) {
    match t
    case RC => !op.Unsupported?
    case UD => IsTwoSided(op)
    case RawPacket => IsTwoSided(op)
    case UC => false
  }

  /** Posting the verb in this state does not panic. */
  predicate Postable(t: QpType, s: State) {
    && (s.src.kind.SendWr? ==> s.src.opcode.Some? && Compatible(t, s.src.opcode.value))
    && Fetch(s).Returned?
  }

  predicate AllPostable(t: QpType, ss: seq<State>) {
    forall s <- ss :: Postable(t, s)
  }

  /** The requests that posting verbs in these states should put on the log, in order. */
  function Requests(ss: seq<State>): (ps: seq<Posted>)
    requires forall s <- ss :: Fetch(s).Returned?
    ensures |ps| == |ss| && forall i :: 0 <= i < |ss| ==> ps[i] == Fetch(ss[i]).posted
  {
    seq(|ss|, i requires 0 <= i < |ss| => Fetch(ss[i]).posted)
  }

  /** `takes(i)`: the device does not refuse the request that would be the i-th on its log. */
  type Device = nat -> bool

  /** The device takes the next `n` requests after the first `from`. */
  predicate TakesAll(takes: Device, from: nat, n: nat) {
    forall i :: from <= i < from + n ==> takes(i)
  }

  /** A chain that starts with these requests is handed over: the device logs them until it refuses one. */
  function Logged(takes: Device, log: seq<Posted>, ps: seq<Posted>): seq<Posted>
    decreases |ps|
  {
    if ps == [] || !takes(|log|) then log else Logged(takes, log + [ps[0]], ps[1..])
  }

  /** How posting ends: whether it returned, and the log it leaves. A refusal panics, as a failed assertion does. */
  datatype Posting = Posting(returned: bool, log: seq<Posted>)

  /** Posting the verbs one after another with the single form. */
  function PostEach(t: QpType, takes: Device, log: seq<Posted>, ss: seq<State>): Posting
    decreases |ss|
  {
    if ss == [] then Posting(true, log)
    else if Postable(t, ss[0]) && takes(|log|) then PostEach(t, takes, log + [Fetch(ss[0]).posted], ss[1..])
    else Posting(false, log)
  }

  /** The log gains exactly the requests before the first that the device refuses. */
  lemma {:induction false} LoggedExactly(takes: Device, log: seq<Posted>, ps: seq<Posted>, n: nat)
    requires n <= |ps| && TakesAll(takes, |log|, n) && (n == |ps| || !takes(|log| + n))
    ensures Logged(takes, log, ps) == log + ps[..n]
    decreases |ps|
  {
    if n > 0 {
      LoggedExactly(takes, log + [ps[0]], ps[1..], n - 1);
      assert log + [ps[0]] + ps[1..][..n - 1] == log + ps[..n];
    }
  }

  lemma AllPostableCons(t: QpType, first: State, rest: seq<State>)
    ensures AllPostable(t, [first] + rest) <==> Postable(t, first) && AllPostable(t, rest)
  {
  }

  lemma RequestsCons(first: State, rest: seq<State>)
    requires Fetch(first).Returned? && forall s <- rest :: Fetch(s).Returned?
    ensures Requests([first] + rest) == [Fetch(first).posted] + Requests(rest)
  {
  }

  /** Posting one by one goes through exactly when every verb can be posted and the device takes every request. */
  lemma {:induction false} PostEachReturnsExactly(t: QpType, takes: Device, log: seq<Posted>, ss: seq<State>)
    ensures PostEach(t, takes, log, ss).returned <==> AllPostable(t, ss) && TakesAll(takes, |log|, |ss|)
    decreases |ss|
  {
    if ss != [] {
      var first, rest := ss[0], ss[1..];
      assert ss == [first] + rest;
      AllPostableCons(t, first, rest);
      if Postable(t, first) && takes(|log|) {
        PostEachReturnsExactly(t, takes, log + [Fetch(first).posted], rest);
      }
    }
  }

  /** If only the device can stop it, the log has what a device handed all the requests at once would have taken. */
  lemma {:induction false} PostEachLogsRequests(t: QpType, takes: Device, log: seq<Posted>, ss: seq<State>)
    requires AllPostable(t, ss)
    ensures PostEach(t, takes, log, ss).log == Logged(takes, log, Requests(ss))
    decreases |ss|
  {
    if ss != [] {
      var first, rest := ss[0], ss[1..];
      assert ss == [first] + rest;
      AllPostableCons(t, first, rest);
      PostEachLogsRequests(t, takes, log + [Fetch(first).posted], rest);
      RequestsCons(first, rest);
    }
  }

  lemma PostedEach(t: QpType, takes: Device, log: seq<Posted>, ss: seq<State>)
    requires PostEach(t, takes, log, ss).returned
    ensures AllPostable(t, ss) && PostEach(t, takes, log, ss).log == log + Requests(ss)
  {
    PostEachReturnsExactly(t, takes, log, ss);
    PostEachLogsRequests(t, takes, log, ss);
    LoggedExactly(takes, log, Requests(ss), |ss|);
    assert Requests(ss)[..|ss|] == Requests(ss);
  }

  // ---------- verbs in the heap ----------

  function States(verbs: seq<Verb>): (ss: seq<State>)
    reads verbs
    ensures |ss| == |verbs| && forall i :: 0 <= i < |verbs| ==> ss[i] == verbs[i].Abs()
  {
    seq(|verbs|, i requires 0 <= i < |verbs| reads verbs => verbs[i].Abs())
  }

  predicate Distinct(verbs: seq<Verb>) {
    forall i, j :: 0 <= i < j < |verbs| ==> verbs[i] != verbs[j]
  }

  /** The first `k` verbs point to their successors in the range, the last one of all to null. */
  predicate ChainedUpTo(verbs: seq<Verb>, k: nat)
    requires k <= |verbs|
    reads verbs
  {
    forall j :: 0 <= j < k ==> verbs[j].next == if j + 1 < |verbs| then verbs[j + 1] else null
  }

  /** Walking `next` from the first verb visits exactly these verbs and ends in null. */
  predicate IsChain(verbs: seq<Verb>)
    reads verbs
  {
    verbs != [] && ChainedUpTo(verbs, |verbs|)
  }

  predicate AllFetched(before: seq<State>, now: seq<State>) {
    |before| == |now| && forall i :: 0 <= i < |now| ==> Fetched(before[i], now[i])
  }

  /** What a device reads at these verbs. */
  function Views(ss: seq<State>): (ps: seq<Posted>)
    ensures |ps| == |ss| && forall i :: 0 <= i < |ss| ==> ps[i] == View(ss[i])
  {
    seq(|ss|, i requires 0 <= i < |ss| => View(ss[i]))
  }

  lemma FetchedViews(before: seq<State>, now: seq<State>)
    requires AllFetched(before, now)
    ensures (forall s <- before :: Fetch(s).Returned?) && Views(now) == Requests(before)
  {
    forall s | s in before ensures Fetch(s).Returned? {
      var i :| 0 <= i < |before| && before[i] == s;
      assert Fetched(before[i], now[i]);
    }
  }

  /**
   After `i` iterations of the linking loop: the verbs before `i` could be posted and are
   fetched, and so is `i` itself once a `set_next` has reached it.
   */
  predicate LinkedUpTo(t: QpType, i: nat, before: seq<State>, now: seq<State>) {
    && |before| == |now| && i <= |before|
    && (forall j :: 0 <= j < i ==> Postable(t, before[j]))
    && (forall j :: 0 <= j <= i && j < |now| && (j < i || i > 0) ==> Fetched(before[j], now[j]))
    && (forall j :: i <= j < |now| && (j > i || i == 0) ==> now[j] == before[j])
  }

  /** What iteration `i` does to the verbs' states; it panics if it cannot post `i` or fetch the next. */
  predicate LinksOne(t: QpType, i: nat, now: seq<State>, later: seq<State>, ok: bool) {
    && i < |now| == |later|
    && (ok <==> Postable(t, now[i]) && (i + 1 < |now| ==> Fetch(now[i + 1]).Returned?))
    && (ok ==>
          && (forall j :: 0 <= j < |now| && j != i && j != i + 1 ==> later[j] == now[j])
          && Fetched(now[i], later[i])
          && (i + 1 < |now| ==> Fetched(now[i + 1], later[i + 1])))
  }

  lemma LinkedOneMore(t: QpType, i: nat, before: seq<State>, now: seq<State>, later: seq<State>, ok: bool)
    requires LinkedUpTo(t, i, before, now) && LinksOne(t, i, now, later, ok)
    ensures ok ==> LinkedUpTo(t, i + 1, before, later)
    ensures !ok ==> !AllPostable(t, before)
  {
    assert before[i] in before && (i + 1 < |now| ==> before[i + 1] in before);
    if i > 0 {
      FetchedIsStable(before[i], now[i], 0);
    }
    if ok {
      FetchedTwice(before[i], now[i], later[i]);
    }
  }

  class SendQueue {
    const qpType: QpType
    const takes: Device
    var log: seq<Posted>

    constructor (qpType: QpType, takes: Device)
      ensures this.qpType == qpType && this.takes == takes && log == []
    {
      this.qpType := qpType;
      this.takes := takes;
      log := [];
    }

    /** The device: logs each request of the chain as it reads it, following `next` to the end or to one it refuses. */
    method Walk(head: Verb, ghost chain: seq<Verb>) returns (ok: bool)
      requires IsChain(chain) && head == chain[0]
      modifies this`log
      ensures log == Logged(takes, old(log), Views(States(chain)))
      ensures ok <==> TakesAll(takes, |old(log)|, |chain|)
    {
      var it: Verb? := head;
      ghost var n := 0;
      ghost var views := Views(States(chain));
      while it != null
        invariant 0 <= n <= |chain| && it == if n < |chain| then chain[n] else null
        invariant log == old(log) + views[..n] && TakesAll(takes, |old(log)|, n)
        decreases |chain| - n
      {
        if !takes(|log|) {
          LoggedExactly(takes, old(log), views, n);
          return false;
        }
        log := log + [View(it.Abs())];
        it := it.next;
        n := n + 1;
      }
      LoggedExactly(takes, old(log), views, n);
      return true;
    }

    /** `post_verb(verb)`. */
    method PostVerb(verb: Verb, spare: nat) returns (ok: bool)
      modifies this`log, verb
      ensures Posting(ok, log) == PostEach(qpType, takes, old(log), [old(verb.Abs())])
      ensures ok <==> Postable(qpType, old(verb.Abs())) && takes(|old(log)|)
      ensures ok ==> Fetched(old(verb.Abs()), verb.Abs()) && verb.next == null
    {
      if verb.kind.SendWr? {
        if verb.opcode.None? || !Compatible(qpType, verb.opcode.value) {
          return false;
        }
      }
      ok := verb.GetWr(spare);
      if ok {
        ok := Walk(verb, [verb]);
        assert Views(States([verb])) == [View(verb.Abs())];
        assert [View(verb.Abs())][1..] == [];
        assert [old(verb.Abs())][1..] == [];
      }
    }

    /** One iteration of the first loop of `post_verb(first, last)`. */
    method LinkOne(verbs: seq<Verb>, i: nat, spare: nat) returns (ok: bool)
      requires i < |verbs| && Distinct(verbs) && forall v <- verbs :: v.kind.SendWr?
      modifies verbs
      ensures LinksOne(qpType, i, old(States(verbs)), States(verbs), ok)
      ensures ok && old(ChainedUpTo(verbs, i)) ==> ChainedUpTo(verbs, i + 1)
    {
      ghost var now := States(verbs);
      var it := verbs[i];
      if it.opcode.None? || !Compatible(qpType, it.opcode.value) {
        return false;
      }
      ok := it.GetWr(spare);
      if ok {
        if i + 1 < |verbs| {
          ok := it.SetNext(verbs[i + 1], spare);
        } else {
          it.ClearNext();
        }
      }
      forall j | 0 <= j < |verbs| && j != i && j != i + 1 ensures verbs[j].Abs() == now[j] {
      }
    }

    /** The first loop of `post_verb(first, last)`: chains the requests together in place. */
    method Link(verbs: seq<Verb>, spare: nat) returns (ok: bool)
      requires verbs != [] && Distinct(verbs) && forall v <- verbs :: v.kind.SendWr?
      modifies verbs
      ensures ok <==> AllPostable(qpType, old(States(verbs)))
      ensures ok ==> IsChain(verbs) && AllFetched(old(States(verbs)), States(verbs))
    {
      ghost var was := States(verbs);
      var n := |verbs|;
      for i := 0 to n
        invariant LinkedUpTo(qpType, i, was, States(verbs))
        invariant ChainedUpTo(verbs, i)
      {
        ghost var now := States(verbs);
        ok := LinkOne(verbs, i, spare);
        LinkedOneMore(qpType, i, was, now, States(verbs), ok);
        if !ok {
          return false;
        }
      }
      return true;
    }

    /** The cleanup loop. */
    method Unlink(verbs: seq<Verb>)
      modifies verbs
      ensures States(verbs) == old(States(verbs)) && forall v <- verbs :: v.next == null
    {
      for i := 0 to |verbs|
        invariant forall j :: 0 <= j < i ==> verbs[j].next == null
        invariant States(verbs) == old(States(verbs))
      {
        ghost var before := States(verbs);
        verbs[i].ClearNext();
        assert States(verbs) == before;
      }
    }

    /**
     The range form with the head's request taken as the loop left it. Once every verb can be posted it does
     what posting each alone does, down to the log a refusal of the device leaves; if some verb cannot be posted it
     panics before the device sees any. It leaves every verb unchained.
     */
    method PostRangeIntended(verbs: seq<Verb>, spare: nat) returns (ok: bool)
      requires verbs != [] && Distinct(verbs) && forall v <- verbs :: v.kind.SendWr?
      modifies this`log, verbs
      ensures ok <==> PostEach(qpType, takes, old(log), old(States(verbs))).returned
      ensures AllPostable(qpType, old(States(verbs))) ==>
                Posting(ok, log) == PostEach(qpType, takes, old(log), old(States(verbs)))
      ensures !AllPostable(qpType, old(States(verbs))) ==> log == old(log)
      ensures ok ==> AllFetched(old(States(verbs)), States(verbs)) && forall v <- verbs :: v.next == null
    {
      ghost var was := States(verbs);
      PostEachReturnsExactly(qpType, takes, log, was);
      ok := Link(verbs, spare);
      if ok {
        PostEachLogsRequests(qpType, takes, log, was);
        FetchedViews(was, States(verbs));
        ok := Walk(verbs[0], verbs);
        if ok {
          Unlink(verbs);
        }
      }
    }

    /** `&(*first).get_wr()` once more: the request stays as it is, its `next` does not. */
    method PostHead(verbs: seq<Verb>, spare: nat, ghost before: State) returns (ok: bool)
      requires verbs != [] && Fetched(before, verbs[0].Abs()) && Distinct(verbs)
      modifies this`log, verbs[0]
      ensures ok <==> takes(|old(log)|)
      ensures log == if ok then old(log) + [Fetch(before).posted] else old(log)
      ensures States(verbs) == old(States(verbs))
    {
      var head := verbs[0];
      ghost var now := States(verbs);
      FetchedIsStable(before, head.Abs(), spare);
      var _ := head.GetWr(spare);
      assert head.Abs() == now[0];
      assert States(verbs) == now;
      ok := Walk(head, [head]);
      assert Views(States([head])) == [View(head.Abs())];
      assert [View(head.Abs())][1..] == [];
    }

    /**
     `post_verb(first, last)` as written: `get_wr` runs again on the head just before posting and
     clears its `next`, so the device only ever sees the first request.
     */
    method PostRange(verbs: seq<Verb>, spare: nat) returns (ok: bool)
      requires verbs != [] && Distinct(verbs) && forall v <- verbs :: v.kind.SendWr?
      modifies this`log, verbs
      ensures AllPostable(qpType, old(States(verbs))) ==>
                Posting(ok, log) == PostEach(qpType, takes, old(log), old(States(verbs))[..1])
      ensures !AllPostable(qpType, old(States(verbs))) ==> Posting(ok, log) == Posting(false, old(log))
      ensures ok ==> AllFetched(old(States(verbs)), States(verbs)) && forall v <- verbs :: v.next == null
    {
      ghost var was := States(verbs);
      ok := Link(verbs, spare);
      if ok {
        PostRangeTruncatesExactly(qpType, takes, log, was);
        ok := PostHead(verbs, spare, was[0]);
        if ok {
          Unlink(verbs);
        }
      }
    }
  }

  /**
   So the range form as written does what posting one by one does only for a range of one, or when the device
   refuses the very first request.
   */
  lemma PostRangeTruncatesExactly(t: QpType, takes: Device, log: seq<Posted>, ss: seq<State>)
    requires ss != [] && AllPostable(t, ss)
    ensures PostEach(t, takes, log, ss[..1]) == PostEach(t, takes, log, ss) <==> |ss| == 1 || !takes(|log|)
    ensures PostEach(t, takes, log, ss[..1])
            == if takes(|log|) then Posting(true, log + [Fetch(ss[0]).posted]) else Posting(false, log)
  {
    assert ss[..1] == [ss[0]] && [ss[0]][1..] == [];
    if |ss| == 1 {
      assert ss[..1] == ss;
    } else if PostEach(t, takes, log, ss).returned {
      PostedEach(t, takes, log, ss);
    }
  }
}
