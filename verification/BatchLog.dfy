/**
 The log of forwards behind a batch: which lists were sent to which backend group, what came of them,
 and what that means for the slots of the requests and for an early return.
 */
module BatchLog {

  import opened Words
  import opened Rpc
  import opened BatchForward
  import opened BatchGroups
  import Overrides

  // ---------- the log of forwards ----------

  /** One forward: the list that was sent, and what came of it. */
  datatype Logged = Logged(group: Group, elems: seq<Elem>, outcome: Outcome)

  /** The lists sent for group `g`, in order. */
  ghost function CallsOf(log: seq<Logged>, g: Group): seq<seq<Elem>> {
    if log == [] then []
    else
      var n := |log| - 1;
      CallsOf(log[..n], g) + if log[n].group == g then [log[n].elems] else []
  }

  /** The n-th forward came to what the n-th call to that backend group makes of exactly this list of uncached requests. */
  ghost predicate CallOk(env: Env, isBatch: bool, raw: seq<Raw>, n: nat, c: Logged) {
    && Produces(env.call(n, c.group.backendGroup), isBatch, ReqsOf(c.elems), c.outcome)
    && (forall e :: e in c.elems ==> InGroup(env, raw, c.group, |raw|, e) && env.cached(e.index).None?)
  }

  ghost predicate LogOk(env: Env, isBatch: bool, raw: seq<Raw>, log: seq<Logged>) {
    forall n {:trigger CallOk(env, isBatch, raw, n, log[n])} :: 0 <= n < |log| ==> CallOk(env, isBatch, raw, n, log[n])
  }

  /** Position `k` of the n-th list is request `i`. */
  predicate At(log: seq<Logged>, n: nat, k: nat, i: nat) {
    n < |log| && k < |log[n].elems| && log[n].elems[k].index == i
  }

  /** No request is forwarded twice. */
  ghost predicate Once(log: seq<Logged>) {
    forall n: nat, k: nat, m: nat, j: nat, i: nat :: At(log, n, k, i) && At(log, m, j, i) ==> n == m && k == j
  }

  predicate AbortsBatch(e: Err) {
    e == ReceiptsCantBeBatched || e == ReceiptsInvalidTarget
  }

  predicate Continues(out: Outcome) {
    out.Ok? || (out.Fail? && !AbortsBatch(out.err))
  }

  /** So far nothing has ended the batch: no deadline before any of these forwards, and none of them aborted or crashed. */
  ghost predicate NoStop(env: Env, log: seq<Logged>) {
    forall n :: 0 <= n < |log| ==> !env.deadline(n) && Continues(log[n].outcome)
  }

  /** Why the batch ended: the deadline before the next forward, or what came of the last one. */
  ghost predicate StoppedBy(env: Env, log: seq<Logged>, stop: BatchResult) {
    match stop
    case Responses(_) => false
    case DeadlineExceeded => NoStop(env, log) && env.deadline(|log|)
    case Aborted(e) => EndedBy(env, log, Fail(e)) && AbortsBatch(e)
    case Crashed(cause) => EndedBy(env, log, Panicked(cause)) && cause == EmptyParams
  }

  ghost predicate EndedBy(env: Env, log: seq<Logged>, out: Outcome) {
    log != [] && NoStop(env, log[..|log| - 1]) && !env.deadline(|log| - 1) && log[|log| - 1].outcome == out
  }

  /** The response to the k-th request of a forward: its own, or the error of the whole list. */
  predicate AnsweredAs(c: Logged, k: nat, r: Res)
    requires k < |c.elems|
  {
    match c.outcome
    case Ok(rs) => k < |rs| && r == rs[k]
    case Fail(e) => r == Res(c.elems[k].req.id, Error(e))
    case Panicked(_) => false
  }

  ghost predicate LoggedAnswer(log: seq<Logged>, i: nat, r: Res) {
    exists n: nat, k: nat :: At(log, n, k, i) && AnsweredAs(log[n], k, r)
  }

  /** `r` is the proper response for slot `i`: from the door, from the cache, or from the forward of that request. */
  ghost predicate SlotOk(env: Env, raw: seq<Raw>, log: seq<Logged>, i: nat, r: Res)
    requires i < |raw|
  {
    if !Forwards(env, raw, i) then r == AtTheDoor(env, raw[i], i).value
    else if env.cached(i).Some? then r == Res(raw[i].req.id, env.cached(i).value)
    else LoggedAnswer(log, i, r)
  }

  ghost predicate SlotsOk(env: Env, raw: seq<Raw>, log: seq<Logged>, slots: seq<Option<Res>>) {
    && |slots| == |raw|
    && (forall i :: 0 <= i < |raw| && slots[i].Some? ==> SlotOk(env, raw, log, i, slots[i].value))
  }

  predicate AllFilled(slots: seq<Option<Res>>, elems: seq<Elem>) {
    forall e :: e in elems ==> e.index < |slots| && slots[e.index].Some?
  }

  /** Slots that were filled stay filled. */
  predicate Filling(before: seq<Option<Res>>, after: seq<Option<Res>>) {
    |before| == |after| && forall i :: 0 <= i < |before| && before[i].Some? ==> after[i].Some?
  }

  /** The state between two forwards. */
  ghost predicate Serving(env: Env, isBatch: bool, raw: seq<Raw>, log: seq<Logged>, slots: seq<Option<Res>>) {
    LogOk(env, isBatch, raw, log) && Once(log) && NoStop(env, log) && SlotsOk(env, raw, log, slots)
  }

  lemma {:induction false} LoggedInCalls(log: seq<Logged>, n: nat)
    requires n < |log|
    ensures log[n].elems in CallsOf(log, log[n].group)
  {
    var m := |log| - 1;
    if n < m {
      LoggedInCalls(log[..m], n);
    }
  }

  lemma CallsExtend(log: seq<Logged>, c: Logged, g: Group)
    ensures CallsOf(log + [c], g) == if c.group == g then CallsOf(log, g) + [c.elems] else CallsOf(log, g)
  {
    assert (log + [c])[..|log|] == log;
  }

  predicate NotLogged(log: seq<Logged>, elems: seq<Elem>) {
    forall n, k, e :: 0 <= n < |log| && 0 <= k < |log[n].elems| && e in elems ==> log[n].elems[k].index != e.index
  }

  lemma LogExtends(env: Env, isBatch: bool, raw: seq<Raw>, log: seq<Logged>, c: Logged)
    requires LogOk(env, isBatch, raw, log) && Once(log) && CallOk(env, isBatch, raw, |log|, c)
    requires Ascending(c.elems) && NotLogged(log, c.elems)
    ensures LogOk(env, isBatch, raw, log + [c]) && Once(log + [c])
  {
    var log' := log + [c];
    forall n: nat, k: nat, m: nat, j: nat, i: nat | At(log', n, k, i) && At(log', m, j, i) ensures n == m && k == j {
      if n < |log| && m < |log| {
        assert At(log, n, k, i) && At(log, m, j, i);
      }
      if n == |log| {
        assert c.elems[k] in c.elems;
      }
      if m == |log| {
        assert c.elems[j] in c.elems;
      }
    }
  }

  /** The requests of a group behind those already forwarded have not been forwarded. */
  lemma NextIsNew(env: Env, isBatch: bool, raw: seq<Raw>, log: seq<Logged>, g: Group, misses: seq<Elem>, start: nat, end: nat)
    requires LogOk(env, isBatch, raw, log) && start <= end <= |misses|
    requires Ascending(misses) && forall e :: e in misses ==> InGroup(env, raw, g, |raw|, e)
    requires Flatten(CallsOf(log, g)) == misses[..start]
    ensures NotLogged(log, misses[start..end])
  {
    forall n, k, e | 0 <= n < |log| && 0 <= k < |log[n].elems| && e in misses[start..end]
      ensures log[n].elems[k].index != e.index
    {
      var x := log[n].elems[k];
      assert x in log[n].elems && CallOk(env, isBatch, raw, n, log[n]);
      assert e in misses;
      if log[n].group == g {
        LoggedInCalls(log, n);
        FlattenHas(CallsOf(log, g), log[n].elems, x);
        PrefixBelow(misses, start, end, x, e);
      }
    }
  }

  lemma PrefixBelow(misses: seq<Elem>, start: nat, end: nat, x: Elem, e: Elem)
    requires start <= end <= |misses| && Ascending(misses) && x in misses[..start] && e in misses[start..end]
    ensures x.index < e.index
  {
    var a :| 0 <= a < start && misses[a] == x;
    var b :| start <= b < end && misses[b] == e;
  }

  lemma SlotsExtend(env: Env, raw: seq<Raw>, log: seq<Logged>, c: Logged, i: nat, r: Res)
    requires i < |raw| && SlotOk(env, raw, log, i, r)
    ensures SlotOk(env, raw, log + [c], i, r)
  {
    if Forwards(env, raw, i) && env.cached(i).None? {
      var n: nat, k: nat :| At(log, n, k, i) && AnsweredAs(log[n], k, r);
      assert At(log + [c], n, k, i) && AnsweredAs((log + [c])[n], k, r);
    }
  }

  // ---------- filling slots ----------

  predicate HasIndex(elems: seq<Elem>, i: nat) {
    exists e :: e in elems && e.index == i
  }

  /** Slot by slot: the responses are in the slots of their requests, and no other slot has changed. */
  predicate Scattered(before: seq<Option<Res>>, elems: seq<Elem>, rs: seq<Res>, after: seq<Option<Res>>)
    requires |elems| == |rs|
  {
    && |after| == |before|
    && (forall k :: 0 <= k < |elems| ==> elems[k].index < |after| && after[elems[k].index] == Some(rs[k]))
    && (forall i :: 0 <= i < |after| && !HasIndex(elems, i) ==> after[i] == before[i])
  }

  lemma ScatterOne(
    start: seq<Option<Res>>, elems: seq<Elem>, rs: seq<Res>, k: nat, before: seq<Option<Res>>, after: seq<Option<Res>>)
    requires |rs| == |elems| && k < |elems| && Ascending(elems) && Scattered(start, elems[..k], rs[..k], before)
    requires elems[k].index < |before| && after == before[elems[k].index := Some(rs[k])]
    ensures Scattered(start, elems[..k + 1], rs[..k + 1], after)
  {
    assert elems[..k + 1] == elems[..k] + [elems[k]];
    forall j | 0 <= j < k + 1 ensures elems[j].index < |after| && after[elems[j].index] == Some(rs[j]) {
      assert j < k ==> elems[..k][j] == elems[j] && rs[..k][j] == rs[j];
    }
    forall i | 0 <= i < |after| && !HasIndex(elems[..k + 1], i) ensures after[i] == start[i] {
      assert elems[k] in elems[..k + 1];
      assert forall e :: e in elems[..k] ==> e in elems[..k + 1];
    }
  }

  /** Scattering the responses of the forward just logged leaves every filled slot proper. */
  lemma ScatterOk(
    env: Env, raw: seq<Raw>, log: seq<Logged>, c: Logged, rs: seq<Res>, before: seq<Option<Res>>, after: seq<Option<Res>>)
    requires SlotsOk(env, raw, log, before) && |rs| == |c.elems| && Scattered(before, c.elems, rs, after)
    requires forall e :: e in c.elems ==> InGroup(env, raw, c.group, |raw|, e) && env.cached(e.index).None?
    requires forall k :: 0 <= k < |c.elems| ==> AnsweredAs(c, k, rs[k])
    ensures SlotsOk(env, raw, log + [c], after) && Filling(before, after) && AllFilled(after, c.elems)
  {
    forall i | 0 <= i < |raw| && after[i].Some? ensures SlotOk(env, raw, log + [c], i, after[i].value) {
      if HasIndex(c.elems, i) {
        var k :| 0 <= k < |c.elems| && c.elems[k].index == i;
        assert At(log + [c], |log|, k, i) && AnsweredAs((log + [c])[|log|], k, rs[k]);
      } else {
        SlotsExtend(env, raw, log, c, i, after[i].value);
      }
    }
    forall i | 0 <= i < |before| && before[i].Some? ensures after[i].Some? {
      if HasIndex(c.elems, i) {
        var k :| 0 <= k < |c.elems| && c.elems[k].index == i;
      }
    }
    forall e | e in c.elems ensures e.index < |after| && after[e.index].Some? {
      var k :| 0 <= k < |c.elems| && c.elems[k] == e;
    }
  }

  /** The cache hits of a batch are in their slots. */
  predicate HitsFilled(env: Env, batch: seq<Elem>, slots: seq<Option<Res>>) {
    forall e :: e in batch && env.cached(e.index).Some? ==> e.index < |slots| && slots[e.index].Some?
  }

  lemma FillHit(env: Env, raw: seq<Raw>, log: seq<Logged>, before: seq<Option<Res>>, batch: seq<Elem>, e: Elem)
    requires SlotsOk(env, raw, log, before) && HitsFilled(env, batch, before)
    requires e.index < |raw| && Forwards(env, raw, e.index) && e.req == raw[e.index].req && env.cached(e.index).Some?
    ensures var after := before[e.index := Some(Res(e.req.id, env.cached(e.index).value))];
            SlotsOk(env, raw, log, after) && Filling(before, after) && HitsFilled(env, batch + [e], after)
  {
  }

  // ---------- forwarding ----------

  /** A list of uncached requests of group `g` that has not been forwarded yet. */
  ghost predicate Sendable(env: Env, raw: seq<Raw>, log: seq<Logged>, g: Group, elems: seq<Elem>) {
    && elems != [] && Ascending(elems) && DistinctIds(ReqsOf(elems)) && NotLogged(log, elems)
    && (forall e :: e in elems ==> InGroup(env, raw, g, |raw|, e) && env.cached(e.index).None?)
  }

  lemma LengthOfOk(c: Call, isBatch: bool, reqs: seq<Req>, out: Outcome)
    requires Produces(c, isBatch, reqs, out)
    ensures out.Ok? ==> |out.rs| == |reqs|
  {
  }

  lemma LoggedStop(env: Env, log: seq<Logged>, c: Logged)
    requires NoStop(env, log) && !env.deadline(|log|)
    ensures Continues(c.outcome) ==> NoStop(env, log + [c])
    ensures EndedBy(env, log + [c], c.outcome)
  {
    assert (log + [c])[..|log|] == log;
  }

  /** Only the calls of group `g` differ. */
  ghost predicate OthersKept(log: seq<Logged>, log': seq<Logged>, g: Group) {
    forall h :: h != g ==> CallsOf(log', h) == CallsOf(log, h)
  }

  /** The first `done` misses of a group have been forwarded, in its first minibatches. */
  ghost predicate Forwarded(log: seq<Logged>, g: Group, misses: seq<Elem>, max: nat, done: nat)
    requires 0 < max
  {
    && done <= |misses|
    && Flatten(CallsOf(log, g)) == misses[..done]
    && CallsOf(log, g) + Minibatches(misses[done..], max) == Minibatches(misses, max)
  }

  lemma ForwardedMore(log0: seq<Logged>, log: seq<Logged>, c: Logged, misses: seq<Elem>, max: nat, start: nat, end: nat)
    requires 0 < max && Forwarded(log, c.group, misses, max, start) && OthersKept(log0, log, c.group)
    requires start < end <= |misses| && end == if start + max < |misses| then start + max else |misses|
    requires c.elems == misses[start..end]
    ensures Forwarded(log + [c], c.group, misses, max, end) && OthersKept(log0, log + [c], c.group)
  {
    CallsExtend(log, c, c.group);
    CoverMore(CallsOf(log, c.group), misses, max, start, end);
    forall h | h != c.group ensures CallsOf(log + [c], h) == CallsOf(log0, h) {
      CallsExtend(log, c, h);
    }
  }

  lemma CoverMore(calls: seq<seq<Elem>>, misses: seq<Elem>, max: nat, start: nat, end: nat)
    requires 0 < max && start < end <= |misses| && end == if start + max < |misses| then start + max else |misses|
    requires Flatten(calls) == misses[..start] && calls + Minibatches(misses[start..], max) == Minibatches(misses, max)
    ensures Flatten(calls + [misses[start..end]]) == misses[..end]
    ensures (calls + [misses[start..end]]) + Minibatches(misses[end..], max) == Minibatches(misses, max)
  {
    var b, rest := misses[start..end], Minibatches(misses[end..], max);
    FlattenConcat(calls, b);
    assert misses[..end] == misses[..start] + b;
    NextMinibatch(misses, max, start, end);
    assert (calls + [b]) + rest == calls + ([b] + rest);
  }

  /** `misses` are uncached requests of group `g`, in order, under distinct IDs. */
  ghost predicate GroupMisses(env: Env, raw: seq<Raw>, g: Group, misses: seq<Elem>) {
    && Ascending(misses) && DistinctIds(ReqsOf(misses))
    && (forall e :: e in misses ==> InGroup(env, raw, g, |raw|, e) && env.cached(e.index).None?)
  }

  lemma SliceSendable(
    env: Env, isBatch: bool, raw: seq<Raw>, log: seq<Logged>, g: Group, misses: seq<Elem>, start: nat, end: nat)
    requires LogOk(env, isBatch, raw, log) && GroupMisses(env, raw, g, misses) && start < end <= |misses|
    requires Flatten(CallsOf(log, g)) == misses[..start]
    ensures Sendable(env, raw, log, g, misses[start..end])
  {
    NextIsNew(env, isBatch, raw, log, g, misses, start, end);
    SliceDistinct(misses, start, end);
    assert forall e :: e in misses[start..end] ==> e in misses;
  }

  lemma FilledSoFar(slots: seq<Option<Res>>, slots': seq<Option<Res>>, misses: seq<Elem>, start: nat, end: nat)
    requires start <= end <= |misses| && AllFilled(slots, misses[..start])
    requires Filling(slots, slots') && AllFilled(slots', misses[start..end])
    ensures AllFilled(slots', misses[..end])
  {
    assert misses[..end] == misses[..start] + misses[start..end];
  }

  /** The state after `done` misses of group `g` have been forwarded and answered. */
  ghost predicate Midway(
    env: Env, isBatch: bool, raw: seq<Raw>, g: Group, misses: seq<Elem>, done: nat, log: seq<Logged>, slots: seq<Option<Res>>)
    requires 0 < env.maxUpstreamBatchSize
  {
    && Serving(env, isBatch, raw, log, slots)
    && Forwarded(log, g, misses, env.maxUpstreamBatchSize, done)
    && AllFilled(slots, misses[..done])
  }

  /** The log has grown by some first minibatches of group `g` only. */
  ghost predicate PartlySent(
    env: Env, isBatch: bool, raw: seq<Raw>, g: Group, misses: seq<Elem>, log: seq<Logged>, log': seq<Logged>)
    requires 0 < env.maxUpstreamBatchSize
  {
    && LogOk(env, isBatch, raw, log') && Once(log') && OthersKept(log, log', g)
    && CallsOf(log', g) <= Minibatches(misses, env.maxUpstreamBatchSize)
  }

  /** All minibatches of group `g` have been sent, and its slots are filled. */
  ghost predicate AllSent(
    env: Env, isBatch: bool, raw: seq<Raw>, g: Group, misses: seq<Elem>, log: seq<Logged>, slots: seq<Option<Res>>)
    requires 0 < env.maxUpstreamBatchSize
  {
    && Serving(env, isBatch, raw, log, slots) && AllFilled(slots, misses)
    && CallsOf(log, g) == Minibatches(misses, env.maxUpstreamBatchSize)
  }

  /** The batch has ended within the minibatches of group `g`. */
  ghost predicate CutShort(
    env: Env, isBatch: bool, raw: seq<Raw>, g: Group, misses: seq<Elem>, log: seq<Logged>, log': seq<Logged>, stop: BatchResult)
    requires 0 < env.maxUpstreamBatchSize
  {
    && PartlySent(env, isBatch, raw, g, misses, log, log') && StoppedBy(env, log', stop)
    && (stop.DeadlineExceeded? ==> CallsOf(log', g) < Minibatches(misses, env.maxUpstreamBatchSize))
  }

  lemma MidwayStart(env: Env, isBatch: bool, raw: seq<Raw>, g: Group, misses: seq<Elem>, log: seq<Logged>, slots: seq<Option<Res>>)
    requires 0 < env.maxUpstreamBatchSize && CallsOf(log, g) == [] && Serving(env, isBatch, raw, log, slots)
    ensures Midway(env, isBatch, raw, g, misses, 0, log, slots) && OthersKept(log, log, g)
  {
    assert misses[0..] == misses;
  }

  /** Before the end, some minibatch of the group is still to be forwarded. */
  lemma MidwayUnfinished(
    env: Env, isBatch: bool, raw: seq<Raw>, g: Group, misses: seq<Elem>, done: nat,
    log: seq<Logged>, log': seq<Logged>, slots: seq<Option<Res>>)
    requires 0 < env.maxUpstreamBatchSize && Midway(env, isBatch, raw, g, misses, done, log', slots) && done < |misses|
    requires OthersKept(log, log', g) && env.deadline(|log'|)
    ensures CutShort(env, isBatch, raw, g, misses, log, log', DeadlineExceeded)
  {
    assert Minibatches(misses[done..], env.maxUpstreamBatchSize) != [];
  }

  lemma MidwayDone(
    env: Env, isBatch: bool, raw: seq<Raw>, g: Group, misses: seq<Elem>, log: seq<Logged>, slots: seq<Option<Res>>)
    requires 0 < env.maxUpstreamBatchSize && Midway(env, isBatch, raw, g, misses, |misses|, log, slots)
    ensures AllSent(env, isBatch, raw, g, misses, log, slots)
  {
    assert misses[|misses|..] == [] && misses[..|misses|] == misses;
  }

  lemma GroupMissesOf(env: Env, raw: seq<Raw>, g: Group)
    ensures GroupMisses(env, raw, g, Misses(env, Batch(env, raw, g, |raw|)))
  {
    BatchDistinct(env, raw, g);
    MissesDistinct(env, Batch(env, raw, g, |raw|));
    MissesAscending(env, Batch(env, raw, g, |raw|));
  }

  lemma GroupFilled(env: Env, batch: seq<Elem>, between: seq<Option<Res>>, after: seq<Option<Res>>)
    requires HitsFilled(env, batch, between) && Filling(between, after) && AllFilled(after, Misses(env, batch))
    ensures AllFilled(after, batch)
  {
  }

  // ---------- the handler ----------

  /** Only the values of filled slots. */
  function Filled(slots: seq<Option<Res>>): (rs: seq<Res>)
    requires forall i :: 0 <= i < |slots| ==> slots[i].Some?
    ensures |rs| == |slots| && forall i :: 0 <= i < |slots| ==> rs[i] == slots[i].value
  {
    seq(|slots|, i requires 0 <= i < |slots| => slots[i].value)
  }

  predicate IsHealthCheck(raw: seq<Raw>) {
    |raw| == 1 && raw[0].Parsed? && raw[0].req.rpcMethod == HEALTHZ_METHOD
  }

  /** Groups outside `left` have had exactly their minibatches forwarded, the others nothing. */
  ghost predicate Progress(env: Env, raw: seq<Raw>, log: seq<Logged>, left: set<Group>)
    requires 0 < env.maxUpstreamBatchSize
  {
    forall g :: CallsOf(log, g) == if g in left then [] else MinibatchesOf(env, raw, g)
  }

  /** Every group outside `left` has been answered. */
  ghost predicate GroupsFilled(env: Env, raw: seq<Raw>, left: set<Group>, slots: seq<Option<Res>>) {
    forall g :: g !in left ==> AllFilled(slots, Batch(env, raw, g, |raw|))
  }

  /** What a request is answered without any forward: at the door, or from the cache. */
  function OnTheSpot(env: Env, raw: seq<Raw>, i: nat): Option<Res>
    requires i < |raw|
  {
    if !Forwards(env, raw, i) then AtTheDoor(env, raw[i], i)
    else if env.cached(i).Some? then Some(Res(raw[i].req.id, env.cached(i).value))
    else None
  }

  /** A normal return: one response per request, each the proper one for its slot, and every miss forwarded once. */
  ghost predicate Answers(env: Env, isBatch: bool, raw: seq<Raw>, log: seq<Logged>, rs: seq<Res>)
    requires 0 < env.maxUpstreamBatchSize
  {
    && |rs| == |raw|
    && (forall i :: 0 <= i < |raw| ==> SlotOk(env, raw, log, i, rs[i]))
    && (forall g :: CallsOf(log, g) == MinibatchesOf(env, raw, g))
    && NoStop(env, log)
  }

  lemma StartServing(env: Env, isBatch: bool, raw: seq<Raw>, batches: map<Group, seq<Elem>>, door: seq<Option<Res>>)
    requires 0 < env.maxUpstreamBatchSize
    requires DoorSlots(env, raw, |raw|, door) && BatchesOk(env, raw, batches, |raw|)
    ensures Serving(env, isBatch, raw, [], door)
    ensures Progress(env, raw, [], batches.Keys) && GroupsFilled(env, raw, batches.Keys, door)
  {
    forall g | g !in batches ensures Batch(env, raw, g, |raw|) == [] {
      assert BatchIn(batches, g) == Batch(env, raw, g, |raw|);
    }
    forall g ensures CallsOf([], g) == if g in batches.Keys then [] else MinibatchesOf(env, raw, g) {
      if g !in batches {
        assert Misses(env, []) == [];
      }
    }
  }

  lemma GroupDone(
    env: Env, raw: seq<Raw>, before: seq<Logged>, log: seq<Logged>, left: set<Group>, g: Group,
    slots: seq<Option<Res>>, slots': seq<Option<Res>>)
    requires 0 < env.maxUpstreamBatchSize && g in left
    requires Progress(env, raw, before, left) && GroupsFilled(env, raw, left, slots)
    requires OthersKept(before, log, g) && CallsOf(log, g) == MinibatchesOf(env, raw, g)
    requires Filling(slots, slots') && AllFilled(slots', Batch(env, raw, g, |raw|))
    ensures Progress(env, raw, log, left - {g}) && GroupsFilled(env, raw, left - {g}, slots')
  {
    forall h ensures CallsOf(log, h) == if h in left - {g} then [] else MinibatchesOf(env, raw, h) {
      assert h != g ==> CallsOf(log, h) == CallsOf(before, h);
    }
    forall h | h !in left - {g} ensures AllFilled(slots', Batch(env, raw, h, |raw|)) {
      assert h != g ==> AllFilled(slots, Batch(env, raw, h, |raw|));
    }
  }

  lemma StoppedShort(env: Env, raw: seq<Raw>, before: seq<Logged>, log: seq<Logged>, left: set<Group>, g: Group)
    requires 0 < env.maxUpstreamBatchSize && Progress(env, raw, before, left)
    requires OthersKept(before, log, g) && CallsOf(log, g) <= MinibatchesOf(env, raw, g)
    ensures forall h :: CallsOf(log, h) <= MinibatchesOf(env, raw, h)
  {
    forall h ensures CallsOf(log, h) <= MinibatchesOf(env, raw, h) {
      if h != g {
        var calls, bs := CallsOf(before, h), MinibatchesOf(env, raw, h);
        assert CallsOf(log, h) == calls && calls == if h in left then [] else bs;
        assert calls <= bs;
      }
    }
  }

  lemma EverySlotFilled(env: Env, raw: seq<Raw>, door: seq<Option<Res>>, slots: seq<Option<Res>>)
    requires DoorSlots(env, raw, |raw|, door) && Filling(door, slots) && GroupsFilled(env, raw, {}, slots)
    ensures forall i :: 0 <= i < |slots| ==> slots[i].Some?
  {
    forall i | 0 <= i < |slots| ensures slots[i].Some? {
      if Forwards(env, raw, i) {
        var g := GroupAt(env, raw, i);
        assert InGroup(env, raw, g, |raw|, Elem(raw[i].req, i));
        assert Elem(raw[i].req, i) in Batch(env, raw, g, |raw|);
      } else {
        assert door[i].Some?;
      }
    }
  }

  // ---------- what the slots mean ----------

  /** What the k-th request of the n-th forward has got: an answer from its group if that call was honest, or that list's error. */
  ghost predicate SlotMeans(env: Env, isBatch: bool, answers: Relation, n: nat, c: Logged, k: nat, r: Res)
    requires k < |c.elems|
  {
    var call := env.call(n, c.group.backendGroup);
    match c.outcome
    case Ok(_) =>
      HonestCall(answers, call, isBatch, ReqsOf(c.elems)) ==> GroupAnswer(call.rctx, answers, c.elems[k].req, r)
    case Fail(e) => r == Res(c.elems[k].req.id, Error(e)) && UnservedList(env, isBatch, n, c, e)
    case Panicked(_) => false
  }

  /**
   A forwarded miss stands in exactly one logged list, one that went to its own backend group. If the
   backend that served that call was honest, the slot holds the override or an answer to the request
   as rewritten for that call; if nobody served that very list, it holds the error.
   */
  lemma SlotMeaning(env: Env, isBatch: bool, raw: seq<Raw>, log: seq<Logged>, i: nat, r: Res, answers: Relation)
    returns (n: nat, k: nat)
    requires LogOk(env, isBatch, raw, log) && Once(log)
    requires i < |raw| && Forwards(env, raw, i) && env.cached(i).None? && SlotOk(env, raw, log, i, r)
    ensures At(log, n, k, i) && forall m: nat, j: nat :: At(log, m, j, i) ==> m == n && j == k
    ensures log[n].elems[k].req == raw[i].req && log[n].group == GroupAt(env, raw, i)
    ensures raw[i].req.rpcMethod in env.methodGroup && log[n].group.backendGroup == env.methodGroup[raw[i].req.rpcMethod]
    ensures SlotMeans(env, isBatch, answers, n, log[n], k, r)
  {
    n, k :| At(log, n, k, i) && AnsweredAs(log[n], k, r);
    var c := log[n];
    var call := env.call(n, c.group.backendGroup);
    assert CallOk(env, isBatch, raw, n, c);
    assert c.elems[k] in c.elems;
    if c.outcome.Ok? && HonestCall(answers, call, isBatch, ReqsOf(c.elems)) {
      HonestCallAnswers(call, isBatch, ReqsOf(c.elems), c.outcome.rs, answers);
    }
  }

  /** No backend could serve the n-th list as it was sent, and the error is `e`. */
  ghost predicate UnservedList(env: Env, isBatch: bool, n: nat, c: Logged, e: Err) {
    var call := env.call(n, c.group.backendGroup);
    FailsAs(Sent(call, ReqsOf(c.elems)), call.backends, isBatch, call.replies, e)
  }

  /** What ended the batch lies in the very list forwarded last: nobody served it, or one of its rewrites panics. */
  lemma StopMeaning(env: Env, isBatch: bool, raw: seq<Raw>, log: seq<Logged>, stop: BatchResult)
    requires log != [] && CallOk(env, isBatch, raw, |log| - 1, log[|log| - 1])
    requires StoppedBy(env, log, stop) && !stop.DeadlineExceeded?
    ensures var n := |log| - 1;
            var c := log[n];
            match stop
            case Aborted(e) =>
              (e == ReceiptsCantBeBatched || e == ReceiptsInvalidTarget) && UnservedList(env, isBatch, n, c, e)
            case Crashed(cause) =>
              && cause == EmptyParams
              && exists k :: 0 <= k < |c.elems| && DeciderOf(env.call(n, c.group.backendGroup).rctx)(c.elems[k].req).Panics?
            case _ => false
  {
    var n := |log| - 1;
    var c := log[n];
    if stop.Crashed? {
      var decide := DeciderOf(env.call(n, c.group.backendGroup).rctx);
      var ds := Overrides.Decisions(decide, ReqsOf(c.elems));
      var d :| d in ds && d.Panics?;
      var k :| 0 <= k < |ds| && ds[k] == d;
      assert decide(c.elems[k].req).Panics?;
    }
  }
}
