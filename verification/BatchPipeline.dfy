/**
 The server's batch handler: it answers requests at the door or groups them, serves groups from the
 cache or forwards them in minibatches, and puts every response into the slot of its request.

 Go ranges over the map of groups in an arbitrary order, so groups are picked one by one. Every
 forward is entered into a ghost log; the n-th entry is the n-th forward.
 */
module BatchPipeline {

  import opened Words
  import opened Arithmetic
  import opened Rpc
  import opened BatchForward
  import opened BatchGroups
  import opened BatchLog

  /** The checks every request goes through before it may be forwarded. */
  method AnswerAtTheDoor(env: Env, raw: Raw, i: nat) returns (r: Option<Res>)
    ensures r == AtTheDoor(env, raw, i)
  {
    if raw.Unparsable? {
      return Some(Res(NULL_ID, Error(ParseError)));
    }
    if !raw.wellFormed {
      return Some(Res(NULL_ID, Error(InvalidRequest)));
    }
    var req := raw.req;
    if req.rpcMethod == ACCOUNTS_METHOD {
      return Some(Res(req.id, NO_ACCOUNTS));
    }
    var group := if req.rpcMethod in env.methodGroup then env.methodGroup[req.rpcMethod] else "";
    if group == "" {
      return Some(Res(req.id, Error(NotWhitelisted)));
    }
    var limit := env.limited(i);
    if limit.Some? {
      return Some(Res(req.id, Error(limit.value)));
    }
    return None;
  }

  /** The first loop: answer at the door, or count the ID and append to its group. */
  method GroupRequests(env: Env, raw: seq<Raw>, responses: array<Option<Res>>)
    returns (batches: map<Group, seq<Elem>>)
    requires DoorSlots(env, raw, 0, responses[..])
    modifies responses
    ensures DoorSlots(env, raw, |raw|, responses[..])
    ensures BatchesOk(env, raw, batches, |raw|)
  {
    batches := map[];
    var ids: map<string, nat> := map[];
    for i := 0 to |raw|
      invariant DoorSlots(env, raw, i, responses[..])
      invariant CountsOk(env, raw, ids, i) && BatchesOk(env, raw, batches, i)
    {
      var door := AnswerAtTheDoor(env, raw[i], i);
      if door.Some? {
        SameGroups(env, raw, ids, batches, i);
        responses[i] := door;
        continue;
      }
      assert Forwards(env, raw, i);
      var req := raw[i].req;
      ghost var batches0, ids0 := batches, ids;
      ids := ids[req.id := (if req.id in ids then ids[req.id] else 0) + 1];
      var g := Group(ids[req.id], GroupOf(env, req));
      batches := batches[g := (if g in batches then batches[g] else []) + [Elem(req, i)]];
      AppendToGroup(env, raw, ids0, batches0, i, ids, batches);
    }
  }

  /** As many minibatches as it takes, and no more. */
  method NumBatches(n: nat, max: nat) returns (q: nat)
    requires 0 < max
    ensures Offset(n, max, q) == n && forall i :: 0 <= i < q ==> Offset(n, max, i) < n
  {
    q := (n + max - 1) / max;
    EnoughBatches(n, max, q);
  }

  method MinibatchBounds(n: nat, max: nat, i: nat) returns (start: nat, end: nat)
    requires 0 < max && Offset(n, max, i) < n
    ensures start == Offset(n, max, i) && end == Offset(n, max, i + 1)
    ensures start < end <= n && end == if start + max < n then start + max else n
  {
    OffsetIsProduct(n, max, i);
    start := i * max;
    end := if start + max < n then start + max else n;
  }

  /** Puts each response of a minibatch into the slot of its request. */
  method Scatter(elems: seq<Elem>, rs: seq<Res>, responses: array<Option<Res>>)
    requires |rs| == |elems| && Ascending(elems) && forall e :: e in elems ==> e.index < responses.Length
    modifies responses
    ensures Scattered(old(responses[..]), elems, rs, responses[..])
  {
    for k := 0 to |elems|
      invariant Scattered(old(responses[..]), elems[..k], rs[..k], responses[..])
    {
      assert elems[k] in elems && elems[..k + 1] == elems[..k] + [elems[k]];
      ghost var before := responses[..];
      responses[elems[k].index] := Some(rs[k]);
      ScatterOne(old(responses[..]), elems, rs, k, before, responses[..]);
    }
    assert elems[..|elems|] == elems && rs[..|rs|] == rs;
  }

  /** The cache loop: hits are answered under the requester's ID, misses kept in order. */
  method ServeFromCache(env: Env, raw: seq<Raw>, batch: seq<Elem>, responses: array<Option<Res>>, ghost log: seq<Logged>)
    returns (misses: seq<Elem>)
    requires forall e :: e in batch ==> e.index < |raw| && Forwards(env, raw, e.index) && e.req == raw[e.index].req
    requires SlotsOk(env, raw, log, responses[..])
    modifies responses
    ensures SlotsOk(env, raw, log, responses[..]) && Filling(old(responses[..]), responses[..])
    ensures misses == Misses(env, batch)
    ensures HitsFilled(env, batch, responses[..])
  {
    misses := [];
    for k := 0 to |batch|
      invariant SlotsOk(env, raw, log, responses[..]) && Filling(old(responses[..]), responses[..])
      invariant misses == Misses(env, batch[..k])
      invariant HitsFilled(env, batch[..k], responses[..])
    {
      var e := batch[k];
      assert e in batch;
      assert batch[..k + 1] == batch[..k] + [e] && batch[..k + 1][..k] == batch[..k];
      var hit := env.cached(e.index);
      if hit.Some? {
        ghost var before := responses[..];
        responses[e.index] := Some(Res(e.req.id, hit.value));
        assert responses[..] == before[e.index := Some(Res(e.req.id, hit.value))];
        FillHit(env, raw, log, before, batch[..k], e);
      } else {
        misses := misses + [e];
      }
    }
    assert batch[..|batch|] == batch;
  }

  /** The responses to put into the slots, unless the outcome ends the batch. */
  method ResponsesFor(c: Logged) returns (stop: Option<BatchResult>, rs: seq<Res>)
    requires c.outcome.Ok? ==> |c.outcome.rs| == |c.elems|
    ensures stop.None? <==> Continues(c.outcome)
    ensures stop.None? ==> |rs| == |c.elems| && forall k :: 0 <= k < |c.elems| ==> AnsweredAs(c, k, rs[k])
    ensures stop.Some? ==> match c.outcome
              case Ok(_) => false
              case Fail(e) => stop.value == Aborted(e)
              case Panicked(cause) => stop.value == Crashed(cause)
  {
    match c.outcome
    case Ok(res) =>
      return None, res;
    case Panicked(cause) =>
      return Some(Crashed(cause)), [];
    case Fail(e) =>
      if e == ReceiptsCantBeBatched || e == ReceiptsInvalidTarget {
        return Some(Aborted(e)), [];
      }
      stop, rs := None, [];
      for i := 0 to |c.elems|
        invariant |rs| == i && forall k :: 0 <= k < i ==> rs[k] == Res(c.elems[k].req.id, Error(e))
      {
        rs := rs + [Res(c.elems[i].req.id, Error(e))];
      }
  }

  /** Forward one list and log it. */
  method Send(env: Env, isBatch: bool, raw: seq<Raw>, g: Group, elems: seq<Elem>, n: nat, ghost log: seq<Logged>)
    returns (c: Logged)
    requires n == |log| && LogOk(env, isBatch, raw, log) && Once(log) && Sendable(env, raw, log, g, elems)
    ensures c.group == g && c.elems == elems
    ensures LogOk(env, isBatch, raw, log + [c]) && Once(log + [c])
    ensures c.outcome.Ok? ==> |c.outcome.rs| == |elems|
    ensures c.outcome != Panicked(DuplicateIds)
  {
    var call := env.call(n, g.backendGroup);
    var out := Forward(call, ReqsOf(elems), isBatch);
    c := Logged(g, elems, out);
    LogExtends(env, isBatch, raw, log, c);
    DistinctNeverPanics(call, isBatch, ReqsOf(elems), out);
    LengthOfOk(call, isBatch, ReqsOf(elems), out);
  }

  /** Forward one list, log it, and scatter what comes back. */
  method ServeSlice(
    env: Env, isBatch: bool, raw: seq<Raw>, g: Group, elems: seq<Elem>, responses: array<Option<Res>>, n: nat,
    ghost log: seq<Logged>)
    returns (stop: Option<BatchResult>, c: Logged)
    requires n == |log| && !env.deadline(n)
    requires Serving(env, isBatch, raw, log, responses[..]) && Sendable(env, raw, log, g, elems)
    modifies responses
    ensures c.group == g && c.elems == elems
    ensures LogOk(env, isBatch, raw, log + [c]) && Once(log + [c])
    ensures stop.None? ==> Serving(env, isBatch, raw, log + [c], responses[..])
    ensures stop.None? ==> Filling(old(responses[..]), responses[..]) && AllFilled(responses[..], elems)
    ensures stop.Some? ==> StoppedBy(env, log + [c], stop.value) && !stop.value.DeadlineExceeded?
  {
    c := Send(env, isBatch, raw, g, elems, n, log);
    LoggedStop(env, log, c);
    var rs;
    stop, rs := ResponsesFor(c);
    if stop.None? {
      ghost var before := responses[..];
      Scatter(elems, rs, responses);
      ScatterOk(env, raw, log, c, rs, before, responses[..]);
    }
  }

  /** One round of the minibatch loop. */
  method ForwardSlice(
    env: Env, isBatch: bool, raw: seq<Raw>, g: Group, misses: seq<Elem>, start: nat, end: nat,
    responses: array<Option<Res>>, n: nat, ghost log0: seq<Logged>, ghost log: seq<Logged>)
    returns (stop: Option<BatchResult>, ghost log': seq<Logged>)
    requires 0 < env.maxUpstreamBatchSize && n == |log| && !env.deadline(n) && start < end <= |misses|
    requires var max := env.maxUpstreamBatchSize; end == if start + max < |misses| then start + max else |misses|
    requires GroupMisses(env, raw, g, misses) && OthersKept(log0, log, g)
    requires Midway(env, isBatch, raw, g, misses, start, log, responses[..])
    modifies responses
    ensures |log'| == |log| + 1
    ensures stop.None? ==>
              && Midway(env, isBatch, raw, g, misses, end, log', responses[..])
              && Filling(old(responses[..]), responses[..]) && OthersKept(log0, log', g)
    ensures stop.Some? ==> CutShort(env, isBatch, raw, g, misses, log0, log', stop.value)
  {
    SliceSendable(env, isBatch, raw, log, g, misses, start, end);
    var c;
    stop, c := ServeSlice(env, isBatch, raw, g, misses[start..end], responses, n, log);
    ForwardedMore(log0, log, c, misses, env.maxUpstreamBatchSize, start, end);
    log' := log + [c];
    if stop.None? {
      FilledSoFar(old(responses[..]), responses[..], misses, start, end);
    }
  }

  /** The minibatch loop over the cache misses of one group: what is logged for it are its minibatches, in order. */
  method ForwardMisses(
    env: Env, isBatch: bool, raw: seq<Raw>, g: Group, misses: seq<Elem>, responses: array<Option<Res>>, firstCall: nat,
    ghost log: seq<Logged>)
    returns (stop: Option<BatchResult>, nextCall: nat, ghost log': seq<Logged>)
    requires 0 < env.maxUpstreamBatchSize && firstCall == |log|
    requires GroupMisses(env, raw, g, misses) && CallsOf(log, g) == []
    requires Serving(env, isBatch, raw, log, responses[..])
    modifies responses
    ensures stop.None? ==>
              && AllSent(env, isBatch, raw, g, misses, log', responses[..]) && nextCall == |log'|
              && Filling(old(responses[..]), responses[..]) && OthersKept(log, log', g)
    ensures stop.Some? ==> CutShort(env, isBatch, raw, g, misses, log, log', stop.value)
  {
    var max := env.maxUpstreamBatchSize;
    var numBatches := NumBatches(|misses|, max);
    stop, nextCall, log' := None, firstCall, log;
    MidwayStart(env, isBatch, raw, g, misses, log, responses[..]);
    var i := 0;
    while i < numBatches && stop.None?
      invariant i <= numBatches
      invariant stop.None? ==>
                  && Midway(env, isBatch, raw, g, misses, Offset(|misses|, max, i), log', responses[..])
                  && nextCall == |log'| && Filling(old(responses[..]), responses[..]) && OthersKept(log, log', g)
      invariant stop.Some? ==> CutShort(env, isBatch, raw, g, misses, log, log', stop.value)
    {
      if env.deadline(nextCall) {
        MidwayUnfinished(env, isBatch, raw, g, misses, Offset(|misses|, max, i), log, log', responses[..]);
        stop := Some(DeadlineExceeded);
      } else {
        var start, end := MinibatchBounds(|misses|, max, i);
        stop, log' := ForwardSlice(env, isBatch, raw, g, misses, start, end, responses, nextCall, log, log');
        nextCall := nextCall + 1;
      }
      i := i + 1;
    }
    if stop.None? {
      MidwayDone(env, isBatch, raw, g, misses, log', responses[..]);
    }
  }

  /** One group: cache first, then the misses. */
  method ServeGroup(
    env: Env, isBatch: bool, raw: seq<Raw>, g: Group, batch: seq<Elem>, responses: array<Option<Res>>, firstCall: nat,
    ghost log: seq<Logged>)
    returns (stop: Option<BatchResult>, nextCall: nat, ghost log': seq<Logged>)
    requires 0 < env.maxUpstreamBatchSize && firstCall == |log|
    requires batch == Batch(env, raw, g, |raw|) && CallsOf(log, g) == []
    requires Serving(env, isBatch, raw, log, responses[..])
    modifies responses
    ensures LogOk(env, isBatch, raw, log') && Once(log') && OthersKept(log, log', g)
    ensures CallsOf(log', g) <= MinibatchesOf(env, raw, g)
    ensures stop.None? ==>
              && Serving(env, isBatch, raw, log', responses[..]) && nextCall == |log'|
              && CallsOf(log', g) == MinibatchesOf(env, raw, g)
              && Filling(old(responses[..]), responses[..]) && AllFilled(responses[..], batch)
    ensures stop.Some? ==> StoppedBy(env, log', stop.value)
    ensures stop == Some(DeadlineExceeded) ==> CallsOf(log', g) < MinibatchesOf(env, raw, g)
  {
    var misses := ServeFromCache(env, raw, batch, responses, log);
    GroupMissesOf(env, raw, g);
    ghost var between := responses[..];
    stop, nextCall, log' := ForwardMisses(env, isBatch, raw, g, misses, responses, firstCall, log);
    if stop.None? {
      GroupFilled(env, batch, between, responses[..]);
    }
  }

  /**
   The whole handler. Whatever the IDs, the order of the groups, the cache hits and the order of
   backend responses: a normal return answers each request in its own slot, and any other return is
   due to the deadline before the next forward or to the outcome of the last one.
   */
  method HandleBatchRPC(env: Env, isBatch: bool, raw: seq<Raw>) returns (result: BatchResult, ghost log: seq<Logged>)
    requires 0 < env.maxUpstreamBatchSize
    ensures IsHealthCheck(raw) ==> result == Responses([Res(raw[0].req.id, HEALTHZ_OK)]) && log == []
    ensures result.Responses? ==> |result.rs| == |raw|
    ensures !IsHealthCheck(raw) && result.Responses? ==>
              forall i :: 0 <= i < |raw| && OnTheSpot(env, raw, i).Some? ==> result.rs[i] == OnTheSpot(env, raw, i).value
    ensures result != Crashed(DuplicateIds)
    ensures LogOk(env, isBatch, raw, log) && Once(log)
    ensures !IsHealthCheck(raw) && result.Responses? ==> Answers(env, isBatch, raw, log, result.rs)
    ensures !result.Responses? ==> StoppedBy(env, log, result)
    ensures result == DeadlineExceeded ==> exists g :: CallsOf(log, g) < MinibatchesOf(env, raw, g)
    ensures forall g :: CallsOf(log, g) <= MinibatchesOf(env, raw, g)
  {
    log := [];
    if IsHealthCheck(raw) {
      return Responses([Res(raw[0].req.id, HEALTHZ_OK)]), [];
    }
    var responses := new Option<Res>[|raw|](_ => None);
    var batches := GroupRequests(env, raw, responses);
    ghost var door := responses[..];
    var left := batches.Keys;
    var calls := 0;
    StartServing(env, isBatch, raw, batches, door);
    while left != {}
      invariant left <= batches.Keys && calls == |log|
      invariant Serving(env, isBatch, raw, log, responses[..]) && Filling(door, responses[..])
      invariant Progress(env, raw, log, left) && GroupsFilled(env, raw, left, responses[..])
    {
      var g :| g in left;
      ghost var before, slots := log, responses[..];
      assert BatchIn(batches, g) == Batch(env, raw, g, |raw|);
      assert CallsOf(log, g) == [];
      var stop;
      stop, calls, log := ServeGroup(env, isBatch, raw, g, batches[g], responses, calls, log);
      if stop.Some? {
        StoppedShort(env, raw, before, log, left, g);
        return stop.value, log;
      }
      GroupDone(env, raw, before, log, left, g, slots, responses[..]);
      left := left - {g};
    }
    EverySlotFilled(env, raw, door, responses[..]);
    assert forall i :: 0 <= i < |raw| ==> SlotOk(env, raw, log, i, Filled(responses[..])[i]);
    return Responses(Filled(responses[..])), log;
  }
}
