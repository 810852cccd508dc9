/**
 Forwarding one batch: a backend may answer in any order, so its responses are checked for number,
 sorted back by request ID, and merged with the answers the proxy gave itself.

 What a backend replies is an oracle; retries of one backend are part of its reply.
 */
module BatchForward {

  import opened Words
  import opened Rpc
  import opened Overrides
  import Rewriter

  const RECEIPTS_METHOD := "consensus_getReceipts"

  // ---------- sorting by request position ----------

  /** The position of an ID among the requests; Go's map yields 0 for an unknown ID. */
  function Position(reqs: seq<Req>, id: string): nat {
    if reqs == [] then 0
    else if reqs[|reqs| - 1].id == id then |reqs| - 1
    else Position(reqs[..|reqs| - 1], id)
  }

  predicate InOrder(reqs: seq<Req>, rs: seq<Res>) {
    forall i, j :: 0 <= i < j < |rs| ==> Position(reqs, rs[i].id) <= Position(reqs, rs[j].id)
  }

  /** The same responses in another order, still with distinct IDs if they had them. */
  ghost predicate Rearranged(s: seq<Res>, t: seq<Res>) {
    multiset(s) == multiset(t) && (DistinctResIds(s) ==> DistinctResIds(t))
  }

  method Swap(a: array<Res>, j: nat)
    requires 0 < j < a.Length
    modifies a
    ensures a[..] == old(a[..])[j - 1 := old(a[j])][j := old(a[j - 1])]
    ensures Rearranged(old(a[..]), a[..])
  {
    a[j - 1], a[j] := a[j], a[j - 1];
  }

  function Key(pos: map<string, nat>, r: Res): nat {
    if r.id in pos then pos[r.id] else 0
  }

  /** The first `n` elements are in order, leaving aside the one at `hole`, which belongs at or before it. */
  predicate OrderedBut(pos: map<string, nat>, rs: seq<Res>, n: nat, hole: nat)
    requires n <= |rs|
  {
    forall i, j :: 0 <= i < j < n && j != hole ==> Key(pos, rs[i]) <= Key(pos, rs[j])
  }

  lemma SwapKeepsOrder(pos: map<string, nat>, rs: seq<Res>, rs': seq<Res>, n: nat, j: nat)
    requires 0 < j < n <= |rs| && OrderedBut(pos, rs, n, j)
    requires Key(pos, rs[j]) < Key(pos, rs[j - 1])
    requires rs' == rs[j - 1 := rs[j]][j := rs[j - 1]]
    ensures OrderedBut(pos, rs', n, j - 1)
  {
  }

  lemma HoleClosed(pos: map<string, nat>, rs: seq<Res>, n: nat, j: nat)
    requires j < n <= |rs| && OrderedBut(pos, rs, n, j)
    requires j == 0 || Key(pos, rs[j - 1]) <= Key(pos, rs[j])
    ensures OrderedBut(pos, rs, n, n)
  {
    forall i | 0 <= i < j ensures Key(pos, rs[i]) <= Key(pos, rs[j]) {
      assert i < j - 1 ==> Key(pos, rs[i]) <= Key(pos, rs[j - 1]);
    }
  }

  /** Moves the element at `i` down to its place among the ones before it. */
  method Settle(a: array<Res>, pos: map<string, nat>, i: nat)
    requires i < a.Length && OrderedBut(pos, a[..], i, i)
    modifies a
    ensures OrderedBut(pos, a[..], i + 1, i + 1)
    ensures Rearranged(old(a[..]), a[..])
  {
    var j := i;
    while j > 0 && Key(pos, a[j]) < Key(pos, a[j - 1])
      invariant 0 <= j <= i
      invariant OrderedBut(pos, a[..], i + 1, j)
      invariant Rearranged(old(a[..]), a[..])
    {
      ghost var before := a[..];
      Swap(a, j);
      SwapKeepsOrder(pos, before, a[..], i + 1, j);
      j := j - 1;
    }
    HoleClosed(pos, a[..], i + 1, j);
  }

  method SortByPosition(a: array<Res>, pos: map<string, nat>)
    modifies a
    ensures OrderedBut(pos, a[..], a.Length, a.Length)
    ensures Rearranged(old(a[..]), a[..])
  {
    for i := 0 to a.Length
      invariant OrderedBut(pos, a[..], i, i)
      invariant Rearranged(old(a[..]), a[..])
    {
      Settle(a, pos, i);
    }
  }

  /** Sorts responses by the position of their ID; duplicate request IDs are a panic. */
  method SortBatchRPCResponse(reqs: seq<Req>, res: array<Res>) returns (panicked: bool)
    modifies res
    ensures panicked <==> !DistinctIds(reqs)
    ensures !panicked ==> InOrder(reqs, res[..])
    ensures Rearranged(old(res[..]), res[..])
  {
    var pos: map<string, nat> := map[];
    for i := 0 to |reqs|
      invariant DistinctIds(reqs[..i])
      invariant forall id :: id in pos <==> exists j :: 0 <= j < i && reqs[j].id == id
      invariant forall id :: Position(reqs[..i], id) == if id in pos then pos[id] else 0
    {
      var key := reqs[i].id;
      if key in pos {
        return true;
      }
      assert reqs[..i + 1][..i] == reqs[..i];
      pos := pos[key := i];
    }
    assert reqs[..|reqs|] == reqs;
    SortByPosition(res, pos);
    assert forall i :: 0 <= i < res.Length ==> Position(reqs, res[i].id) == Key(pos, res[i]);
    panicked := false;
  }

  // ---------- alignment ----------

  lemma {:induction false} PositionOf(reqs: seq<Req>, i: nat)
    requires i < |reqs| && DistinctIds(reqs)
    ensures Position(reqs, reqs[i].id) == i
  {
    if i < |reqs| - 1 {
      PositionOf(reqs[..|reqs| - 1], i);
    }
  }

  /** Strictly increasing values below the length are the indexes themselves. */
  lemma {:induction false} IncreasingIsIdentity(xs: seq<nat>, i: nat)
    requires forall a, b :: 0 <= a < b < |xs| ==> xs[a] < xs[b]
    requires forall a :: 0 <= a < |xs| ==> xs[a] < |xs|
    requires i < |xs|
    ensures xs[i] == i
  {
    AtLeastIndex(xs, i);
    AtMostIndex(xs, i);
  }

  lemma {:induction false} AtLeastIndex(xs: seq<nat>, i: nat)
    requires forall a, b :: 0 <= a < b < |xs| ==> xs[a] < xs[b]
    requires i < |xs|
    ensures i <= xs[i]
  {
    if i > 0 {
      AtLeastIndex(xs, i - 1);
    }
  }

  lemma {:induction false} AtMostIndex(xs: seq<nat>, i: nat)
    requires forall a, b :: 0 <= a < b < |xs| ==> xs[a] < xs[b]
    requires forall a :: 0 <= a < |xs| ==> xs[a] < |xs|
    requires i < |xs|
    ensures xs[i] <= i
    decreases |xs| - i
  {
    if i + 1 < |xs| {
      AtMostIndex(xs, i + 1);
    }
  }

  /** Each response carries the ID of some request, and no two carry the same. */
  ghost predicate OneEach(reqs: seq<Req>, rs: seq<Res>) {
    && |rs| == |reqs|
    && DistinctResIds(rs)
    && (forall r :: r in rs ==> exists i :: 0 <= i < |reqs| && reqs[i].id == r.id)
  }

  /** One response per request, in position order, is one response per request in request order. */
  lemma SortedIsAligned(reqs: seq<Req>, rs: seq<Res>)
    requires DistinctIds(reqs) && OneEach(reqs, rs) && InOrder(reqs, rs)
    ensures forall i :: 0 <= i < |reqs| ==> rs[i].id == reqs[i].id
  {
    var xs := seq(|rs|, i requires 0 <= i < |rs| => Position(reqs, rs[i].id));
    forall a | 0 <= a < |rs| ensures xs[a] < |xs| && reqs[xs[a]].id == rs[a].id {
      assert rs[a] in rs;
      var i :| 0 <= i < |reqs| && reqs[i].id == rs[a].id;
      PositionOf(reqs, i);
    }
    forall a, b | 0 <= a < b < |xs| ensures xs[a] < xs[b] {
      assert rs[a].id != rs[b].id;
    }
    forall i | 0 <= i < |reqs| ensures rs[i].id == reqs[i].id {
      IncreasingIsIdentity(xs, i);
    }
  }

  // ---------- one backend ----------

  datatype Reply = Refused(err: Err) | Replied(rs: seq<Res>)

  datatype PanicCause = DuplicateIds | EmptyParams

  datatype Outcome = Ok(rs: seq<Res>) | Fail(err: Err) | Panicked(cause: PanicCause)

  /** `sorted` is what the backend replied, rearranged into the order of the requests. */
  ghost predicate SortedReply(reqs: seq<Req>, replied: seq<Res>, sorted: seq<Res>) {
    |sorted| == |reqs| && Rearranged(replied, sorted) && InOrder(reqs, sorted)
  }

  /** The error of one attempt, if any: forbidden in a batch, refused, or the wrong number of responses. */
  function AttemptError(reqs: seq<Req>, isBatch: bool, reply: Reply): Option<Err> {
    if isBatch && exists r :: r in reqs && r.rpcMethod == RECEIPTS_METHOD then Some(ReceiptsCantBeBatched)
    else if reply.Refused? then Some(reply.err)
    else if |reply.rs| != |reqs| then Some(UnexpectedJson)
    else None
  }

  method DoForward(reqs: seq<Req>, isBatch: bool, reply: Reply) returns (out: Outcome)
    ensures out.Fail? <==> AttemptError(reqs, isBatch, reply).Some?
    ensures out.Fail? ==> AttemptError(reqs, isBatch, reply) == Some(out.err)
    ensures out.Panicked? <==> AttemptError(reqs, isBatch, reply).None? && !DistinctIds(reqs)
    ensures out.Panicked? ==> out.cause == DuplicateIds
    ensures out.Ok? ==> reply.Replied? && SortedReply(reqs, reply.rs, out.rs)
  {
    if isBatch && exists r :: r in reqs && r.rpcMethod == RECEIPTS_METHOD {
      return Fail(ReceiptsCantBeBatched);
    }
    match reply
    case Refused(e) =>
      return Fail(e);
    case Replied(rs) =>
      if |reqs| != |rs| {
        return Fail(UnexpectedJson);
      }
      var res := new Res[|rs|](i requires 0 <= i < |rs| => rs[i]);
      assert res[..] == rs;
      var panicked := SortBatchRPCResponse(reqs, res);
      if panicked {
        return Panicked(DuplicateIds);
      }
      return Ok(res[..]);
  }

  // ---------- honest backends ----------

  /** `answers(req, res)` says that `res` is an answer to `req`. */
  type Relation = (Req, Res) -> bool

  /** The backend answered each request once, in any order, under its ID. */
  ghost predicate Honest(answers: Relation, reqs: seq<Req>, rs: seq<Res>) {
    && DistinctResIds(rs)
    && (forall r :: r in rs ==> exists i :: 0 <= i < |reqs| && reqs[i].id == r.id && answers(reqs[i], r))
  }

  predicate AnswersAll(answers: Relation, reqs: seq<Req>, rs: seq<Res>) {
    && |rs| == |reqs|
    && (forall i :: 0 <= i < |reqs| ==> rs[i].id == reqs[i].id && answers(reqs[i], rs[i]))
  }

  /** Whatever order an honest backend answers in, sorting puts each answer at its request. */
  lemma HonestAligned(answers: Relation, reqs: seq<Req>, replied: seq<Res>, sorted: seq<Res>)
    requires DistinctIds(reqs) && Honest(answers, reqs, replied) && SortedReply(reqs, replied, sorted)
    ensures AnswersAll(answers, reqs, sorted)
  {
    forall r | r in sorted
      ensures exists i :: 0 <= i < |reqs| && reqs[i].id == r.id && answers(reqs[i], r)
    {
      assert r in multiset(sorted);
      assert r in replied;
    }
    SortedIsAligned(reqs, sorted);
    forall i | 0 <= i < |reqs| ensures answers(reqs[i], sorted[i]) {
      assert sorted[i] in sorted;
      var k :| 0 <= k < |reqs| && reqs[k].id == sorted[i].id && answers(reqs[k], sorted[i]);
      assert k == i;
    }
  }

  // ---------- a backend group ----------

  /** What backend `k` replies to these requests. */
  type Replies = (nat, seq<Req>) -> Reply

  predicate Final(e: Err) {
    e == ReceiptsCantBeBatched || e == ReceiptsInvalidTarget || e == NotWhitelisted || e == ResponseTooLarge
  }

  /** `sorted` is the serving backend's reply in request order; with nothing to ask, nobody is asked. */
  ghost predicate FromBackend(reqs: seq<Req>, replies: Replies, backend: nat, sorted: seq<Res>) {
    if reqs == [] then sorted == []
    else replies(backend, reqs).Replied? && SortedReply(reqs, replies(backend, reqs).rs, sorted)
  }

  // ---------- who serves, in terms of the replies ----------

  /** One response per request, and nothing in the list that must not be batched. */
  predicate GoodReply(reqs: seq<Req>, isBatch: bool, reply: Reply) {
    && !(isBatch && exists r :: r in reqs && r.rpcMethod == "consensus_getReceipts")
    && reply.Replied? && |reply.rs| == |reqs|
  }

  predicate FailsWith(reqs: seq<Req>, isBatch: bool, reply: Reply, e: Err) {
    if isBatch && exists r :: r in reqs && r.rpcMethod == "consensus_getReceipts" then e == ReceiptsCantBeBatched
    else match reply
      case Refused(err) => e == err
      case Replied(rs) => |rs| != |reqs| && e == UnexpectedJson
  }

  /** The next backend is tried: this one failed, and not with one of the four errors that no other backend could mend. */
  predicate MovesOn(reqs: seq<Req>, isBatch: bool, reply: Reply) {
    && !GoodReply(reqs, isBatch, reply)
    && !FailsWith(reqs, isBatch, reply, ReceiptsCantBeBatched) && !FailsWith(reqs, isBatch, reply, ReceiptsInvalidTarget)
    && !FailsWith(reqs, isBatch, reply, NotWhitelisted) && !FailsWith(reqs, isBatch, reply, ResponseTooLarge)
  }

  predicate AllMoveOn(reqs: seq<Req>, isBatch: bool, replies: Replies, k: nat) {
    forall j :: 0 <= j < k ==> MovesOn(reqs, isBatch, replies(j, reqs))
  }

  /** Backend `k` serves the list: it answers it well, and every backend before it has failed in passing. */
  predicate ServedAt(reqs: seq<Req>, backends: nat, isBatch: bool, replies: Replies, k: nat) {
    && k < backends
    && if reqs == [] then k == 0
       else GoodReply(reqs, isBatch, replies(k, reqs)) && AllMoveOn(reqs, isBatch, replies, k)
  }

  /** The first backend that does not fail in passing fails for good, with error `e`. */
  predicate EndsAt(reqs: seq<Req>, isBatch: bool, replies: Replies, k: nat, e: Err) {
    && AllMoveOn(reqs, isBatch, replies, k)
    && !GoodReply(reqs, isBatch, replies(k, reqs)) && FailsWith(reqs, isBatch, replies(k, reqs), e)
    && !MovesOn(reqs, isBatch, replies(k, reqs))
  }

  /** Nobody serves the list: it ends for good at some backend, or all of them have failed in passing. */
  predicate FailsAs(reqs: seq<Req>, backends: nat, isBatch: bool, replies: Replies, e: Err) {
    if reqs == [] then backends == 0 && e == NoBackends
    else
      || (exists k :: 0 <= k < backends && EndsAt(reqs, isBatch, replies, k, e))
      || (e == NoBackends && AllMoveOn(reqs, isBatch, replies, backends))
  }

  lemma AttemptExact(reqs: seq<Req>, isBatch: bool, reply: Reply)
    ensures AttemptError(reqs, isBatch, reply).None? <==> GoodReply(reqs, isBatch, reply)
    ensures forall e :: AttemptError(reqs, isBatch, reply) == Some(e) <==> FailsWith(reqs, isBatch, reply, e)
    ensures MovesOn(reqs, isBatch, reply) <==>
            AttemptError(reqs, isBatch, reply).Some? && !Final(AttemptError(reqs, isBatch, reply).value)
  {
  }

  /** A list is served by one backend or fails with one error, never both. */
  lemma OneService(reqs: seq<Req>, backends: nat, isBatch: bool, replies: Replies)
    ensures forall j, k :: ServedAt(reqs, backends, isBatch, replies, j) && ServedAt(reqs, backends, isBatch, replies, k) ==> j == k
    ensures forall e, k :: FailsAs(reqs, backends, isBatch, replies, e) ==> !ServedAt(reqs, backends, isBatch, replies, k)
    ensures forall d, e :: FailsAs(reqs, backends, isBatch, replies, d) && FailsAs(reqs, backends, isBatch, replies, e) ==> d == e
  {
    forall d, e | reqs != [] && FailsAs(reqs, backends, isBatch, replies, d) && FailsAs(reqs, backends, isBatch, replies, e)
      ensures d == e
    {
      if j :| 0 <= j < backends && EndsAt(reqs, isBatch, replies, j, d) {
        AttemptExact(reqs, isBatch, replies(j, reqs));
        if k :| 0 <= k < backends && EndsAt(reqs, isBatch, replies, k, e) {
          assert j == k;
        }
      }
    }
  }

  /** Tries the backends in turn; some errors end the attempt, others move on to the next. */
  method ForwardRequestToBackendGroup(reqs: seq<Req>, backends: nat, isBatch: bool, replies: Replies) returns (out: Outcome)
    ensures match out
            case Fail(e) => FailsAs(reqs, backends, isBatch, replies, e)
            case Ok(rs) =>
              && DistinctIds(reqs)
              && exists k :: ServedAt(reqs, backends, isBatch, replies, k) && FromBackend(reqs, replies, k, rs)
            case Panicked(cause) =>
              && cause == DuplicateIds && !DistinctIds(reqs)
              && exists k :: ServedAt(reqs, backends, isBatch, replies, k)
  {
    for k := 0 to backends
      invariant reqs == [] ==> k == 0
      invariant reqs != [] ==> AllMoveOn(reqs, isBatch, replies, k)
    {
      if |reqs| == 0 {
        assert ServedAt(reqs, backends, isBatch, replies, 0);
        return Ok([]);
      }
      out := DoForward(reqs, isBatch, replies(k, reqs));
      AttemptExact(reqs, isBatch, replies(k, reqs));
      match out
      case Ok(_) =>
        assert ServedAt(reqs, backends, isBatch, replies, k);
        return;
      case Panicked(_) =>
        assert ServedAt(reqs, backends, isBatch, replies, k);
        return;
      case Fail(e) =>
        if Final(e) {
          assert EndsAt(reqs, isBatch, replies, k, e);
          return;
        }
    }
    return Fail(NoBackends);
  }

  // ---------- rewriting, forwarding, splicing ----------

  /** The surroundings of one forward to a group; `rctx` is present when the group is consensus aware. */
  datatype Call = Call(rctx: Option<Rewriter.RewriteContext>, backends: nat, replies: Replies)

  /** A group that is not consensus aware passes every request on as it is. */
  function DeciderOf(rctx: Option<Rewriter.RewriteContext>): Decider {
    match rctx
    case None => (req: Req) => Forwarded(req)
    case Some(r) => DeciderFor(r)
  }

  lemma DecidingKeepsIds(rctx: Option<Rewriter.RewriteContext>)
    ensures KeepsIds(DeciderOf(rctx))
  {
    if rctx.Some? {
      RewritingKeepsIds(rctx.value);
    }
  }

  /** The forwarded subsequence. */
  function Kept(ds: seq<Decision>): seq<Req> {
    if ds == [] then []
    else
      var n := |ds| - 1;
      Kept(ds[..n]) + if ds[n].Forwarded? then [ds[n].req] else []
  }

  lemma {:induction false} KeptIsForwarded(ds: seq<Decision>)
    ensures IsForwarded(ds, Kept(ds))
  {
    if ds != [] {
      var n := |ds| - 1;
      KeptIsForwarded(ds[..n]);
      ForwardedExtend(ds[..n], Kept(ds[..n]), ds[n]);
      assert ds[..n] + [ds[n]] == ds;
    }
  }

  lemma {:induction false} RankInverse(ds: seq<Decision>, n: nat, k: nat) returns (i: nat)
    requires n <= |ds| && k < Rank(ds, n)
    ensures i < n && ds[i].Forwarded? && Rank(ds, i) == k
  {
    if ds[n - 1].Forwarded? && Rank(ds, n - 1) == k {
      i := n - 1;
    } else {
      i := RankInverse(ds, n - 1, k);
    }
  }

  /** There is only one forwarded subsequence. */
  lemma ForwardedUnique(ds: seq<Decision>, fs: seq<Req>)
    requires IsForwarded(ds, fs)
    ensures fs == Kept(ds)
  {
    KeptIsForwarded(ds);
    forall k | 0 <= k < |fs| ensures fs[k] == Kept(ds)[k] {
      var i := RankInverse(ds, |ds|, k);
    }
  }

  /** Forwarded requests keep their IDs, so they are as distinct as the originals. */
  lemma ForwardedDistinct(decide: Decider, reqs: seq<Req>)
    requires KeepsIds(decide) && DistinctIds(reqs)
    ensures DistinctIds(Kept(Decisions(decide, reqs)))
  {
    var ds := Decisions(decide, reqs);
    var fs := Kept(ds);
    KeptIsForwarded(ds);
    forall a, b | 0 <= a < b < |fs| ensures fs[a].id != fs[b].id {
      var i := RankInverse(ds, |ds|, a);
      var j := RankInverse(ds, |ds|, b);
      assert fs[a].id == decide(reqs[i]).req.id == reqs[i].id;
      assert fs[b].id == decide(reqs[j]).req.id == reqs[j].id;
      assert i != j;
    }
  }

  /** Each position holds the override, or the response at the rank of its forwarded request. */
  ghost predicate Merged(ds: seq<Decision>, sorted: seq<Res>, rs: seq<Res>) {
    |rs| == |ds| && forall i :: 0 <= i < |ds| ==> Placed(ds, sorted, i, rs[i])
  }

  ghost predicate MergedReply(ds: seq<Decision>, replies: Replies, backend: nat, rs: seq<Res>) {
    exists sorted :: FromBackend(Kept(ds), replies, backend, sorted) && Merged(ds, sorted, rs)
  }

  /** The list the backends of a call are asked: the forwarded part of the requests. */
  function Sent(c: Call, reqs: seq<Req>): seq<Req> {
    Kept(Decisions(DeciderOf(c.rctx), reqs))
  }

  /** Everything a forward may come to: exactly which panic, which error, or whose responses in which places. */
  ghost predicate Produces(c: Call, isBatch: bool, reqs: seq<Req>, out: Outcome) {
    var ds, fs := Decisions(DeciderOf(c.rctx), reqs), Sent(c, reqs);
    if reqs == [] then out == Ok([])
    else if !NoPanic(ds) then out == Panicked(EmptyParams)
    else match out
      case Fail(e) => FailsAs(fs, c.backends, isBatch, c.replies, e)
      case Ok(rs) =>
        && DistinctIds(fs)
        && exists k :: ServedAt(fs, c.backends, isBatch, c.replies, k) && MergedReply(ds, c.replies, k, rs)
      case Panicked(cause) =>
        && cause == DuplicateIds && !DistinctIds(fs)
        && exists k :: ServedAt(fs, c.backends, isBatch, c.replies, k)
  }

  /** A consensus-aware group splits its requests; any other forwards them all. */
  method SplitRequests(rctx: Option<Rewriter.RewriteContext>, reqs: seq<Req>)
    returns (forwarded: seq<Req>, overridden: seq<IndexedRes>, panicked: bool)
    ensures panicked <==> !NoPanic(Decisions(DeciderOf(rctx), reqs))
    ensures !panicked ==> Splits(Decisions(DeciderOf(rctx), reqs), forwarded, overridden)
    ensures !panicked ==> forwarded == Kept(Decisions(DeciderOf(rctx), reqs))
  {
    ghost var ds := Decisions(DeciderOf(rctx), reqs);
    if rctx.Some? {
      forwarded, overridden, panicked := OverwriteConsensusResponses(DeciderOf(rctx), reqs);
    } else {
      forwarded, overridden, panicked := reqs, [], false;
      NothingOverridden(reqs, ds);
    }
    if !panicked {
      ForwardedUnique(ds, forwarded);
    }
  }

  lemma SameLength(reqs: seq<Req>, replies: Replies, k: nat, rs: seq<Res>)
    requires FromBackend(reqs, replies, k, rs)
    ensures |rs| == |reqs|
  {
  }

  method Forward(c: Call, reqs: seq<Req>, isBatch: bool) returns (out: Outcome)
    ensures Produces(c, isBatch, reqs, out)
  {
    if |reqs| == 0 {
      return Ok([]);
    }
    ghost var ds := Decisions(DeciderOf(c.rctx), reqs);
    var forwarded, overridden, panicked := SplitRequests(c.rctx, reqs);
    if panicked {
      return Panicked(EmptyParams);
    }
    out := ForwardRequestToBackendGroup(forwarded, c.backends, isBatch, c.replies);
    if out.Ok? {
      ghost var k :| ServedAt(forwarded, c.backends, isBatch, c.replies, k) && FromBackend(forwarded, c.replies, k, out.rs);
      SameLength(forwarded, c.replies, k, out.rs);
      var merged := OverrideResponses(out.rs, overridden, ds);
      assert Merged(ds, out.rs, merged);
      assert MergedReply(ds, c.replies, k, merged);
      out := Ok(merged);
    }
  }

  /** Without rewriting, everything is forwarded and nothing is overridden. */
  lemma NothingOverridden(reqs: seq<Req>, ds: seq<Decision>)
    requires ds == Decisions(DeciderOf(None), reqs)
    ensures Splits(ds, reqs, [])
  {
    AllForwarded(ds, |ds|);
    NoOverrides(ds, 0);
    forall i | 0 <= i < |ds| ensures Rank(ds, i) == i {
      AllForwarded(ds, i);
    }
  }

  lemma {:induction false} AllForwarded(ds: seq<Decision>, i: nat)
    requires i <= |ds| && forall k :: 0 <= k < |ds| ==> ds[k].Forwarded?
    ensures Rank(ds, i) == i
  {
    if i > 0 {
      AllForwarded(ds, i - 1);
    }
  }

  lemma {:induction false} NoOverrides(ds: seq<Decision>, from: nat)
    requires from <= |ds| && forall k :: 0 <= k < |ds| ==> ds[k].Forwarded?
    ensures ListsOverrides(ds, from, [])
    decreases |ds| - from
  {
    if from < |ds| {
      NoOverrides(ds, from + 1);
    }
  }

  // ---------- what a forward means ----------

  /** What request `req` gets from its group: its override, or an answer to it as rewritten. */
  ghost predicate GroupAnswer(rctx: Option<Rewriter.RewriteContext>, answers: Relation, req: Req, r: Res) {
    match DeciderOf(rctx)(req)
    case Overridden(ov) => r == ov
    case Forwarded(q) => r.id == req.id && answers(q, r)
    case Panics => false
  }

  /** The backend that serves this call answers it honestly. */
  ghost predicate HonestCall(answers: Relation, c: Call, isBatch: bool, reqs: seq<Req>) {
    var fs := Sent(c, reqs);
    forall k :: fs != [] && ServedAt(fs, c.backends, isBatch, c.replies, k) ==> Honest(answers, fs, c.replies(k, fs).rs)
  }

  lemma MergedAnswers(c: Call, answers: Relation, reqs: seq<Req>, sorted: seq<Res>, i: nat, r: Res)
    requires AnswersAll(answers, Kept(Decisions(DeciderOf(c.rctx), reqs)), sorted)
    requires i < |reqs| && Placed(Decisions(DeciderOf(c.rctx), reqs), sorted, i, r)
    ensures GroupAnswer(c.rctx, answers, reqs[i], r)
  {
    var ds := Decisions(DeciderOf(c.rctx), reqs);
    KeptIsForwarded(ds);
    DecidingKeepsIds(c.rctx);
    assert ds[i] == DeciderOf(c.rctx)(reqs[i]);
    if ds[i].Forwarded? {
      assert Kept(ds)[Rank(ds, i)] == ds[i].req;
    }
  }

  /** Served by an honest backend, every request gets its override or an answer to its rewritten form, in its own place. */
  lemma HonestCallAnswers(c: Call, isBatch: bool, reqs: seq<Req>, rs: seq<Res>, answers: Relation)
    requires Produces(c, isBatch, reqs, Ok(rs)) && HonestCall(answers, c, isBatch, reqs)
    ensures |rs| == |reqs| && forall i :: 0 <= i < |reqs| ==> GroupAnswer(c.rctx, answers, reqs[i], rs[i])
  {
    if reqs != [] {
      var ds := Decisions(DeciderOf(c.rctx), reqs);
      var k :| ServedAt(Kept(ds), c.backends, isBatch, c.replies, k) && MergedReply(ds, c.replies, k, rs);
      var sorted :| FromBackend(Kept(ds), c.replies, k, sorted) && Merged(ds, sorted, rs);
      if Kept(ds) != [] {
        HonestAligned(answers, Kept(ds), c.replies(k, Kept(ds)).rs, sorted);
      }
      forall i | 0 <= i < |reqs| ensures GroupAnswer(c.rctx, answers, reqs[i], rs[i]) {
        MergedAnswers(c, answers, reqs, sorted, i, rs[i]);
      }
    }
  }

  /** Requests with distinct IDs never run into the duplicate-ID panic. */
  lemma DistinctNeverPanics(c: Call, isBatch: bool, reqs: seq<Req>, out: Outcome)
    requires Produces(c, isBatch, reqs, out) && DistinctIds(reqs)
    ensures out != Panicked(DuplicateIds)
  {
    DecidingKeepsIds(c.rctx);
    ForwardedDistinct(DeciderOf(c.rctx), reqs);
  }
}
