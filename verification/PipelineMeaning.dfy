/**
 What rewriting means for a batch, end to end: which requests the backends of a consensus-aware group
 are asked, what these name, what is answered without asking anybody, and what ends up in the slots.
 */
module PipelineMeaning {

  import opened Words
  import opened Rpc
  import opened Overrides
  import opened BatchForward
  import opened BatchGroups
  import opened BatchLog
  import Rewriter
  import opened RewriterMeaning
  import opened RewriterMethods

  /** What the rewriter says to a request. */
  function Verdict(rctx: Rewriter.RewriteContext, req: Req): Rewriter.RewriteResult {
    Rewriter.Rewritten(rctx, req.rpcMethod, req.params).0
  }

  /** `q` is `req` as it must reach a backend: the same but for its parameters, which mean for every backend what the client's meant for the consensus. */
  ghost predicate StandsFor(rctx: Rewriter.RewriteContext, req: Req, q: Req) {
    && q.id == req.id && q.rpcMethod == req.rpcMethod
    && (q.params == req.params || Verdict(rctx, req).RewriteOverrideRequest?)
    && forall v :: Means(rctx, req.rpcMethod, req.params, q.params, v)
  }

  lemma AcceptedStandsFor(rctx: Rewriter.RewriteContext, req: Req)
    requires HeadsFit(rctx) && Verdict(rctx, req).Accepted()
    ensures Decide(rctx, req).Forwarded? && StandsFor(rctx, req, Decide(rctx, req).req)
  {
    var q := Decide(rctx, req).req;
    forall v ensures Means(rctx, req.rpcMethod, req.params, q.params, v) {
      RequestKeepsMeaning(rctx, req.rpcMethod, req.params, v);
    }
    UntouchedUnlessReplaced(rctx, req.rpcMethod, req.params);
  }

  lemma UntouchedUnlessReplaced(rctx: Rewriter.RewriteContext, m: string, p: Rewriter.Params)
    ensures Rewriter.Rewritten(rctx, m, p).0 != Rewriter.RewriteOverrideRequest ==> Rewriter.Rewritten(rctx, m, p).1 == p
  {
  }

  // ---------- the list that is sent ----------

  /** Every request a backend receives stands for a client request that the rewriter accepted. */
  lemma SentStandsFor(c: Call, rctx: Rewriter.RewriteContext, reqs: seq<Req>, j: nat) returns (i: nat)
    requires c.rctx == Some(rctx) && HeadsFit(rctx) && j < |Sent(c, reqs)|
    ensures i < |reqs| && Verdict(rctx, reqs[i]).Accepted() && StandsFor(rctx, reqs[i], Sent(c, reqs)[j])
  {
    var ds := Decisions(DeciderOf(c.rctx), reqs);
    KeptIsForwarded(ds);
    i := RankInverse(ds, |ds|, j);
    assert ds[i] == Decide(rctx, reqs[i]);
    AcceptedStandsFor(rctx, reqs[i]);
  }

  /** Every accepted client request is sent, in the order of the batch. */
  lemma AcceptedIsSent(c: Call, rctx: Rewriter.RewriteContext, reqs: seq<Req>, i: nat) returns (j: nat)
    requires c.rctx == Some(rctx) && HeadsFit(rctx) && i < |reqs| && Verdict(rctx, reqs[i]).Accepted()
    ensures j < |Sent(c, reqs)| && StandsFor(rctx, reqs[i], Sent(c, reqs)[j])
  {
    var ds := Decisions(DeciderOf(c.rctx), reqs);
    KeptIsForwarded(ds);
    assert ds[i] == Decide(rctx, reqs[i]);
    AcceptedStandsFor(rctx, reqs[i]);
    j := Rank(ds, i);
  }

  /** What the rewriter does not accept is asked of nobody. */
  lemma RefusedIsNotSent(c: Call, rctx: Rewriter.RewriteContext, reqs: seq<Req>, i: nat, j: nat)
    requires c.rctx == Some(rctx) && HeadsFit(rctx) && DistinctIds(reqs)
    requires i < |reqs| && !Verdict(rctx, reqs[i]).Accepted() && j < |Sent(c, reqs)|
    ensures Sent(c, reqs)[j].id != reqs[i].id
  {
    var k := SentStandsFor(c, rctx, reqs, j);
    assert k != i;
  }

  /** A group that is not consensus aware is asked exactly what the client asked. */
  lemma PlainGroupSendsAll(c: Call, reqs: seq<Req>)
    requires c.rctx.None?
    ensures Sent(c, reqs) == reqs
  {
    var ds := Decisions(DeciderOf(c.rctx), reqs);
    NothingOverridden(reqs, ds);
    ForwardedUnique(ds, reqs);
  }

  // ---------- what the slots hold ----------

  /** A response given without asking a backend. */
  ghost predicate Immediate(rctx: Rewriter.RewriteContext, req: Req, r: Res) {
    match Verdict(rctx, req)
    case RewriteOverrideError(OutOfRange) => r == Res(req.id, Error(BlockOutOfRange))
    case RewriteOverrideError(RangeTooLarge) => r == Res(req.id, Error(RangeTooLarge))
    case RewriteOverrideError(BadParams) => r == Res(req.id, Error(ParseError))
    case RewriteOverrideResponse(latest) => r == Res(req.id, Result(rctx.latest))
    case _ => false
  }

  lemma NotAcceptedIsImmediate(rctx: Rewriter.RewriteContext, req: Req, r: Res)
    requires !Verdict(rctx, req).Accepted() && Decide(rctx, req) == Overridden(r)
    ensures Immediate(rctx, req, r)
  {
  }

  /**
   A served call of a consensus-aware group: a request the rewriter did not accept has its error, or
   the consensus head, in its place; and with an honest backend every other has an answer to a request
   that stands for it.
   */
  lemma ServedCall(
    c: Call, rctx: Rewriter.RewriteContext, isBatch: bool, reqs: seq<Req>, rs: seq<Res>, answers: Relation, i: nat)
    requires c.rctx == Some(rctx) && HeadsFit(rctx) && Produces(c, isBatch, reqs, Ok(rs)) && i < |reqs|
    ensures |rs| == |reqs|
    ensures !Verdict(rctx, reqs[i]).Accepted() ==> Immediate(rctx, reqs[i], rs[i])
    ensures Verdict(rctx, reqs[i]).Accepted() && HonestCall(answers, c, isBatch, reqs) ==>
              rs[i].id == reqs[i].id && exists q :: StandsFor(rctx, reqs[i], q) && answers(q, rs[i])
  {
    var ds := Decisions(DeciderOf(c.rctx), reqs);
    var k :| ServedAt(Kept(ds), c.backends, isBatch, c.replies, k) && MergedReply(ds, c.replies, k, rs);
    var sorted :| FromBackend(Kept(ds), c.replies, k, sorted) && Merged(ds, sorted, rs);
    assert Placed(ds, sorted, i, rs[i]);
    assert ds[i] == Decide(rctx, reqs[i]);
    if Verdict(rctx, reqs[i]).Accepted() {
      AcceptedStandsFor(rctx, reqs[i]);
      if HonestCall(answers, c, isBatch, reqs) {
        HonestCallAnswers(c, isBatch, reqs, rs, answers);
        assert GroupAnswer(c.rctx, answers, reqs[i], rs[i]);
      }
    } else {
      NotAcceptedIsImmediate(rctx, reqs[i], rs[i]);
    }
  }

  /** The same for the slot of a forwarded miss, as the handler fills it. */
  lemma SlotEndToEnd(
    env: Env, isBatch: bool, raw: seq<Raw>, log: seq<Logged>, i: nat, r: Res, answers: Relation) returns (n: nat, k: nat)
    requires LogOk(env, isBatch, raw, log) && Once(log)
    requires i < |raw| && Forwards(env, raw, i) && env.cached(i).None? && SlotOk(env, raw, log, i, r)
    ensures At(log, n, k, i) && log[n].group.backendGroup == env.methodGroup[raw[i].req.rpcMethod]
    ensures var c := env.call(n, log[n].group.backendGroup);
            c.rctx.Some? && HeadsFit(c.rctx.value) && log[n].outcome.Ok? ==>
              && (!Verdict(c.rctx.value, raw[i].req).Accepted() ==> Immediate(c.rctx.value, raw[i].req, r))
              && (Verdict(c.rctx.value, raw[i].req).Accepted() && HonestCall(answers, c, isBatch, ReqsOf(log[n].elems)) ==>
                    r.id == raw[i].req.id && exists q :: StandsFor(c.rctx.value, raw[i].req, q) && answers(q, r))
    ensures log[n].outcome.Fail? ==>
              r == Res(raw[i].req.id, Error(log[n].outcome.err)) && UnservedList(env, isBatch, n, log[n], log[n].outcome.err)
  {
    n, k := SlotMeaning(env, isBatch, raw, log, i, r, answers);
    var c := env.call(n, log[n].group.backendGroup);
    assert CallOk(env, isBatch, raw, n, log[n]);
    if c.rctx.Some? && HeadsFit(c.rctx.value) && log[n].outcome.Ok? {
      OnlyAnswer(log, n, k, i, r);
      ServedCall(c, c.rctx.value, isBatch, ReqsOf(log[n].elems), log[n].outcome.rs, answers, k);
    }
  }

  lemma OnlyAnswer(log: seq<Logged>, n: nat, k: nat, i: nat, r: Res)
    requires LoggedAnswer(log, i, r) && At(log, n, k, i) && forall m: nat, j: nat :: At(log, m, j, i) ==> m == n && j == k
    ensures AnsweredAs(log[n], k, r)
  {
  }

  // ---------- named methods ----------

  /** The block number is the consensus head, without asking a backend. */
  lemma BlockNumberIsHead(rctx: Rewriter.RewriteContext, req: Req, r: Res)
    requires req.rpcMethod == "eth_blockNumber"
    ensures !Verdict(rctx, req).Accepted()
    ensures Immediate(rctx, req, r) <==> r == Res(req.id, Result(rctx.latest))
  {
    OtherMethods(rctx, req.rpcMethod, req.params);
  }

  /** A height beyond the head is refused as out of range, at the block position of every method that has one. */
  lemma BeyondHeadIsRefused(rctx: Rewriter.RewriteContext, req: Req, pos: nat, n: U64, r: Res)
    requires TakesBlockAt(req.rpcMethod, pos) && req.params.Array? && pos < |req.params.elems|
    requires req.params.elems[pos] == Rewriter.Str(Rewriter.Hex(n)) && rctx.latest < n < TWO_63
    ensures !Verdict(rctx, req).Accepted()
    ensures Immediate(rctx, req, r) <==> r == Res(req.id, Error(BlockOutOfRange))
  {
    TextAboveHead(rctx, n);
    RefusedParam(rctx, req.rpcMethod, pos, req.params);
  }

  /** A filter whose bounds are heights out of order or too far apart is refused for its range. */
  lemma TooWideIsRefused(rctx: Rewriter.RewriteContext, req: Req, from: Rewriter.Json, to: Rewriter.Json, r: Res)
    requires rctx.latest < TWO_63 && 0 < rctx.maxBlockRange && LimitFits(rctx)
    requires TakesFilter(req.rpcMethod) && req.params == Rewriter.Array([Rewriter.Obj(map["fromBlock" := from, "toBlock" := to])])
    requires var lo, hi := BoundHeight(rctx, from), BoundHeight(rctx, to);
             lo.Some? && hi.Some? && !(lo.value <= hi.value <= lo.value + rctx.maxBlockRange)
    ensures !Verdict(rctx, req).Accepted()
    ensures Immediate(rctx, req, r) <==> r == Res(req.id, Error(RangeTooLarge))
  {
    var f := map["fromBlock" := from, "toBlock" := to];
    assert f["fromBlock"] == from && f["toBlock"] == to && Rewriter.NamesBound(f);
    assert req.params.elems[0].fields == f;
    RefusedFilter(rctx, req.rpcMethod, req.params);
  }
}
