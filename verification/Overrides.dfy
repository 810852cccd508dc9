/**
 Splitting a batch into the part that is forwarded and the part that is answered on the spot, and
 splicing the two back together by index.
 */
module Overrides {

  import opened Rpc
  import Rewriter

  /** What rewriting makes of one request. */
  datatype Decision = Forwarded(req: Req) | Overridden(res: Res) | Panics

  datatype IndexedRes = IndexedRes(index: nat, res: Res)

  function ErrorOf(e: Rewriter.Error): Err {
    match e
    case OutOfRange => BlockOutOfRange
    case RangeTooLarge => RangeTooLarge
    case BadParams => ParseError
  }

  function Decide(rctx: Rewriter.RewriteContext, req: Req): Decision {
    var (r, p) := Rewriter.Rewritten(rctx, req.rpcMethod, req.params);
    match r
    case RewriteOverrideError(e) => Overridden(Res(req.id, Error(ErrorOf(e))))
    case RewriteOverrideResponse(latest) => Overridden(Res(req.id, Result(latest)))
    case IndexPanic => Panics
    case _ => Forwarded(req.(params := p))
  }

  /** How a batch is decided, request by request. */
  type Decider = Req -> Decision

  function DeciderFor(rctx: Rewriter.RewriteContext): Decider {
    (req: Req) => Decide(rctx, req)
  }

  /** Responses given on the spot, and requests passed on, carry the request's own ID. */
  ghost predicate KeepsIds(decide: Decider) {
    forall req :: match decide(req)
      case Forwarded(q) => q.id == req.id
      case Overridden(r) => r.id == req.id
      case Panics => true
  }

  lemma RewritingKeepsIds(rctx: Rewriter.RewriteContext)
    ensures KeepsIds(DeciderFor(rctx))
  {
  }

  function Decisions(decide: Decider, reqs: seq<Req>): (ds: seq<Decision>)
    ensures |ds| == |reqs|
    ensures forall i :: 0 <= i < |reqs| ==> ds[i] == decide(reqs[i])
  {
    seq(|reqs|, i requires 0 <= i < |reqs| => decide(reqs[i]))
  }

  predicate NoPanic(ds: seq<Decision>) {
    forall d :: d in ds ==> !d.Panics?
  }

  /** How many of the first `i` requests are forwarded. */
  function Rank(ds: seq<Decision>, i: nat): (n: nat)
    requires i <= |ds|
    ensures n <= i
  {
    if i == 0 then 0 else Rank(ds, i - 1) + if ds[i - 1].Forwarded? then 1 else 0
  }

  lemma {:induction false} RankGrows(ds: seq<Decision>, i: nat, j: nat)
    requires i <= j <= |ds|
    ensures Rank(ds, i) <= Rank(ds, j) <= Rank(ds, i) + (j - i)
  {
    if i < j {
      RankGrows(ds, i, j - 1);
    }
  }

  /** `fs` is the forwarded subsequence: request `i`, if forwarded, stands at its rank. */
  predicate IsForwarded(ds: seq<Decision>, fs: seq<Req>) {
    && |fs| == Rank(ds, |ds|)
    && (forall i :: 0 <= i < |ds| && ds[i].Forwarded? ==> Rank(ds, i) < |fs| && fs[Rank(ds, i)] == ds[i].req)
  }

  /** `ovs` lists the overridden responses at and after `from`, in order, with their indexes. */
  predicate ListsOverrides(ds: seq<Decision>, from: nat, ovs: seq<IndexedRes>)
    requires from <= |ds|
    decreases |ds| - from
  {
    if from == |ds| then ovs == []
    else if ds[from].Overridden? then
      ovs != [] && ovs[0] == IndexedRes(from, ds[from].res) && ListsOverrides(ds, from + 1, ovs[1..])
    else ListsOverrides(ds, from + 1, ovs)
  }

  lemma {:induction false} ListsExtend(ds: seq<Decision>, from: nat, ovs: seq<IndexedRes>, d: Decision)
    requires from <= |ds| && ListsOverrides(ds, from, ovs)
    ensures ListsOverrides(ds + [d], from, if d.Overridden? then ovs + [IndexedRes(|ds|, d.res)] else ovs)
    decreases |ds| - from
  {
    if from < |ds| {
      if ds[from].Overridden? {
        ListsExtend(ds, from + 1, ovs[1..], d);
        assert d.Overridden? ==> (ovs + [IndexedRes(|ds|, d.res)])[1..] == ovs[1..] + [IndexedRes(|ds|, d.res)];
      } else {
        ListsExtend(ds, from + 1, ovs, d);
      }
    } else {
      var out := if d.Overridden? then ovs + [IndexedRes(|ds|, d.res)] else ovs;
      assert d.Overridden? ==> out[1..] == [];
    }
  }

  lemma {:induction false} RankPrefix(ds: seq<Decision>, d: Decision, i: nat)
    requires i <= |ds|
    ensures Rank(ds + [d], i) == Rank(ds, i)
  {
    if i > 0 {
      RankPrefix(ds, d, i - 1);
    }
  }

  lemma ForwardedExtend(ds: seq<Decision>, fs: seq<Req>, d: Decision)
    requires IsForwarded(ds, fs)
    ensures IsForwarded(ds + [d], if d.Forwarded? then fs + [d.req] else fs)
  {
    var es := ds + [d];
    RankPrefix(ds, d, |ds|);
    forall i | 0 <= i < |es| && es[i].Forwarded?
      ensures Rank(es, i) < Rank(es, |es|)
      ensures i < |ds| ==> Rank(es, i) == Rank(ds, i)
    {
      RankPrefix(ds, d, i);
      RankGrows(es, i + 1, |es|);
    }
  }

  /** The two parts a batch is split into. */
  predicate Splits(ds: seq<Decision>, fs: seq<Req>, ovs: seq<IndexedRes>) {
    NoPanic(ds) && IsForwarded(ds, fs) && ListsOverrides(ds, 0, ovs)
  }

  lemma SplitExtend(ds: seq<Decision>, fs: seq<Req>, ovs: seq<IndexedRes>, d: Decision)
    requires Splits(ds, fs, ovs) && !d.Panics?
    ensures d.Forwarded? ==> Splits(ds + [d], fs + [d.req], ovs)
    ensures d.Overridden? ==> Splits(ds + [d], fs, ovs + [IndexedRes(|ds|, d.res)])
  {
    ForwardedExtend(ds, fs, d);
    ListsExtend(ds, 0, ovs, d);
  }

  /** The split. A rewrite that indexes an empty parameter list takes the whole batch down. */
  method OverwriteConsensusResponses(decide: Decider, reqs: seq<Req>)
    returns (rewritten: seq<Req>, overridden: seq<IndexedRes>, panicked: bool)
    ensures panicked <==> !NoPanic(Decisions(decide, reqs))
    ensures !panicked ==> Splits(Decisions(decide, reqs), rewritten, overridden)
  {
    rewritten, overridden, panicked := [], [], false;
    ghost var ds := [];
    for i := 0 to |reqs|
      invariant !panicked && ds == Decisions(decide, reqs[..i])
      invariant Splits(ds, rewritten, overridden)
    {
      var d := decide(reqs[i]);
      match d {
        case Overridden(res) =>
          SplitExtend(ds, rewritten, overridden, d);
          overridden := overridden + [IndexedRes(i, res)];
        case Forwarded(req) =>
          SplitExtend(ds, rewritten, overridden, d);
          rewritten := rewritten + [req];
        case Panics =>
          panicked := true;
          assert Decisions(decide, reqs)[i] == d;
          return;
      }
      ds := ds + [d];
      assert ds == Decisions(decide, reqs[..i + 1]);
    }
    assert reqs[..|reqs|] == reqs;
  }

  /** Position `i` of the answer: the override, or the response to the forwarded request. */
  predicate Placed(ds: seq<Decision>, res: seq<Res>, i: nat, r: Res)
    requires i < |ds|
  {
    match ds[i]
    case Overridden(ov) => r == ov
    case Forwarded(_) => Rank(ds, i) < |res| && r == res[Rank(ds, i)]
    case Panics => false
  }

  /** Skip over forwarded requests to the next override, if any. */
  lemma {:induction false} NextOverride(ds: seq<Decision>, from: nat, ovs: seq<IndexedRes>) returns (at: nat)
    requires from <= |ds| && ListsOverrides(ds, from, ovs) && NoPanic(ds)
    ensures from <= at <= |ds| && forall i :: from <= i < at ==> ds[i].Forwarded?
    ensures Rank(ds, at) == Rank(ds, from) + (at - from)
    ensures at == |ds| <==> ovs == []
    ensures ovs != [] ==> ds[at].Overridden? && ovs[0] == IndexedRes(at, ds[at].res) && ListsOverrides(ds, at + 1, ovs[1..])
    decreases |ds| - from
  {
    if from == |ds| || ds[from].Overridden? {
      at := from;
    } else {
      assert ds[from] in ds;
      at := NextOverride(ds, from + 1, ovs);
    }
  }

  lemma {:induction false} RankOfRun(ds: seq<Decision>, from: nat, at: nat, i: nat)
    requires from <= i <= at <= |ds| && forall k :: from <= k < at ==> ds[k].Forwarded?
    ensures Rank(ds, i) == Rank(ds, from) + (i - from)
  {
    if from < i {
      RankOfRun(ds, from, at, i - 1);
    }
  }

  /** `k` overrides are in place, `done` positions are final, and the tail is still the raw responses. */
  predicate Spliced(ds: seq<Decision>, res: seq<Res>, k: nat, done: nat, out: seq<Res>) {
    && done <= |ds| && done == Rank(ds, done) + k
    && done <= |out| == |res| + k
    && (forall i :: 0 <= i < done ==> Placed(ds, res, i, out[i]))
    && (forall j :: done <= j < |out| ==> out[j] == res[j - k])
  }

  /** A run of forwarded requests is final as it stands. */
  lemma SplicedRun(ds: seq<Decision>, res: seq<Res>, k: nat, done: nat, out: seq<Res>, at: nat)
    requires Spliced(ds, res, k, done, out) && |res| == Rank(ds, |ds|)
    requires done <= at <= |ds| && forall i :: done <= i < at ==> ds[i].Forwarded?
    ensures Spliced(ds, res, k, at, out)
  {
    RankOfRun(ds, done, at, at);
    RankGrows(ds, at, |ds|);
    forall i | done <= i < at ensures Placed(ds, res, i, out[i]) {
      RankOfRun(ds, done, at, i);
    }
  }

  lemma SplicedInsert(ds: seq<Decision>, res: seq<Res>, k: nat, at: nat, out: seq<Res>, out': seq<Res>)
    requires Spliced(ds, res, k, at, out) && |res| == Rank(ds, |ds|)
    requires at < |ds| && ds[at].Overridden?
    requires out' == out[..at] + [ds[at].res] + out[at..]
    ensures Spliced(ds, res, k + 1, at + 1, out')
  {
    forall i | 0 <= i < at + 1 ensures Placed(ds, res, i, out'[i]) {
      assert i < at ==> Placed(ds, res, i, out[i]);
    }
  }

  /** The splice undoes the split: every insertion is in bounds and every response lands on its request. */
  method OverrideResponses(res: seq<Res>, overridden: seq<IndexedRes>, ghost ds: seq<Decision>) returns (out: seq<Res>)
    requires NoPanic(ds) && ListsOverrides(ds, 0, overridden)
    requires |res| == Rank(ds, |ds|)
    ensures |out| == |ds|
    ensures forall i :: 0 <= i < |ds| ==> Placed(ds, res, i, out[i])
  {
    out := res;
    ghost var done: nat := 0;
    for k := 0 to |overridden|
      invariant Spliced(ds, res, k, done, out)
      invariant ListsOverrides(ds, done, overridden[k..])
    {
      var ov := overridden[k];
      ghost var before := out;
      ghost var at := NextOverride(ds, done, overridden[k..]);
      assert overridden[k..][1..] == overridden[k + 1..];
      SplicedRun(ds, res, k, done, out, at);
      if |out| > 0 {
        out := out[..ov.index] + [ov.res] + out[ov.index..];
      } else {
        out := out + [ov.res];
      }
      assert out == before[..at] + [ds[at].res] + before[at..];
      SplicedInsert(ds, res, k, at, before, out);
      done := at + 1;
    }
    assert overridden[|overridden|..] == [];
    ghost var at := NextOverride(ds, done, []);
    SplicedRun(ds, res, |overridden|, done, out, at);
  }
}
