/**
 The rewriter method by method: which parameter of which method names a block, what an accepted
 request names there on every backend, what is refused and why, and what passes untouched.
 */
module RewriterMethods {

  import opened Words
  import opened Rewriter
  import opened RewriterMeaning

  // ---------- what a block reference says ----------

  /** What each text names under a view of the heads. */
  lemma TextNames(v: View, n: U64, h: nat, g: nat)
    ensures Names(v, Str(Latest)) == Some(AtHeight(v.latest))
    ensures Names(v, Str(Safe)) == Some(AtHeight(v.safe))
    ensures Names(v, Str(Finalized)) == Some(AtHeight(v.finalized))
    ensures Names(v, Str(Earliest)) == Some(AtHeight(0))
    ensures Names(v, Str(Pending)) == Some(PendingBlock)
    ensures Names(v, Str(Hex(n))) == if n < TWO_63 then Some(AtHeight(n)) else None
    ensures Names(v, Str(HashText(h))) == Some(WithHash(h))
    ensures Names(v, Str(Blank)) == None && Names(v, Str(Garbage(g))) == None
  {
  }

  /** An EIP-1898 object names what its number or its hash names. */
  lemma ObjectNames(v: View, t: Text, h: nat, canonical: bool)
    requires !t.HashText?
    ensures Names(v, Obj(map["blockNumber" := Str(t)])) == Names(v, Str(t))
    ensures Names(v, Obj(map["blockHash" := Str(HashText(h)), "requireCanonical" := Bool(canonical)])) == Some(WithHash(h))
    ensures Names(v, Obj(map["blockNumber" := Str(t), "blockHash" := Str(HashText(h))])) == None
  {
    var number := map["blockNumber" := Str(t)];
    var hash := map["blockHash" := Str(HashText(h)), "requireCanonical" := Bool(canonical)];
    var both := map["blockNumber" := Str(t), "blockHash" := Str(HashText(h))];
    assert "blockHash" !in number && "requireCanonical" !in number && number["blockNumber"] == Str(t);
    assert "blockNumber" !in hash && hash["blockHash"] == Str(HashText(h)) && hash["requireCanonical"] == Bool(canonical);
    assert both["blockNumber"] == Str(t) && both["blockHash"] == Str(HashText(h));
  }

  // ---------- which methods name a block where ----------

  predicate TakesBlockAt(m: string, pos: nat) {
    || (pos == 0 && (m == "debug_getRawReceipts" || m == "consensus_getReceipts"
                     || m == "eth_getBlockTransactionCountByNumber" || m == "eth_getUncleCountByBlockNumber"
                     || m == "eth_getBlockByNumber" || m == "eth_getTransactionByBlockNumberAndIndex"
                     || m == "eth_getUncleByBlockNumberAndIndex"))
    || (pos == 1 && (m == "eth_getBalance" || m == "eth_getCode" || m == "eth_getTransactionCount" || m == "eth_call"))
    || (pos == 2 && (m == "eth_getStorageAt" || m == "eth_getProof"))
  }

  /** The block may not be left out. */
  predicate MustName(m: string) {
    m == "debug_getRawReceipts" || m == "consensus_getReceipts"
  }

  predicate TakesFilter(m: string) {
    m == "eth_getLogs" || m == "eth_newFilter"
  }

  lemma RuleOfBlockMethod(m: string, pos: nat)
    requires TakesBlockAt(m, pos)
    ensures RuleFor(m) == ParamRule(pos, MustName(m), pos > 0) && m != "eth_blockNumber"
  {
  }

  lemma RuleOfFilterMethod(m: string)
    requires TakesFilter(m)
    ensures RuleFor(m) == RangeRule && m != "eth_blockNumber"
  {
  }

  /** Every other method passes untouched, and the block number is answered with the consensus head. */
  lemma OtherMethods(rctx: RewriteContext, m: string, p: Params)
    ensures m == "eth_blockNumber" ==> Rewritten(rctx, m, p) == (RewriteOverrideResponse(rctx.latest), p)
    ensures m != "eth_blockNumber" && !TakesFilter(m) && !TakesBlockAt(m, 0) && !TakesBlockAt(m, 1) && !TakesBlockAt(m, 2) ==>
              Rewritten(rctx, m, p) == (RewriteNone, p)
  {
    if m != "eth_blockNumber" && !TakesFilter(m) && !TakesBlockAt(m, 0) && !TakesBlockAt(m, 1) && !TakesBlockAt(m, 2) {
      assert RuleFor(m) == NoRule;
    }
  }

  // ---------- accepted requests ----------

  /**
   An accepted request of a method that names a block at `pos` names there, on every backend, the
   block it named for the consensus; the consensus latest if the block was left out; and all other
   parameters are as they were.
   */
  lemma AcceptedParam(rctx: RewriteContext, m: string, pos: nat, p: Params, v: View)
    requires HeadsFit(rctx) && TakesBlockAt(m, pos) && Rewritten(rctx, m, p).0.Accepted()
    ensures var was, now := Elems(p), Elems(Rewritten(rctx, m, p).1);
            if pos < |was| then
              && |now| == |was|
              && Names(v, now[pos]) == Names(View(rctx.latest, rctx.safe, rctx.finalized), was[pos])
              && (forall i :: 0 <= i < |was| && i != pos ==> now[i] == was[i])
            else if pos == |was| && !MustName(m) then
              |now| == pos + 1 && Names(v, now[pos]) == Some(AtHeight(rctx.latest)) && now[..pos] == was
            else Rewritten(rctx, m, p) == (RewriteNone, p)
  {
    RuleOfBlockMethod(m, pos);
    var rule := RuleFor(m);
    RequestKeepsMeaning(rctx, m, p, v);
    if pos == |Elems(p)| && !MustName(m) {
      assert Defaulted(p, rule) == Elems(p) + [Str(Latest)];
      var q := Rewritten(rctx, m, p).1;
      assert ParamMeans(rctx, p, q, rule, v);
    }
  }

  /** A bound of a filter on every backend: what it named for the consensus, or the consensus latest if only the other was named. */
  predicate BoundNames(rctx: RewriteContext, f: map<string, Json>, f': map<string, Json>, key: string, v: View) {
    && key in f'
    && Names(v, f'[key]) ==
       if key in f then Names(View(rctx.latest, rctx.safe, rctx.finalized), f[key]) else Some(AtHeight(rctx.latest))
  }

  /** An accepted filter, if it names a bound, has both bounds pinned; everything else in it is as it was. */
  lemma AcceptedFilter(rctx: RewriteContext, m: string, p: Params, v: View)
    requires HeadsFit(rctx) && TakesFilter(m) && Rewritten(rctx, m, p).0.Accepted()
    ensures var q := Rewritten(rctx, m, p).1;
            && p.Array? && q.Array? && p.elems != [] && |q.elems| == |p.elems| && q.elems[1..] == p.elems[1..]
            && (p.elems[0].Null? ==> q == p)
            && (p.elems[0].Obj? ==>
                  && q.elems[0].Obj?
                  && var f, f' := p.elems[0].fields, q.elems[0].fields;
                     if "fromBlock" in f || "toBlock" in f then
                       && BoundNames(rctx, f, f', "fromBlock", v) && BoundNames(rctx, f, f', "toBlock", v)
                       && f'.Keys == f.Keys + {"fromBlock", "toBlock"}
                       && (forall k :: k in f && k != "fromBlock" && k != "toBlock" ==> f'[k] == f[k])
                     else f' == f)
  {
    RuleOfFilterMethod(m);
    RequestKeepsMeaning(rctx, m, p, v);
    if p.elems[0].Obj? {
      var f, f' := p.elems[0].fields, Rewritten(rctx, m, p).1.elems[0].fields;
      assert FilterMeans(rctx, f, f', v);
      if NamesBound(f) {
        assert WithDefaults(f).Keys == f.Keys + {FROM, TO};
      }
    }
  }

  // ---------- refused requests ----------

  /** The reference says a height above the head. */
  predicate AboveHead(rctx: RewriteContext, j: Json) {
    ParseRef(j).Some? && ParseRef(j).value.number.Some? && rctx.latest < ParseRef(j).value.number.value
  }

  lemma TextAboveHead(rctx: RewriteContext, n: U64)
    requires n < TWO_63
    ensures AboveHead(rctx, Str(Hex(n))) <==> rctx.latest < n
    ensures AboveHead(rctx, Obj(map["blockNumber" := Str(Hex(n))])) <==> rctx.latest < n
  {
    var fields := map["blockNumber" := Str(Hex(n))];
    assert "blockHash" !in fields && "requireCanonical" !in fields && fields["blockNumber"] == Str(Hex(n));
  }

  /** What is refused at a block position: a height beyond the head, and what is no block reference there. */
  lemma RefusedParam(rctx: RewriteContext, m: string, pos: nat, p: Params)
    requires rctx.latest < TWO_63 && TakesBlockAt(m, pos) && p.Array? && pos < |p.elems|
    ensures var r, j := Rewritten(rctx, m, p).0, p.elems[pos];
            && (r == RewriteOverrideError(BadParams) <==> ParseRef(j).None? || (pos == 0 && !j.Str?))
            && (r == RewriteOverrideError(OutOfRange) <==> (pos == 0 ==> j.Str?) && AboveHead(rctx, j))
            && (r.Accepted() || r == RewriteOverrideError(BadParams) || r == RewriteOverrideError(OutOfRange))
  {
    RuleOfBlockMethod(m, pos);
    ValueErrors(rctx, p.elems[pos], pos > 0);
    assert Defaulted(p, RuleFor(m)) == p.elems;
  }

  lemma ValueErrors(rctx: RewriteContext, j: Json, blockNrOrHash: bool)
    requires rctx.latest < TWO_63
    ensures var rw := RewriteValue(rctx, j, blockNrOrHash);
            && (rw == Reject(BadParams) <==> ParseRef(j).None? || (!blockNrOrHash && !j.Str?))
            && (rw == Reject(OutOfRange) <==> (!blockNrOrHash ==> j.Str?) && AboveHead(rctx, j))
            && rw != Reject(RangeTooLarge)
  {
  }

  predicate Malformed(j: Json) {
    !j.Null? && (!j.Str? || (!j.t.Blank? && !j.t.HashText? && ParseNumber(j.t).None?))
  }

  predicate BeyondHead(rctx: RewriteContext, j: Json) {
    j.Str? && j.t.Hex? && rctx.latest < j.t.n < TWO_63
  }

  /** A filter that names a bound: refused for a height beyond the head, or for its range, or as malformed. */
  lemma RefusedFilter(rctx: RewriteContext, m: string, p: Params)
    requires rctx.latest < TWO_63 && 0 < rctx.maxBlockRange && LimitFits(rctx)
    requires TakesFilter(m) && IsFilterList(p) && p.elems != [] && p.elems[0].Obj? && NamesBound(p.elems[0].fields)
    ensures var r, f := Rewritten(rctx, m, p).0, p.elems[0].fields;
            var from := if "fromBlock" in f then f["fromBlock"] else Str(Latest);
            var to := if "toBlock" in f then f["toBlock"] else Str(Latest);
            var lo, hi := BoundHeight(rctx, from), BoundHeight(rctx, to);
            && (r.Accepted() <==> lo.Some? && hi.Some? && lo.value <= hi.value && hi.value - lo.value <= rctx.maxBlockRange)
            && (r == RewriteOverrideError(RangeTooLarge) <==>
                  lo.Some? && hi.Some? && !(lo.value <= hi.value && hi.value - lo.value <= rctx.maxBlockRange))
            && (r == RewriteOverrideError(OutOfRange) <==>
                  BeyondHead(rctx, from) || (!Malformed(from) && BeyondHead(rctx, to)))
  {
    RuleOfFilterMethod(m);
    var f := p.elems[0].fields;
    FilterAcceptedIffInRange(rctx, f);
    FilterErrors(rctx, f);
  }

  /** Without a limit, a filter is accepted iff neither bound is malformed or beyond the head. */
  lemma FilterWithoutLimit(rctx: RewriteContext, m: string, p: Params)
    requires rctx.latest < TWO_63 && rctx.maxBlockRange == 0
    requires TakesFilter(m) && IsFilterList(p) && p.elems != [] && p.elems[0].Obj?
    ensures var f := p.elems[0].fields;
            Rewritten(rctx, m, p).0.Accepted() <==>
            forall key :: key in f && (key == "fromBlock" || key == "toBlock") ==> !Malformed(f[key]) && !BeyondHead(rctx, f[key])
  {
    RuleOfFilterMethod(m);
    var f := p.elems[0].fields;
    var d := WithDefaults(f);
    var from := RewriteBound(rctx, d, FROM);
    if NamesBound(f) {
      BoundErrors(rctx, d, FROM);
      if !from.Reject? {
        BoundErrors(rctx, Apply(d, FROM, from), TO);
        assert Apply(d, FROM, from)[TO] == d[TO];
      }
      assert !Malformed(Str(Latest)) && !BeyondHead(rctx, Str(Latest));
      assert (forall key :: key in f && (key == "fromBlock" || key == "toBlock") ==> !Malformed(f[key]) && !BeyondHead(rctx, f[key]))
        <==> !Malformed(d[FROM]) && !BeyondHead(rctx, d[FROM]) && !Malformed(d[TO]) && !BeyondHead(rctx, d[TO]);
    }
  }

  lemma FilterErrors(rctx: RewriteContext, f: Fields)
    requires rctx.latest < TWO_63 && 0 < rctx.maxBlockRange && NamesBound(f)
    ensures var r, d := RewrittenFilter(rctx, f).0, WithDefaults(f);
            var lo, hi := BoundHeight(rctx, d[FROM]), BoundHeight(rctx, d[TO]);
            && (r.Accepted() || r == RewriteOverrideError(RangeTooLarge) <==> lo.Some? && hi.Some?)
            && (r == RewriteOverrideError(OutOfRange) <==>
                  BeyondHead(rctx, d[FROM]) || (!Malformed(d[FROM]) && BeyondHead(rctx, d[TO])))
  {
    var d := WithDefaults(f);
    var from := RewriteBound(rctx, d, FROM);
    BoundMatchesHeight(rctx, d, FROM);
    BoundErrors(rctx, d, FROM);
    if !from.Reject? {
      var d1 := Apply(d, FROM, from);
      assert d1[TO] == d[TO];
      BoundMatchesHeight(rctx, d1, TO);
      BoundErrors(rctx, d1, TO);
      var to := RewriteBound(rctx, d1, TO);
      if !to.Reject? {
        assert Apply(d1, TO, to)[FROM] == d1[FROM];
      }
    }
  }

  lemma BoundErrors(rctx: RewriteContext, f: Fields, key: string)
    requires rctx.latest < TWO_63 && key in f
    ensures RewriteBound(rctx, f, key) == Reject(OutOfRange) <==> BeyondHead(rctx, f[key])
    ensures RewriteBound(rctx, f, key) == Reject(BadParams) <==> Malformed(f[key])
    ensures RewriteBound(rctx, f, key) != Reject(RangeTooLarge)
  {
  }
}
