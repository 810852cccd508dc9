/**
 What rewriting means: a block reference names a block under some view of the chain heads, and a
 rewritten request names, on every backend, the block the original names under the consensus view.
 */
module RewriterMeaning {

  import opened Words
  import opened Rewriter

  /** The heads a node resolves tags against. */
  datatype View = View(latest: U64, safe: U64, finalized: U64)

  datatype Block = AtHeight(n: int) | WithHash(h: nat) | PendingBlock

  function NamedNumber(v: View, n: int): Option<Block> {
    if n == PENDING_NUMBER then Some(PendingBlock)
    else if n == LATEST_NUMBER then Some(AtHeight(v.latest))
    else if n == SAFE_NUMBER then Some(AtHeight(v.safe))
    else if n == FINALIZED_NUMBER then Some(AtHeight(v.finalized))
    else if n >= 0 then Some(AtHeight(n))
    else None
  }

  /** The block a parameter names under a view, if it names one. */
  function Names(v: View, j: Json): Option<Block> {
    match ParseRef(j)
    case None => None
    case Some(ref) =>
      if ref.number.Some? then NamedNumber(v, ref.number.value)
      else if ref.hash.Some? then Some(WithHash(ref.hash.value))
      else None
  }

  function ConsensusView(rctx: RewriteContext): View {
    View(rctx.latest, rctx.safe, rctx.finalized)
  }

  predicate HeadsFit(rctx: RewriteContext) {
    rctx.latest < TWO_63 && rctx.safe < TWO_63 && rctx.finalized < TWO_63
  }

  // ---------- one value ----------

  lemma NumberObjectNames(v: View, n: int)
    requires 0 <= n < TWO_63
    ensures Names(v, NumberObject(n)) == Some(AtHeight(n))
  {
    var fields := NumberObject(n).fields;
    assert fields["blockNumber"] == Str(NumberText(n));
  }

  lemma RewriteValueKeepsMeaning(rctx: RewriteContext, j: Json, blockNrOrHash: bool, v: View)
    requires HeadsFit(rctx)
    ensures var rw := RewriteValue(rctx, j, blockNrOrHash);
            && (rw.Keep? ==> Names(v, j) == Names(ConsensusView(rctx), j))
            && (rw.Replace? ==> Names(v, rw.val) == Names(ConsensusView(rctx), j))
  {
    NumberObjectNames(v, rctx.latest);
    NumberObjectNames(v, rctx.safe);
    NumberObjectNames(v, rctx.finalized);
  }

  /** A string and its parsed form get the same verdict, and replacements that name the same block. */
  predicate SameOutcome(rctx: RewriteContext, t: Text, v: View)
    requires ParseRef(Str(t)).Some?
  {
    match (RewriteTag(rctx, t), RewriteRef(rctx, ParseRef(Str(t)).value))
    case (Keep, Keep) => true
    case (Reject(e), Reject(f)) => e == f
    case (Replace(s), Replace(j)) => Names(v, Str(s)) == Names(v, j)
    case _ => false
  }

  /** A head this large turns into a tag when converted to int64. */
  predicate BecomesTag(u: U64) {
    SAFE_NUMBER <= ToInt64(u) <= PENDING_NUMBER
  }

  lemma NumberObjectMatchesHex(u: U64, v: View)
    ensures !BecomesTag(u) ==> Names(v, NumberObject(ToInt64(u))) == Names(v, Str(Hex(u)))
    ensures BecomesTag(u) ==> Names(v, NumberObject(ToInt64(u))) != Names(v, Str(Hex(u)))
  {
    var fields := NumberObject(ToInt64(u)).fields;
    assert fields["blockNumber"] == Str(NumberText(ToInt64(u)));
  }

  ghost predicate PathsAgree(rctx: RewriteContext) {
    forall t: Text, v: View :: ParseRef(Str(t)).Some? ==> SameOutcome(rctx, t, v)
  }

  lemma SameOutcomeWithoutTags(rctx: RewriteContext, t: Text, v: View)
    requires ParseRef(Str(t)).Some?
    requires !BecomesTag(rctx.latest) && !BecomesTag(rctx.safe) && !BecomesTag(rctx.finalized)
    ensures SameOutcome(rctx, t, v)
  {
    NumberObjectMatchesHex(rctx.latest, v);
    NumberObjectMatchesHex(rctx.safe, v);
    NumberObjectMatchesHex(rctx.finalized, v);
  }

  lemma TagHeadDisagrees(rctx: RewriteContext, t: Text, head: U64, v: View)
    requires RewriteTag(rctx, t) == Replace(Hex(head)) && BecomesTag(head)
    requires ParseRef(Str(t)).Some?
    requires RewriteRef(rctx, ParseRef(Str(t)).value) == Replace(NumberObject(ToInt64(head)))
    ensures !PathsAgree(rctx)
  {
    NumberObjectMatchesHex(head, v);
    assert !SameOutcome(rctx, t, v);
  }

  /** The string path and the object path agree iff no head is one of the four largest words. */
  lemma PathsAgreeIff(rctx: RewriteContext)
    ensures PathsAgree(rctx) <==> !BecomesTag(rctx.latest) && !BecomesTag(rctx.safe) && !BecomesTag(rctx.finalized)
  {
    var v := View(0, 0, 0);
    if BecomesTag(rctx.latest) {
      TagHeadDisagrees(rctx, Latest, rctx.latest, v);
    } else if BecomesTag(rctx.safe) {
      TagHeadDisagrees(rctx, Safe, rctx.safe, v);
    } else if BecomesTag(rctx.finalized) {
      TagHeadDisagrees(rctx, Finalized, rctx.finalized, v);
    } else {
      forall t: Text, w: View | ParseRef(Str(t)).Some? ensures SameOutcome(rctx, t, w) {
        SameOutcomeWithoutTags(rctx, t, w);
      }
    }
  }

  // ---------- whole requests ----------

  /** `q` is `p` (block filled in by default) with position `rule.pos` naming, for `v`, what `p` names for the consensus. */
  ghost predicate ParamMeans(rctx: RewriteContext, p: Params, q: Params, rule: Rule, v: View)
    requires rule.ParamRule?
  {
    var was, now := Defaulted(p, rule), Elems(q);
    if |was| <= rule.pos then q == p
    else
      && |now| == |was|
      && Names(v, now[rule.pos]) == Names(ConsensusView(rctx), was[rule.pos])
      && (forall i :: 0 <= i < |was| && i != rule.pos ==> now[i] == was[i])
  }

  /** A filter's bounds name, for `v`, what they name for the consensus; the rest of the filter is as it was. */
  ghost predicate FilterMeans(rctx: RewriteContext, m: Fields, m': Fields, v: View) {
    if !NamesBound(m) then m' == m
    else
      var d := WithDefaults(m);
      && m'.Keys == d.Keys
      && Names(v, m'[FROM]) == Names(ConsensusView(rctx), d[FROM])
      && Names(v, m'[TO]) == Names(ConsensusView(rctx), d[TO])
      && (forall k :: k in m && k != FROM && k != TO ==> m'[k] == m[k])
  }

  ghost predicate RangeMeans(rctx: RewriteContext, p: Params, q: Params, v: View) {
    && p.Array? && q.Array? && |p.elems| == |q.elems| && p.elems != []
    && p.elems[1..] == q.elems[1..]
    && (p.elems[0].Obj? ==> q.elems[0].Obj? && FilterMeans(rctx, p.elems[0].fields, q.elems[0].fields, v))
    && (!p.elems[0].Obj? ==> q == p)
  }

  ghost predicate Means(rctx: RewriteContext, m: string, p: Params, q: Params, v: View) {
    match RuleFor(m)
    case NoRule => q == p
    case RangeRule => RangeMeans(rctx, p, q, v)
    case ParamRule(_, _, _) => ParamMeans(rctx, p, q, RuleFor(m), v)
  }

  lemma ParamKeepsMeaning(rctx: RewriteContext, p: Params, rule: Rule, v: View)
    requires HeadsFit(rctx) && rule.ParamRule?
    requires RewrittenParam(rctx, p, rule).0.Accepted()
    ensures ParamMeans(rctx, p, RewrittenParam(rctx, p, rule).1, rule, v)
  {
    var q := Defaulted(p, rule);
    if rule.pos < |q| {
      RewriteValueKeepsMeaning(rctx, q[rule.pos], rule.blockNrOrHash, v);
      if |Elems(p)| == rule.pos {
        assert RewriteValue(rctx, Str(Latest), rule.blockNrOrHash).Replace?;
      }
    }
  }

  lemma BoundKeepsMeaning(rctx: RewriteContext, m: Fields, key: string, v: View)
    requires HeadsFit(rctx) && key in m && !RewriteBound(rctx, m, key).Reject?
    ensures Names(v, Apply(m, key, RewriteBound(rctx, m, key))[key]) == Names(ConsensusView(rctx), m[key])
  {
    if m[key].Str? {
      RewriteValueKeepsMeaning(rctx, m[key], false, v);
    } else {
      assert m[key].Null?;
    }
  }

  lemma FilterKeepsMeaning(rctx: RewriteContext, m: Fields, v: View)
    requires HeadsFit(rctx) && RewrittenFilter(rctx, m).0.Accepted()
    ensures FilterMeans(rctx, m, RewrittenFilter(rctx, m).1, v)
  {
    if NamesBound(m) {
      var d := WithDefaults(m);
      var from := RewriteBound(rctx, d, FROM);
      BoundKeepsMeaning(rctx, d, FROM, v);
      BoundKeepsMeaning(rctx, Apply(d, FROM, from), TO, v);
      assert RewriteTag(rctx, Latest).Replace?;
    }
  }

  lemma RequestKeepsMeaning(rctx: RewriteContext, m: string, p: Params, v: View)
    requires HeadsFit(rctx) && Rewritten(rctx, m, p).0.Accepted()
    ensures Means(rctx, m, p, Rewritten(rctx, m, p).1, v)
  {
    match RuleFor(m)
    case NoRule =>
    case RangeRule =>
      if p.Array? && p.elems != [] && p.elems[0].Obj? {
        FilterKeepsMeaning(rctx, p.elems[0].fields, v);
      }
    case ParamRule(_, _, _) =>
      ParamKeepsMeaning(rctx, p, RuleFor(m), v);
  }

  ghost predicate MeaningPreserved(rctx: RewriteContext) {
    forall m: string, p: Params, v: View :: Rewritten(rctx, m, p).0.Accepted() ==> Means(rctx, m, p, Rewritten(rctx, m, p).1, v)
  }

  /** `eth_getBlockByNumber` for one tag: the smallest request that shows a head that does not fit. */
  lemma TagRequest(rctx: RewriteContext, t: Text, head: U64)
    requires RewriteTag(rctx, t) == Replace(Hex(head))
    ensures Rewritten(rctx, "eth_getBlockByNumber", Array([Str(t)])) == (RewriteOverrideRequest, Array([Str(Hex(head))]))
  {
    assert RuleFor("eth_getBlockByNumber") == ParamRule(0, false, false);
    assert [Str(t)][0 := Str(Hex(head))] == [Str(Hex(head))];
  }

  lemma TooHighHeadLosesMeaning(rctx: RewriteContext, t: Text, head: U64, v: View)
    requires RewriteTag(rctx, t) == Replace(Hex(head)) && TWO_63 <= head
    requires Names(ConsensusView(rctx), Str(t)) == Some(AtHeight(head))
    ensures !MeaningPreserved(rctx)
  {
    TagRequest(rctx, t, head);
    var m, p := "eth_getBlockByNumber", Array([Str(t)]);
    assert RuleFor(m) == ParamRule(0, false, false);
    assert Names(v, Str(Hex(head))) == None;
    assert !Means(rctx, m, p, Rewritten(rctx, m, p).1, v);
  }

  /** Every accepted request keeps its meaning on every backend iff the heads fit in an int64. */
  lemma MeaningPreservedIff(rctx: RewriteContext)
    ensures MeaningPreserved(rctx) <==> HeadsFit(rctx)
  {
    if HeadsFit(rctx) {
      forall m: string, p: Params, v: View | Rewritten(rctx, m, p).0.Accepted()
        ensures Means(rctx, m, p, Rewritten(rctx, m, p).1, v)
      {
        RequestKeepsMeaning(rctx, m, p, v);
      }
    } else {
      var v := View(0, 0, 0);
      if TWO_63 <= rctx.latest {
        TooHighHeadLosesMeaning(rctx, Latest, rctx.latest, v);
      } else if TWO_63 <= rctx.safe {
        TooHighHeadLosesMeaning(rctx, Safe, rctx.safe, v);
      } else {
        TooHighHeadLosesMeaning(rctx, Finalized, rctx.finalized, v);
      }
    }
  }

  /** A filter that names neither bound passes through untouched. */
  lemma UnboundedFilterUntouched(rctx: RewriteContext, p: Params)
    requires IsFilterList(p) && p.elems != []
    requires p.elems[0].Obj? ==> !NamesBound(p.elems[0].fields)
    ensures RewrittenRange(rctx, p) == (RewriteNone, p)
  {
  }

  // ---------- idempotence ----------

  predicate HeadsOrdered(rctx: RewriteContext) {
    rctx.latest < TWO_63 && rctx.safe <= rctx.latest && rctx.finalized <= rctx.latest
  }

  /** Rewriting `p` a second time does nothing. */
  predicate Settles(rctx: RewriteContext, m: string, p: Params) {
    var (r, q) := Rewritten(rctx, m, p);
    r.Accepted() ==> Rewritten(rctx, m, q) == (RewriteNone, q)
  }

  lemma ReplacedValueIsKept(rctx: RewriteContext, j: Json, blockNrOrHash: bool)
    requires HeadsOrdered(rctx) && RewriteValue(rctx, j, blockNrOrHash).Replace?
    ensures RewriteValue(rctx, RewriteValue(rctx, j, blockNrOrHash).val, blockNrOrHash) == Keep
  {
    if blockNrOrHash {
      NumberObjectRef(rctx.latest);
      NumberObjectRef(rctx.safe);
      NumberObjectRef(rctx.finalized);
    }
  }

  lemma NumberObjectRef(n: int)
    requires 0 <= n < TWO_63
    ensures ParseRef(NumberObject(n)) == Some(BlockRef(Some(n), None, false))
  {
    var fields := NumberObject(n).fields;
    assert fields["blockNumber"] == Str(NumberText(n));
  }

  lemma ParamSettles(rctx: RewriteContext, p: Params, rule: Rule)
    requires HeadsOrdered(rctx) && rule.ParamRule?
    requires RewrittenParam(rctx, p, rule).0.RewriteOverrideRequest?
    ensures var q := RewrittenParam(rctx, p, rule).1;
            RewrittenParam(rctx, q, rule) == (RewriteNone, q)
  {
    ReplacedValueIsKept(rctx, Defaulted(p, rule)[rule.pos], rule.blockNrOrHash);
  }

  lemma ReplacedTagIsKept(rctx: RewriteContext, t: Text)
    requires HeadsOrdered(rctx) && RewriteTag(rctx, t).Replace?
    ensures RewriteTag(rctx, RewriteTag(rctx, t).val) == Keep
  {
  }

  lemma BoundSettles(rctx: RewriteContext, m: Fields, key: string)
    requires HeadsOrdered(rctx) && !RewriteBound(rctx, m, key).Reject?
    ensures RewriteBound(rctx, Apply(m, key, RewriteBound(rctx, m, key)), key) == Keep
  {
    if RewriteBound(rctx, m, key).Replace? {
      ReplacedTagIsKept(rctx, m[key].t);
    }
  }

  lemma FilterSettles(rctx: RewriteContext, m: Fields)
    requires HeadsOrdered(rctx) && RewrittenFilter(rctx, m).0.RewriteOverrideRequest?
    ensures var m' := RewrittenFilter(rctx, m).1;
            RewrittenFilter(rctx, m') == (RewriteNone, m')
  {
    var d := WithDefaults(m);
    var from := RewriteBound(rctx, d, FROM);
    var m1 := Apply(d, FROM, from);
    var to := RewriteBound(rctx, m1, TO);
    var m2 := Apply(m1, TO, to);
    BoundSettles(rctx, d, FROM);
    BoundSettles(rctx, m1, TO);
    assert RewriteBound(rctx, m2, FROM) == RewriteBound(rctx, m1, FROM);
    assert FROM in m2 && TO in m2 && WithDefaults(m2) == m2;
  }

  lemma RequestSettles(rctx: RewriteContext, m: string, p: Params)
    requires HeadsOrdered(rctx)
    ensures Settles(rctx, m, p)
  {
    if Rewritten(rctx, m, p).0.RewriteOverrideRequest? {
      match RuleFor(m)
      case RangeRule =>
        FilterSettles(rctx, p.elems[0].fields);
        var q := Rewritten(rctx, m, p).1;
        assert q.elems[0 := q.elems[0]] == q.elems;
      case ParamRule(_, _, _) =>
        ParamSettles(rctx, p, RuleFor(m));
    }
  }

  ghost predicate Idempotent(rctx: RewriteContext) {
    forall m: string, p: Params :: Settles(rctx, m, p)
  }

  /** A tag whose head is refused as a number: the second pass over the request refuses it. */
  lemma TagDoesNotSettle(rctx: RewriteContext, t: Text, head: U64)
    requires RewriteTag(rctx, t) == Replace(Hex(head))
    requires rctx.latest < head || TWO_63 <= rctx.latest == head
    ensures !Idempotent(rctx)
  {
    TagRequest(rctx, t, head);
    assert RuleFor("eth_getBlockByNumber") == ParamRule(0, false, false);
    assert RewriteTag(rctx, Hex(head)).Reject?;
    Unsettled(rctx, "eth_getBlockByNumber", Array([Str(t)]));
  }

  lemma Unsettled(rctx: RewriteContext, m: string, p: Params)
    requires !Settles(rctx, m, p)
    ensures !Idempotent(rctx)
  {
  }

  /** Rewriting is idempotent on every request iff the heads are ordered and the latest fits in an int64. */
  lemma IdempotentIff(rctx: RewriteContext)
    ensures Idempotent(rctx) <==> HeadsOrdered(rctx)
  {
    if HeadsOrdered(rctx) {
      forall m: string, p: Params ensures Settles(rctx, m, p) {
        RequestSettles(rctx, m, p);
      }
    } else if TWO_63 <= rctx.latest {
      TagDoesNotSettle(rctx, Latest, rctx.latest);
    } else if rctx.latest < rctx.safe {
      TagDoesNotSettle(rctx, Safe, rctx.safe);
    } else {
      TagDoesNotSettle(rctx, Finalized, rctx.finalized);
    }
  }

  // ---------- the range check ----------

  /** A bound as the caller means it: a height the rewriter lets through, or none. */
  function BoundHeight(rctx: RewriteContext, j: Json): Option<int> {
    if !j.Str? then None
    else match j.t
      case Latest => Some(rctx.latest)
      case Safe => Some(rctx.safe)
      case Finalized => Some(rctx.finalized)
      case Earliest => Some(0)
      case Pending => Some(rctx.latest + 1)
      case Hex(n) => if n <= rctx.latest then Some(n) else None
      case _ => None
  }

  /** Both bounds are heights, in order and no further apart than the limit. */
  predicate InRange(rctx: RewriteContext, m: Fields)
    requires NamesBound(m)
  {
    var d := WithDefaults(m);
    var from, to := BoundHeight(rctx, d[FROM]), BoundHeight(rctx, d[TO]);
    from.Some? && to.Some? && from.value <= to.value <= from.value + rctx.maxBlockRange
  }

  function MaxHeight(rctx: RewriteContext): int {
    var m := if rctx.safe > rctx.finalized then rctx.safe else rctx.finalized;
    if m > rctx.latest + 1 then m else rctx.latest + 1
  }

  /** No difference of two bounds, taken the wrong way round, can wrap to a value within the limit. */
  predicate LimitFits(rctx: RewriteContext) {
    rctx.maxBlockRange + MaxHeight(rctx) < TWO_64
  }

  lemma BoundMatchesHeight(rctx: RewriteContext, m: Fields, key: string)
    requires rctx.latest < TWO_63 && key in m
    ensures var rw := RewriteBound(rctx, m, key);
            var b := if rw.Reject? then None else BoundOf(Apply(m, key, rw), key, rctx.latest);
            && b.Some? == BoundHeight(rctx, m[key]).Some?
            && (b.Some? ==> b.value == BoundHeight(rctx, m[key]).value <= MaxHeight(rctx))
  {
  }

  lemma FilterAcceptedIffInRange(rctx: RewriteContext, m: Fields)
    requires rctx.latest < TWO_63 && 0 < rctx.maxBlockRange && LimitFits(rctx)
    requires NamesBound(m)
    ensures RewrittenFilter(rctx, m).0.Accepted() <==> InRange(rctx, m)
  {
    var d := WithDefaults(m);
    var from := RewriteBound(rctx, d, FROM);
    BoundMatchesHeight(rctx, d, FROM);
    if !from.Reject? {
      var m1 := Apply(d, FROM, from);
      BoundMatchesHeight(rctx, m1, TO);
      assert m1[TO] == d[TO];
      var to := RewriteBound(rctx, m1, TO);
      if !to.Reject? {
        assert Apply(m1, TO, to)[FROM] == m1[FROM];
      }
    }
  }

  /** A reversed filter whose wrapped difference slips under the limit. */
  lemma ReversedFilterSlipsThrough(rctx: RewriteContext, t: Text)
    requires rctx.latest < TWO_63 && 0 < rctx.maxBlockRange
    requires BoundHeight(rctx, Str(t)) == Some(MaxHeight(rctx))
    requires !LimitFits(rctx)
    ensures var m := map[FROM := Str(t), TO := Str(Earliest)];
            RewrittenFilter(rctx, m).0.Accepted() && !InRange(rctx, m)
  {
    var m := map[FROM := Str(t), TO := Str(Earliest)];
    assert WithDefaults(m) == m;
    BoundMatchesHeight(rctx, m, FROM);
    var m1 := Apply(m, FROM, RewriteBound(rctx, m, FROM));
    assert m1[TO] == Str(Earliest);
    BoundMatchesHeight(rctx, m1, TO);
  }

  ghost predicate RangeCheckExact(rctx: RewriteContext) {
    forall m: Fields :: NamesBound(m) ==> (RewrittenFilter(rctx, m).0.Accepted() <==> InRange(rctx, m))
  }

  /** A latest block beyond int64 turns negative: every plain height is refused, in range or not. */
  lemma HighLatestRefusesHeights(rctx: RewriteContext)
    requires TWO_63 <= rctx.latest
    ensures var m := map[FROM := Str(Hex(5)), TO := Str(Hex(5))];
            !RewrittenFilter(rctx, m).0.Accepted() && InRange(rctx, m)
  {
    var m := map[FROM := Str(Hex(5)), TO := Str(Hex(5))];
    assert WithDefaults(m) == m;
    assert RewriteBound(rctx, m, FROM).Reject?;
  }

  /** The wrapping check is exact on every filter iff latest is below 2^63 and limit and heads together are below 2^64. */
  lemma RangeCheckExactIff(rctx: RewriteContext)
    requires 0 < rctx.maxBlockRange
    ensures RangeCheckExact(rctx) <==> rctx.latest < TWO_63 && LimitFits(rctx)
    ensures HeadsFit(rctx) && rctx.maxBlockRange < TWO_63 ==> RangeCheckExact(rctx)
  {
    if TWO_63 <= rctx.latest {
      HighLatestRefusesHeights(rctx);
      assert NamesBound(map[FROM := Str(Hex(5)), TO := Str(Hex(5))]);
    } else if LimitFits(rctx) {
      forall m: Fields | NamesBound(m)
        ensures RewrittenFilter(rctx, m).0.Accepted() <==> InRange(rctx, m)
      {
        FilterAcceptedIffInRange(rctx, m);
      }
    } else {
      var t := if MaxHeight(rctx) == rctx.latest + 1 then Pending
               else if MaxHeight(rctx) == rctx.safe then Safe else Finalized;
      ReversedFilterSlipsThrough(rctx, t);
      assert NamesBound(map[FROM := Str(t), TO := Str(Earliest)]);
    }
  }
}
