/**
 What a round publishes, over all orders in which it may range over its candidates: when the
 published latest block is the same in every order, when the published heads are ordered, and what
 that means for the requests rewritten under them.
 */
module PublishedHeads {

  import opened Words
  import opened BackendStates
  import opened HashAgreement
  import opened ConsensusPollers
  import Rewriter
  import RewriterMeaning

  // ---------- one latest block in every order ----------

  ghost predicate AllPublish(candidates: Table, fetch: Fetch, n: nat, b: U64) {
    forall orders :: OrdersOf(orders, candidates.Keys) && |orders.visits| == n ==>
      EndsWith(orders.visits, fetch, Tip(orders.fold, candidates).0, Tip(orders.fold, candidates).1, b)
  }

  /** Whatever the orders of fold and walk-back, the round ends, and always publishes the same latest block. */
  ghost predicate OnePublished(candidates: Table, fetch: Fetch) {
    exists n: nat, b: U64 :: AllPublish(candidates, fetch, n, b)
  }

  /** For every hash recorded with the lowest block, no step before the first agreeing one is openly mixed. */
  ghost predicate EachClean(candidates: Table, fetch: Fetch, lowest: U64) {
    forall h :: RecordedBy(candidates, lowest, h) ==> exists k: nat :: CleanEnd(candidates.Keys, fetch, lowest, h, k)
  }

  /** The hashes recorded with the lowest block all pass there, or all fail. */
  ghost predicate SameStart(candidates: Table, fetch: Fetch, lowest: U64) {
    forall h1, h2 :: RecordedBy(candidates, lowest, h1) && RecordedBy(candidates, lowest, h2) ==>
      (Agree(candidates.Keys, fetch, lowest, h1) <==> Agree(candidates.Keys, fetch, lowest, h2))
  }

  /** No other block in the whole range of the counter is agreed on: a walk that leaves `lowest` wraps back to it. */
  ghost predicate OnlyAt(cs: set<Backend>, fetch: Fetch, lowest: U64) {
    forall c: U64 :: c != lowest ==> !Agree(cs, fetch, c, "")
  }

  /** Every order folds set heights to the one minimum, with a hash recorded there. */
  lemma EveryTip(fold: seq<Backend>, candidates: Table, lowest: U64)
    requires IsOrder(fold, candidates.Keys) && AllSet(candidates, LatestOf) && IsMinimum(candidates, LatestOf, lowest)
    ensures Tip(fold, candidates).0 == lowest && RecordedBy(candidates, lowest, Tip(fold, candidates).1)
  {
    FoldMeaning(fold, candidates);
    var be :| be in candidates && LatestOf(candidates[be]) == lowest;
    var tip := Tip(fold, candidates).0;
    var other :| other in candidates && LatestOf(candidates[other]) == tip;
    assert LatestOf(candidates[be]) != 0;
  }

  /** Every hash recorded there is what some order folds to. */
  lemma HashIsTip(candidates: Table, lowest: U64, h: string) returns (fold: seq<Backend>)
    requires AllSet(candidates, LatestOf) && IsMinimum(candidates, LatestOf, lowest) && RecordedBy(candidates, lowest, h)
    ensures IsOrder(fold, candidates.Keys) && Tip(fold, candidates) == (lowest, h)
  {
    var be :| be in candidates && candidates[be].latestBlockNumber == lowest && candidates[be].latestBlockHash == h;
    var others := candidates.Keys - {be};
    fold := [be] + Listing(others);
    JoinOrders([be], Listing(others), {be}, others);
    assert {be} + others == candidates.Keys;
    forall x | x in candidates ensures candidates[be].latestBlockNumber <= candidates[x].latestBlockNumber {
      assert lowest <= LatestOf(candidates[x]);
    }
    FirstLowestIsTip(be, Listing(others), candidates);
  }

  /** The counter does not come back to where it started in fewer than 2^64 steps. */
  lemma NoSmallCircle(start: U64, k: nat)
    requires 0 < k < TWO_64
    ensures BlockAt(start, k) != start
  {
    assert (start - k) % TWO_64 == if k <= start then start - k else start - k + TWO_64;
  }

  lemma StepTo(start: U64, c: U64) returns (k: nat)
    requires c != start
    ensures 0 < k < TWO_64 && BlockAt(start, k) == c
  {
    k := if c < start then start - c else start - c + TWO_64;
    assert (start - k) % TWO_64 == c;
  }

  /** After the first step the recorded hash no longer matters, so walks that leave the start end together. */
  lemma SameCleanEnd(cs: set<Backend>, fetch: Fetch, start: U64, h1: string, h2: string, k1: nat, k2: nat)
    requires CleanEnd(cs, fetch, start, h1, k1) && CleanEnd(cs, fetch, start, h2, k2) && 0 < k1 && 0 < k2
    ensures k1 == k2
  {
    assert AgreeAt(cs, fetch, start, h2, k1) && AgreeAt(cs, fetch, start, h1, k2);
  }

  lemma PublishedEnd(candidates: Table, fetch: Fetch, lowest: U64, n: nat, b: U64, h: string) returns (k: nat)
    requires AllSet(candidates, LatestOf) && IsMinimum(candidates, LatestOf, lowest) && RecordedBy(candidates, lowest, h)
    requires AllPublish(candidates, fetch, n, b)
    ensures CleanEnd(candidates.Keys, fetch, lowest, h, k) && BlockAt(lowest, k) == b
  {
    var fold := HashIsTip(candidates, lowest, h);
    forall visits | AreVisits(visits, candidates.Keys) && |visits| == n ensures EndsWith(visits, fetch, lowest, h, b) {
      assert OrdersOf(Orders(fold, visits), candidates.Keys);
    }
    k := OneEndIsClean(candidates.Keys, fetch, lowest, h, n, b);
  }

  /** When one recorded hash passes at the start and another fails, only a full circle can bring them together. */
  lemma DifferentStarts(cs: set<Backend>, fetch: Fetch, lowest: U64, h: string, k: nat)
    requires CleanEnd(cs, fetch, lowest, h, k) && !Agree(cs, fetch, lowest, h) && BlockAt(lowest, k) == lowest
    ensures OnlyAt(cs, fetch, lowest)
  {
    assert 0 < k;
    forall c: U64 | c != lowest ensures !Agree(cs, fetch, c, "") {
      var j := StepTo(lowest, c);
      if k < TWO_64 {
        NoSmallCircle(lowest, k);
      }
      assert !AgreeAt(cs, fetch, lowest, h, j);
    }
  }

  lemma OnePublishedIsClean(candidates: Table, fetch: Fetch, lowest: U64, n: nat, b: U64)
    requires AllSet(candidates, LatestOf) && IsMinimum(candidates, LatestOf, lowest) && AllPublish(candidates, fetch, n, b)
    ensures EachClean(candidates, fetch, lowest)
    ensures SameStart(candidates, fetch, lowest) || OnlyAt(candidates.Keys, fetch, lowest)
  {
    var cs := candidates.Keys;
    forall h | RecordedBy(candidates, lowest, h) ensures exists k: nat :: CleanEnd(cs, fetch, lowest, h, k) {
      var k := PublishedEnd(candidates, fetch, lowest, n, b, h);
    }
    if h1, h2 :| RecordedBy(candidates, lowest, h1) && RecordedBy(candidates, lowest, h2)
                 && Agree(cs, fetch, lowest, h1) && !Agree(cs, fetch, lowest, h2) {
      var k1 := PublishedEnd(candidates, fetch, lowest, n, b, h1);
      var k2 := PublishedEnd(candidates, fetch, lowest, n, b, h2);
      assert AgreeAt(cs, fetch, lowest, h1, 0);
      DifferentStarts(cs, fetch, lowest, h2, k2);
    }
  }

  /** A walk from hash `g` ends at the step where `h` ends, or at the start, which is then the same block. */
  lemma SameBlock(cs: set<Backend>, fetch: Fetch, lowest: U64, h: string, g: string, k: nat, j: nat)
    requires CleanEnd(cs, fetch, lowest, h, k) && CleanEnd(cs, fetch, lowest, g, j)
    requires OnlyAt(cs, fetch, lowest) || (Agree(cs, fetch, lowest, h) <==> Agree(cs, fetch, lowest, g))
    requires k == 0 ==> Agree(cs, fetch, lowest, g)
    ensures BlockAt(lowest, j) == BlockAt(lowest, k) && j <= k
  {
    assert AgreeAt(cs, fetch, lowest, g, 0) <==> j == 0;
    assert AgreeAt(cs, fetch, lowest, h, 0) <==> k == 0;
    if 0 < j {
      SameCleanEnd(cs, fetch, lowest, h, g, k, j);
    } else if 0 < k {
      assert Agree(cs, fetch, BlockAt(lowest, k), "");
    }
  }

  lemma CleanIsOnePublished(candidates: Table, fetch: Fetch, lowest: U64, h: string, k: nat)
    requires AllSet(candidates, LatestOf) && IsMinimum(candidates, LatestOf, lowest) && RecordedBy(candidates, lowest, h)
    requires EachClean(candidates, fetch, lowest) && CleanEnd(candidates.Keys, fetch, lowest, h, k)
    requires SameStart(candidates, fetch, lowest) || OnlyAt(candidates.Keys, fetch, lowest)
    requires k > 0 || forall g :: RecordedBy(candidates, lowest, g) ==> Agree(candidates.Keys, fetch, lowest, g)
    ensures AllPublish(candidates, fetch, k + 1, BlockAt(lowest, k))
  {
    forall orders | OrdersOf(orders, candidates.Keys) && |orders.visits| == k + 1
      ensures EndsWith(orders.visits, fetch, Tip(orders.fold, candidates).0, Tip(orders.fold, candidates).1, BlockAt(lowest, k))
    {
      EveryTip(orders.fold, candidates, lowest);
      var g := Tip(orders.fold, candidates).1;
      var j: nat :| CleanEnd(candidates.Keys, fetch, lowest, g, j);
      SameBlock(candidates.Keys, fetch, lowest, h, g, k, j);
      CleanEndIsEnd(candidates.Keys, fetch, lowest, g, j, orders.visits);
    }
  }

  /** A recorded hash that fails at the start if any does, with the end of its walk. */
  lemma SlowestHash(candidates: Table, fetch: Fetch, lowest: U64) returns (h: string, k: nat)
    requires IsMinimum(candidates, LatestOf, lowest) && EachClean(candidates, fetch, lowest)
    ensures RecordedBy(candidates, lowest, h) && CleanEnd(candidates.Keys, fetch, lowest, h, k)
    ensures k > 0 || forall g :: RecordedBy(candidates, lowest, g) ==> Agree(candidates.Keys, fetch, lowest, g)
  {
    var be :| be in candidates && LatestOf(candidates[be]) == lowest;
    h := candidates[be].latestBlockHash;
    assert RecordedBy(candidates, lowest, h);
    if g :| RecordedBy(candidates, lowest, g) && !Agree(candidates.Keys, fetch, lowest, g) {
      h := g;
    }
    k :| CleanEnd(candidates.Keys, fetch, lowest, h, k);
    assert AgreeAt(candidates.Keys, fetch, lowest, h, 0) <==> Agree(candidates.Keys, fetch, lowest, h);
  }

  /**
   With all heights set, the published latest block is the same in every order iff for each hash
   recorded with the lowest block no step before the first agreeing one is openly mixed, and those
   hashes all get the same verdict there (or no other block at all is agreed on).
   */
  lemma OnePublishedIff(candidates: Table, fetch: Fetch, lowest: U64)
    requires AllSet(candidates, LatestOf) && IsMinimum(candidates, LatestOf, lowest)
    ensures OnePublished(candidates, fetch) <==>
            && EachClean(candidates, fetch, lowest)
            && (SameStart(candidates, fetch, lowest) || OnlyAt(candidates.Keys, fetch, lowest))
  {
    if n: nat, b: U64 :| AllPublish(candidates, fetch, n, b) {
      OnePublishedIsClean(candidates, fetch, lowest, n, b);
    }
    if EachClean(candidates, fetch, lowest) && (SameStart(candidates, fetch, lowest) || OnlyAt(candidates.Keys, fetch, lowest)) {
      var h, k := SlowestHash(candidates, fetch, lowest);
      CleanIsOnePublished(candidates, fetch, lowest, h, k);
    }
  }

  /**
   Two candidates at block 10 that recorded different hashes, one of which no longer answers: no hash
   is ever blank, and yet the published block depends on which of them the fold meets first.
   */
  lemma RecordedHashDecides(a: Backend, b: Backend, sa: BackendState, sb: BackendState)
    requires a != b && sa.latestBlockNumber == 10 && sb.latestBlockNumber == 10
    requires sa.latestBlockHash == "ha" && sb.latestBlockHash == "hb"
    ensures var fetch: Fetch := (be: Backend, n: U64) =>
              if n < 10 then Some((n, "h")) else if n == 10 && be == b then Some((10, "hb")) else None;
            && NoBlankHashes({a, b}, fetch)
            && GreatestAgreed({a, b}, fetch, 10, "ha", 9) && GreatestAgreed({a, b}, fetch, 10, "hb", 10)
            && !OnePublished(map[a := sa, b := sb], fetch)
  {
    var fetch: Fetch := (be: Backend, n: U64) =>
      if n < 10 then Some((n, "h")) else if n == 10 && be == b then Some((10, "hb")) else None;
    var candidates := map[a := sa, b := sb];
    assert candidates.Keys == {a, b};
    assert LatestOf(candidates[a]) == 10;
    assert IsMinimum(candidates, LatestOf, 10);
    assert RecordedBy(candidates, 10, "ha") && RecordedBy(candidates, 10, "hb");
    assert AgreeOn({a, b}, fetch, 9, "h") && AgreeOn({a, b}, fetch, 10, "hb");
    assert !AgreeOn({a, b}, fetch, 10, "ha") by {
      assert !Answers(fetch, b, 10, "ha");
    }
    assert Agree({a, b}, fetch, 9, "") && Agree({a, b}, fetch, 10, "hb") && !Agree({a, b}, fetch, 10, "ha");
    OnePublishedIff(candidates, fetch, 10);
  }

  // ---------- ordered heads ----------

  /** Some block from `low` up to the starting one is agreed on. */
  ghost predicate AgreesBetween(cs: set<Backend>, fetch: Fetch, low: U64, start: U64, startHash: string) {
    exists b: U64 :: low <= b <= start && AgreeFrom(cs, fetch, start, startHash, b)
  }

  /** Without blank hashes, a walk that finds nothing at or below its start ends above it, or comes full circle. */
  lemma WrappedEndsAbove(cs: set<Backend>, visits: Visits, fetch: Fetch, start: U64, startHash: string, k: nat)
    requires AreVisits(visits, cs) && NoBlankHashes(cs, fetch) && !AgreesBelow(cs, fetch, start, startHash)
    requires EndsAt(visits, fetch, start, startHash, k)
    ensures start <= BlockAt(start, k)
  {
    PassesIfAgreed(cs, visits[k], fetch, start, startHash, k);
    NoBlanksNoMix(cs, fetch, BlockAt(start, k));
    if k <= start {
      StepOfBlock(cs, fetch, start, startHash, start - k);
    } else if k < TWO_64 {
      assert (start - k) % TWO_64 == start - k + TWO_64;
    } else if k > TWO_64 {
      var j := k - TWO_64;
      assert BlockAt(start, j) == BlockAt(start, k);
      PassesIfAgreed(cs, visits[j], fetch, start, startHash, j);
    }
  }

  /**
   Published safe is at most published latest iff the candidates agree on some block between the two
   heads the fold found (or on none at all at or below the lowest latest, when the counter wraps).
   */
  lemma SafeBelowLatestIff(orders: Orders, candidates: Table, fetch: Fetch, current: U64, round: Round)
    requires OrdersOf(orders, candidates.Keys) && Resolved(orders, candidates, fetch, current, round)
    requires AllInOrder(candidates) && NoBlankHashes(candidates.Keys, fetch)
    ensures var (lowest, hash) := Tip(orders.fold, candidates);
            round.safe <= round.latest <==>
            || lowest == 0
            || AgreesBetween(candidates.Keys, fetch, round.safe, lowest, hash)
            || !AgreesBelow(candidates.Keys, fetch, lowest, hash)
  {
    var (lowest, hash) := Tip(orders.fold, candidates);
    RoundMeaning(orders, candidates, fetch, current, round);
    if lowest != 0 && AgreesBelow(candidates.Keys, fetch, lowest, hash) {
      assert GreatestAgreed(candidates.Keys, fetch, lowest, hash, round.latest);
    } else if lowest != 0 {
      var k: nat :| EndsAt(orders.visits, fetch, lowest, hash, k) && BlockAt(lowest, k) == round.latest;
      WrappedEndsAbove(candidates.Keys, orders.visits, fetch, lowest, hash, k);
    }
  }

  function HeadsOf(round: Round, maxBlockRange: U64): Rewriter.RewriteContext {
    Rewriter.RewriteContext(round.latest, round.safe, round.finalized, maxBlockRange)
  }

  /** When rewriting under the heads a round publishes is idempotent on every request. */
  lemma PublishedHeadsSettleIff(
    orders: Orders, candidates: Table, fetch: Fetch, current: U64, round: Round, maxBlockRange: U64)
    requires OrdersOf(orders, candidates.Keys) && Resolved(orders, candidates, fetch, current, round)
    requires AllInOrder(candidates) && NoBlankHashes(candidates.Keys, fetch)
    ensures var (lowest, hash) := Tip(orders.fold, candidates);
            RewriterMeaning.Idempotent(HeadsOf(round, maxBlockRange)) <==>
            && round.latest < TWO_63
            && (|| lowest == 0
                || AgreesBetween(candidates.Keys, fetch, round.safe, lowest, hash)
                || !AgreesBelow(candidates.Keys, fetch, lowest, hash))
  {
    RoundMeaning(orders, candidates, fetch, current, round);
    SafeBelowLatestIff(orders, candidates, fetch, current, round);
    RewriterMeaning.IdempotentIff(HeadsOf(round, maxBlockRange));
  }
}
