/**
 The consensus poller of a backend group: it polls backends, filters the candidates of a round,
 folds their heights, walks back to a block everyone agrees on, and publishes the result.

 Time, backend health, backend answers and the orders in which Go ranges over the candidate map are
 parameters of the call that depends on them. The tracker is the in-memory one; listeners are
 counted, not called.
 */
module ConsensusPollers {

  import opened Words
  import opened BackendStates
  import opened HashAgreement

  datatype Config = Config(minPeerCount: U64, banPeriod: Time, maxUpdateThreshold: Time, maxBlockLag: U64)

  type Health = Backend -> bool

  /** What one round publishes. */
  datatype Round = Round(latest: U64, safe: U64, finalized: U64, broken: bool, group: seq<Backend>)

  /** Everything the filter asks of a backend before it looks at lag. */
  predicate Eligible(cfg: Config, be: Backend, bs: BackendState, now: Time, healthy: Health) {
    || be.forcedCandidate
    || (&& !bs.IsBanned(now)
        && healthy(be)
        && (be.skipPeerCountCheck || cfg.minPeerCount <= bs.peerCount)
        && bs.inSync
        && now <= bs.lastUpdate + cfg.maxUpdateThreshold)
  }

  function EligibleSet(cfg: Config, list: seq<Backend>, m: Table, now: Time, healthy: Health): set<Backend>
    requires forall be :: be in list ==> be in m
  {
    set be | be in list && Eligible(cfg, be, m[be], now, healthy)
  }

  /** No member of `es` is more than `lag` blocks ahead of `be`. */
  predicate NotLagging(es: set<Backend>, m: Table, lag: U64, be: Backend)
    requires be in m && forall e :: e in es ==> e in m
  {
    forall e :: e in es ==> m[e].latestBlockNumber - m[be].latestBlockNumber <= lag
  }

  /** `candidates` are the eligible backends of `list` that keep up with the highest of them. */
  ghost predicate AreCandidates(
    cfg: Config, list: seq<Backend>, m: Table, now: Time, healthy: Health, candidates: Table)
    requires forall be :: be in list ==> be in m
  {
    var es := EligibleSet(cfg, list, m, now, healthy);
    && (forall be :: be in candidates <==> be in es && NotLagging(es, m, cfg.maxBlockLag, be))
    && (forall be :: be in candidates ==> candidates[be] == m[be])
  }

  function Candidates(cfg: Config, list: seq<Backend>, m: Table, now: Time, healthy: Health): Table
    requires forall be :: be in list ==> be in m
  {
    var es := EligibleSet(cfg, list, m, now, healthy);
    map be | be in es && NotLagging(es, m, cfg.maxBlockLag, be) :: m[be]
  }

  lemma CandidatesUnique(cfg: Config, list: seq<Backend>, m: Table, now: Time, healthy: Health, candidates: Table)
    requires forall be :: be in list ==> be in m
    requires AreCandidates(cfg, list, m, now, healthy, candidates)
    ensures candidates == Candidates(cfg, list, m, now, healthy)
  {
    assert candidates.Keys == Candidates(cfg, list, m, now, healthy).Keys;
  }

  /** Candidates lie within one lag window, and there are some whenever anything is eligible. */
  lemma CandidatesWithinLag(cfg: Config, list: seq<Backend>, m: Table, now: Time, healthy: Health, candidates: Table)
    requires forall be :: be in list ==> be in m
    requires AreCandidates(cfg, list, m, now, healthy, candidates)
    ensures forall a, b :: a in candidates && b in candidates ==>
              candidates[a].latestBlockNumber - candidates[b].latestBlockNumber <= cfg.maxBlockLag
    ensures candidates == map[] <==> EligibleSet(cfg, list, m, now, healthy) == {}
  {
    var es := EligibleSet(cfg, list, m, now, healthy);
    if es != {} {
      var top := HighestOf(es, m);
      assert NotLagging(es, m, cfg.maxBlockLag, top);
      assert top in candidates;
    } else {
      assert candidates.Keys == {};
    }
  }

  lemma {:induction false} HighestOf(es: set<Backend>, m: Table) returns (top: Backend)
    requires es != {} && forall e :: e in es ==> e in m
    ensures top in es && forall e :: e in es ==> m[e].latestBlockNumber <= m[top].latestBlockNumber
  {
    top :| top in es;
    var rest := es - {top};
    if rest != {} {
      var other := HighestOf(rest, m);
      if m[top].latestBlockNumber < m[other].latestBlockNumber {
        top := other;
      }
    }
  }

  // ---------- selections in configuration order ----------

  function Select(list: seq<Backend>, p: Backend -> bool): (s: seq<Backend>)
    ensures forall be :: be in s <==> be in list && p(be)
  {
    if list == [] then []
    else
      var n := |list| - 1;
      Select(list[..n], p) + if p(list[n]) then [list[n]] else []
  }

  function IsFallback(fallbackBackends: map<string, bool>): Backend -> bool {
    (be: Backend) => be.name in fallbackBackends && fallbackBackends[be.name]
  }

  function IsPrimary(fallbackBackends: map<string, bool>): Backend -> bool {
    (be: Backend) => be.name in fallbackBackends && !fallbackBackends[be.name]
  }

  function IsIn(cs: set<Backend>): Backend -> bool {
    (be: Backend) => be in cs
  }

  // ---------- the fold over candidate heights ----------

  /** `x` is the least value of `f` over the candidates. */
  ghost predicate IsMinimum(candidates: Table, f: BackendState -> U64, x: U64) {
    && (forall be :: be in candidates ==> x <= f(candidates[be]))
    && (exists be :: be in candidates && f(candidates[be]) == x)
  }

  const LatestOf: BackendState -> U64 := (bs: BackendState) => bs.latestBlockNumber
  const SafeOf: BackendState -> U64 := (bs: BackendState) => bs.safeBlockNumber
  const FinalizedOf: BackendState -> U64 := (bs: BackendState) => bs.finalizedBlockNumber

  ghost predicate AllSet(candidates: Table, f: BackendState -> U64) {
    forall be :: be in candidates ==> f(candidates[be]) != 0
  }

  ghost predicate NoneSet(candidates: Table, f: BackendState -> U64) {
    forall be :: be in candidates ==> f(candidates[be]) == 0
  }

  ghost predicate AllInOrder(candidates: Table) {
    forall be :: be in candidates ==> HeightsInOrder(candidates[be])
  }

  /** Some candidate recorded block `b` with hash `h` as its latest. */
  ghost predicate RecordedBy(candidates: Table, b: U64, h: string) {
    exists be :: be in candidates && candidates[be].latestBlockNumber == b && candidates[be].latestBlockHash == h
  }

  function Lower(x: U64, y: U64): U64 {
    if x == 0 || y < x then y else x
  }

  /** The fold over candidates that come up in this order, with 0 for "not set yet". */
  function Folded(order: seq<Backend>, candidates: Table, f: BackendState -> U64): U64
    requires forall be :: be in order ==> be in candidates
  {
    if order == [] then 0
    else
      var n := |order| - 1;
      Lower(Folded(order[..n], candidates, f), f(candidates[order[n]]))
  }

  lemma {:induction false} FoldedIsMinimum(order: seq<Backend>, candidates: Table, f: BackendState -> U64)
    requires forall be :: be in order ==> be in candidates
    requires order != [] && AllSet(candidates, f)
    ensures Folded(order, candidates, f) != 0
    ensures forall be :: be in order ==> Folded(order, candidates, f) <= f(candidates[be])
    ensures exists be :: be in order && f(candidates[be]) == Folded(order, candidates, f)
  {
    var n := |order| - 1;
    assert order == order[..n] + [order[n]];
    if n > 0 {
      FoldedIsMinimum(order[..n], candidates, f);
    }
  }

  lemma {:induction false} FoldedOfUnset(order: seq<Backend>, candidates: Table, f: BackendState -> U64)
    requires forall be :: be in order ==> be in candidates && f(candidates[be]) == 0
    ensures Folded(order, candidates, f) == 0
  {
    if order != [] {
      FoldedOfUnset(order[..|order| - 1], candidates, f);
    }
  }

  ghost predicate MinimumInEveryOrder(candidates: Table, f: BackendState -> U64) {
    forall order :: IsOrder(order, candidates.Keys) ==> IsMinimum(candidates, f, Folded(order, candidates, f))
  }

  lemma SetFoldsToMinimum(order: seq<Backend>, candidates: Table, f: BackendState -> U64)
    requires IsOrder(order, candidates.Keys) && candidates != map[] && AllSet(candidates, f)
    ensures IsMinimum(candidates, f, Folded(order, candidates, f))
  {
    var be :| be in candidates;
    assert be in order;
    FoldedIsMinimum(order, candidates, f);
  }

  lemma UnsetFoldsToMinimum(order: seq<Backend>, candidates: Table, f: BackendState -> U64)
    requires IsOrder(order, candidates.Keys) && candidates != map[] && NoneSet(candidates, f)
    ensures IsMinimum(candidates, f, Folded(order, candidates, f))
  {
    var be :| be in candidates;
    FoldedOfUnset(order, candidates, f);
    assert f(candidates[be]) == 0;
  }

  /** With both kinds present, an order that ends in a set height misses the zero. */
  lemma MixedMissesMinimum(candidates: Table, f: BackendState -> U64) returns (order: seq<Backend>)
    requires !AllSet(candidates, f) && !NoneSet(candidates, f)
    ensures IsOrder(order, candidates.Keys) && !IsMinimum(candidates, f, Folded(order, candidates, f))
  {
    var unset :| unset in candidates && f(candidates[unset]) == 0;
    var last :| last in candidates && f(candidates[last]) != 0;
    var others := candidates.Keys - {last};
    order := Listing(others) + [last];
    JoinOrders(Listing(others), [last], others, {last});
    assert others + {last} == candidates.Keys;
    assert Folded(order, candidates, f) != 0;
  }

  /** A zero height restarts the fold: its minimum is the true one in every order iff all heights are set or none is. */
  lemma MinimumInEveryOrderIff(candidates: Table, f: BackendState -> U64)
    requires candidates != map[]
    ensures MinimumInEveryOrder(candidates, f) <==> AllSet(candidates, f) || NoneSet(candidates, f)
  {
    if AllSet(candidates, f) {
      forall order | IsOrder(order, candidates.Keys) ensures IsMinimum(candidates, f, Folded(order, candidates, f)) {
        SetFoldsToMinimum(order, candidates, f);
      }
    } else if NoneSet(candidates, f) {
      forall order | IsOrder(order, candidates.Keys) ensures IsMinimum(candidates, f, Folded(order, candidates, f)) {
        UnsetFoldsToMinimum(order, candidates, f);
      }
    } else {
      var order := MixedMissesMinimum(candidates, f);
    }
  }

  /** Candidates with ordered heights fold to ordered heights, whatever the order and whoever is unset. */
  lemma {:induction false} FoldedInOrder(order: seq<Backend>, candidates: Table)
    requires forall be :: be in order ==> be in candidates
    requires AllInOrder(candidates)
    ensures var l, s, n := Folded(order, candidates, LatestOf), Folded(order, candidates, SafeOf), Folded(order, candidates, FinalizedOf);
            l == s == n == 0 || 0 < n <= s <= l
  {
    if order != [] {
      FoldedInOrder(order[..|order| - 1], candidates);
      assert HeightsInOrder(candidates[order[|order| - 1]]);
    }
  }

  /** The latest block the fold keeps, with the hash recorded beside it. */
  function Tip(order: seq<Backend>, candidates: Table): (U64, string)
    requires forall be :: be in order ==> be in candidates
  {
    if order == [] then (0, "")
    else
      var tip, bs := Tip(order[..|order| - 1], candidates), candidates[order[|order| - 1]];
      if tip.0 == 0 || bs.latestBlockNumber < tip.0 then (bs.latestBlockNumber, bs.latestBlockHash) else tip
  }

  /** The tip is the fold of the latest blocks, and some candidate recorded it. */
  lemma {:induction false} TipIsRecorded(order: seq<Backend>, candidates: Table)
    requires forall be :: be in order ==> be in candidates
    ensures Tip(order, candidates).0 == Folded(order, candidates, LatestOf)
    ensures Tip(order, candidates).0 != 0 ==> RecordedBy(candidates, Tip(order, candidates).0, Tip(order, candidates).1)
  {
    if order != [] {
      TipIsRecorded(order[..|order| - 1], candidates);
      assert order[|order| - 1] in candidates;
    }
  }

  /** Among set heights, a lowest candidate that comes up first gives the fold its hash. */
  lemma {:induction false} FirstLowestIsTip(be: Backend, rest: seq<Backend>, candidates: Table)
    requires be in candidates && forall x :: x in rest ==> x in candidates
    requires AllSet(candidates, LatestOf)
    requires forall x :: x in candidates ==> candidates[be].latestBlockNumber <= candidates[x].latestBlockNumber
    ensures Tip([be] + rest, candidates) == (candidates[be].latestBlockNumber, candidates[be].latestBlockHash)
  {
    assert LatestOf(candidates[be]) != 0;
    if rest != [] {
      var n := |rest| - 1;
      FirstLowestIsTip(be, rest[..n], candidates);
      assert ([be] + rest)[..n + 1] == [be] + rest[..n];
      assert rest[n] in candidates;
    } else {
      assert [be] + rest == [be] && [be][..0] == [];
      assert Tip([be][..0], candidates) == (0, "");
    }
  }

  /** The loop over the candidates in this order. */
  method FoldHeights(order: seq<Backend>, candidates: Table)
    returns (latest: U64, hash: string, safe: U64, finalized: U64)
    requires IsOrder(order, candidates.Keys)
    ensures (latest, hash) == Tip(order, candidates)
    ensures safe == Folded(order, candidates, SafeOf)
    ensures finalized == Folded(order, candidates, FinalizedOf)
  {
    latest, hash, safe, finalized := 0, "", 0, 0;
    for i := 0 to |order|
      invariant (latest, hash) == Tip(order[..i], candidates)
      invariant safe == Folded(order[..i], candidates, SafeOf)
      invariant finalized == Folded(order[..i], candidates, FinalizedOf)
    {
      var bs := candidates[order[i]];
      assert order[..i + 1][..i] == order[..i];
      if latest == 0 || bs.latestBlockNumber < latest {
        latest, hash := bs.latestBlockNumber, bs.latestBlockHash;
      }
      if finalized == 0 || bs.finalizedBlockNumber < finalized {
        finalized := bs.finalizedBlockNumber;
      }
      if safe == 0 || bs.safeBlockNumber < safe {
        safe := bs.safeBlockNumber;
      }
    }
    assert order[..|order|] == order;
  }

  /** What the fold means: ordered heights stay ordered, and set heights give the true minimum. */
  lemma FoldMeaning(order: seq<Backend>, candidates: Table)
    requires IsOrder(order, candidates.Keys)
    ensures AllInOrder(candidates) ==>
              Folded(order, candidates, FinalizedOf) <= Folded(order, candidates, SafeOf) <= Tip(order, candidates).0
    ensures candidates != map[] ==>
              && (AllSet(candidates, LatestOf) ==> IsMinimum(candidates, LatestOf, Tip(order, candidates).0))
              && (AllSet(candidates, SafeOf) ==> IsMinimum(candidates, SafeOf, Folded(order, candidates, SafeOf)))
              && (AllSet(candidates, FinalizedOf) ==> IsMinimum(candidates, FinalizedOf, Folded(order, candidates, FinalizedOf)))
    ensures Tip(order, candidates).0 != 0 ==> RecordedBy(candidates, Tip(order, candidates).0, Tip(order, candidates).1)
  {
    TipIsRecorded(order, candidates);
    if AllInOrder(candidates) {
      FoldedInOrder(order, candidates);
    }
    if candidates != map[] {
      MinimumInEveryOrderIff(candidates, LatestOf);
      MinimumInEveryOrderIff(candidates, SafeOf);
      MinimumInEveryOrderIff(candidates, FinalizedOf);
    }
  }

  /** The orders in which one round ranges over its candidates: in the fold, and in each step of the walk-back. */
  datatype Orders = Orders(fold: seq<Backend>, visits: Visits)

  ghost predicate OrdersOf(orders: Orders, cs: set<Backend>) {
    IsOrder(orders.fold, cs) && AreVisits(orders.visits, cs)
  }

  /** The walk-back of a round with these orders ends. There is none when no block is proposed. */
  ghost predicate RoundEnds(orders: Orders, candidates: Table, fetch: Fetch)
    requires OrdersOf(orders, candidates.Keys)
  {
    var (lowest, hash) := Tip(orders.fold, candidates);
    lowest != 0 ==> Halts(orders.visits, fetch, lowest, hash)
  }

  class ConsensusPoller {
    const cfg: Config
    const backends: seq<Backend>
    const fallbackBackends: map<string, bool>

    var backendState: Table
    var consensusGroup: seq<Backend>

    // the tracker
    var latest: U64
    var safe: U64
    var finalized: U64

    /** How many rounds have notified the consensus-broken listeners. */
    var brokenEvents: nat

    /** The latest instant this poller has seen. */
    ghost var clock: Time

    ghost predicate Valid()
      reads this
    {
      && 0 <= clock
      && backendState.Keys == Members(backends)
      && (forall be :: be in backendState && !be.forcedCandidate ==> HeightsInOrder(backendState[be]))
      && (forall be :: be in backendState && be.forcedCandidate ==> backendState[be].bannedUntil <= clock)
    }

    /** Valid, except that nothing is known about the heights of `x`. */
    ghost predicate ValidBut(x: Backend)
      reads this
    {
      && 0 <= clock
      && backendState.Keys == Members(backends)
      && (forall be :: be in backendState && !be.forcedCandidate && be != x ==> HeightsInOrder(backendState[be]))
      && (forall be :: be in backendState && be.forcedCandidate ==> backendState[be].bannedUntil <= clock)
    }

    constructor (cfg: Config, backends: seq<Backend>, fallbackBackends: map<string, bool>)
      ensures Valid() && clock == 0
      ensures this.cfg == cfg && this.backends == backends && this.fallbackBackends == fallbackBackends
      ensures backendState == Initial(backends) && consensusGroup == []
      ensures latest == safe == finalized == brokenEvents == 0
    {
      this.cfg, this.backends, this.fallbackBackends := cfg, backends, fallbackBackends;
      backendState := map be | be in backends :: ZERO_STATE;
      consensusGroup, latest, safe, finalized, brokenEvents, clock := [], 0, 0, 0, 0, 0;
    }

    method BanBackend(be: Backend, now: Time)
      requires ValidBut(be) && be in backends && clock <= now
      modifies this`backendState, this`clock
      ensures Valid() && clock == now
      ensures backendState == Step(cfg.banPeriod, old(backendState), Ban(be, now))
    {
      clock := now;
      if be.forcedCandidate {
        return;
      }
      var bs := backendState[be];
      bs := bs.(bannedUntil := now + cfg.banPeriod);
      bs := bs.(latestBlockNumber := 0, safeBlockNumber := 0, finalizedBlockNumber := 0);
      backendState := backendState[be := bs];
    }

    method UnbanBackend(be: Backend, now: Time)
      requires Valid() && be in backends && clock <= now
      modifies this`backendState, this`clock
      ensures Valid() && clock == now
      ensures backendState == Step(cfg.banPeriod, old(backendState), Unban(be, now))
    {
      clock := now;
      backendState := backendState[be := backendState[be].(bannedUntil := now - UNBAN_OFFSET)];
    }

    method ResetBackends()
      requires Valid()
      modifies this`backendState
      ensures Valid()
      ensures backendState == Step(cfg.banPeriod, old(backendState), Reset)
    {
      for i := 0 to |backends|
        invariant backendState.Keys == Members(backends)
        invariant forall j :: 0 <= j < i ==> backendState[backends[j]] == ZERO_STATE
      {
        backendState := backendState[backends[i] := ZERO_STATE];
      }
      assert forall be :: be in backendState ==> be in backends && backendState[be] == ZERO_STATE;
    }

    /** One poll of one backend, with the sequence of early returns of the source. */
    method UpdateBackend(be: Backend, now: Time, obs: Observation)
      requires Valid() && be in backends && clock <= now
      modifies this`backendState, this`clock
      ensures Valid() && clock == now
      ensures backendState == Step(cfg.banPeriod, old(backendState), Poll(be, now, obs))
    {
      clock := now;
      var bs := backendState[be];
      if bs.IsBanned(now) {
        return;
      }
      if !obs.healthy && !be.forcedCandidate {
        BanBackend(be, now);
        return;
      }
      if obs.inSync.None? {
        return;
      }
      var peerCount: U64 := 0;
      if !be.skipPeerCountCheck {
        if obs.peerCount.None? {
          return;
        }
        peerCount := obs.peerCount.value;
        if peerCount == 0 {
          return;
        }
      }
      if obs.latest.None? || obs.latest.value.0 == 0 {
        return;
      }
      if obs.safe.None? || obs.safe.value == 0 {
        return;
      }
      if obs.finalized.None? || obs.finalized.value == 0 {
        return;
      }
      StoreAndCheck(be, now, obs, peerCount);
    }

    /** The end of a poll that heard everything: store it, then ban a backend whose tags went back or are out of order. */
    method StoreAndCheck(be: Backend, now: Time, obs: Observation, peerCount: U64)
      requires Valid() && be in backends && clock == now
      requires Usable(be, obs) && peerCount == if be.skipPeerCountCheck then 0 else obs.peerCount.value
      requires !backendState[be].IsBanned(now) && (obs.healthy || be.forcedCandidate)
      modifies this`backendState, this`clock
      ensures Valid() && clock == now
      ensures backendState == Step(cfg.banPeriod, old(backendState), Poll(be, now, obs))
    {
      var bs := backendState[be];
      var stored := bs.(peerCount := peerCount, inSync := obs.inSync.value,
                        latestBlockNumber := obs.latest.value.0, latestBlockHash := obs.latest.value.1,
                        finalizedBlockNumber := obs.finalized.value, safeBlockNumber := obs.safe.value,
                        lastUpdate := now);
      var expected := ExpectedBlockTags(
        obs.latest.value.0, bs.safeBlockNumber, obs.safe.value, bs.finalizedBlockNumber, obs.finalized.value);
      backendState := backendState[be := stored];
      if !expected && !be.forcedCandidate {
        BanBackend(be, now);
      }
    }

    method Fallbacks() returns (fallbacks: seq<Backend>)
      ensures fallbacks == Select(backends, IsFallback(fallbackBackends))
    {
      fallbacks := [];
      for i := 0 to |backends|
        invariant fallbacks == Select(backends[..i], IsFallback(fallbackBackends))
      {
        var a := backends[i];
        assert backends[..i + 1][..i] == backends[..i];
        if a.name in fallbackBackends && fallbackBackends[a.name] {
          fallbacks := fallbacks + [a];
        }
      }
      assert backends[..|backends|] == backends;
    }

    method Primaries() returns (primaries: seq<Backend>)
      ensures primaries == Select(backends, IsPrimary(fallbackBackends))
    {
      primaries := [];
      for i := 0 to |backends|
        invariant primaries == Select(backends[..i], IsPrimary(fallbackBackends))
      {
        var a := backends[i];
        assert backends[..i + 1][..i] == backends[..i];
        if a.name in fallbackBackends && !fallbackBackends[a.name] {
          primaries := primaries + [a];
        }
      }
      assert backends[..|backends|] == backends;
    }

    method FilterCandidates(list: seq<Backend>, now: Time, healthy: Health) returns (candidates: Table)
      requires Valid() && forall be :: be in list ==> be in backends
      ensures forall be :: be in list ==> be in backendState
      ensures AreCandidates(cfg, list, backendState, now, healthy, candidates)
    {
      candidates := map[];
      for i := 0 to |list|
        invariant candidates.Keys == EligibleSet(cfg, list[..i], backendState, now, healthy)
        invariant forall be :: be in candidates ==> candidates[be] == backendState[be]
      {
        var be := list[i];
        var bs := backendState[be];
        assert list[..i + 1] == list[..i] + [be];
        if be.forcedCandidate {
          candidates := candidates[be := bs];
          continue;
        }
        if bs.IsBanned(now) {
          continue;
        }
        if !healthy(be) {
          continue;
        }
        if !be.skipPeerCountCheck && bs.peerCount < cfg.minPeerCount {
          continue;
        }
        if !bs.inSync {
          continue;
        }
        if bs.lastUpdate + cfg.maxUpdateThreshold < now {
          continue;
        }
        candidates := candidates[be := bs];
      }
      assert list[..|list|] == list;
      candidates := DropLagging(candidates);
    }

    /** The second half of the filter: drop whoever is too far behind the highest block. */
    method DropLagging(eligible: Table) returns (candidates: Table)
      ensures forall be :: be in candidates <==> be in eligible && NotLagging(eligible.Keys, eligible, cfg.maxBlockLag, be)
      ensures forall be :: be in candidates ==> candidates[be] == eligible[be]
    {
      var highest: U64 := 0;
      var left := eligible.Keys;
      while left != {}
        invariant left <= eligible.Keys
        invariant forall e :: e in eligible.Keys - left ==> eligible[e].latestBlockNumber <= highest
        invariant highest == 0 || exists e :: e in eligible && eligible[e].latestBlockNumber == highest
      {
        var be :| be in left;
        left := left - {be};
        if eligible[be].latestBlockNumber > highest {
          highest := eligible[be].latestBlockNumber;
        }
      }
      var lagging: seq<Backend> := [];
      left := eligible.Keys;
      while left != {}
        invariant left <= eligible.Keys
        invariant forall be :: be in lagging <==>
          be in eligible.Keys - left && highest - eligible[be].latestBlockNumber > cfg.maxBlockLag
      {
        var be :| be in left;
        left := left - {be};
        // the recorded heights never exceed `highest`, so the unsigned difference is the real one
        if Sub64(highest, eligible[be].latestBlockNumber) > cfg.maxBlockLag {
          lagging := lagging + [be];
        }
      }
      candidates := eligible;
      for i := 0 to |lagging|
        invariant forall be :: be in candidates <==> be in eligible && be !in lagging[..i]
        invariant forall be :: be in candidates ==> candidates[be] == eligible[be]
      {
        candidates := candidates - {lagging[i]};
      }
      assert lagging[..|lagging|] == lagging;
    }

    /** Where a round looks for candidates: the primaries, or the fallbacks if no primary is a candidate. */
    ghost function RoundList(now: Time, healthy: Health): seq<Backend>
      requires Valid()
      reads this
    {
      var primaries := Select(backends, IsPrimary(fallbackBackends));
      if Candidates(cfg, primaries, backendState, now, healthy) != map[] then primaries
      else Select(backends, IsFallback(fallbackBackends))
    }

    ghost function RoundCandidates(now: Time, healthy: Health): Table
      requires Valid()
      reads this
    {
      Candidates(cfg, RoundList(now, healthy), backendState, now, healthy)
    }

    /** Primaries first; fallbacks only when no primary is eligible. */
    method GetConsensusCandidates(now: Time, healthy: Health) returns (candidates: Table)
      requires Valid()
      ensures candidates == RoundCandidates(now, healthy)
      ensures AreCandidates(cfg, RoundList(now, healthy), backendState, now, healthy, candidates)
      ensures RoundList(now, healthy) != Select(backends, IsPrimary(fallbackBackends)) ==>
                EligibleSet(cfg, Select(backends, IsPrimary(fallbackBackends)), backendState, now, healthy) == {}
    {
      var primaries := Primaries();
      candidates := FilterCandidates(primaries, now, healthy);
      CandidatesWithinLag(cfg, primaries, backendState, now, healthy, candidates);
      CandidatesUnique(cfg, primaries, backendState, now, healthy, candidates);
      if candidates != map[] {
        return;
      }
      var fallbacks := Fallbacks();
      candidates := FilterCandidates(fallbacks, now, healthy);
      CandidatesUnique(cfg, fallbacks, backendState, now, healthy, candidates);
    }

    /** A genesis block the whole group agrees on ends every round, in any orders, before the counter wraps. */
    lemma GenesisHalts(now: Time, healthy: Health, fetch: Fetch, orders: Orders)
      requires Valid() && Agree(Members(backends), fetch, 0, "")
      requires OrdersOf(orders, RoundCandidates(now, healthy).Keys)
      requires Tip(orders.fold, RoundCandidates(now, healthy)).0 < |orders.visits|
      ensures RoundEnds(orders, RoundCandidates(now, healthy), fetch)
    {
      var candidates := RoundCandidates(now, healthy);
      var (lowest, hash) := Tip(orders.fold, candidates);
      AgreeOnFewer(candidates.Keys, Members(backends), fetch, 0);
      if lowest != 0 {
        StepOfBlock(candidates.Keys, fetch, lowest, hash, 0);
        PassesIfAgreed(candidates.Keys, orders.visits[lowest], fetch, lowest, hash, lowest);
        FirstPassing(orders.visits, fetch, lowest, hash, lowest);
      }
    }

    /** Candidates are never banned: the filter drops banned backends, and forced ones cannot be banned. */
    lemma CandidatesNotBanned(list: seq<Backend>, now: Time, healthy: Health, candidates: Table)
      requires Valid() && clock <= now
      requires forall be :: be in list ==> be in backends
      requires forall be :: be in list ==> be in backendState
      requires AreCandidates(cfg, list, backendState, now, healthy, candidates)
      ensures forall be :: be in candidates ==> be in list && candidates[be] == backendState[be]
      ensures forall be :: be in candidates ==> !backendState[be].IsBanned(now)
      ensures (forall be :: be in candidates ==> !be.forcedCandidate) ==> AllInOrder(candidates)
    {
    }

    /** The serving group: the candidates in configuration order, all from one list, none of them banned. */
    ghost predicate Serves(now: Time, healthy: Health, group: seq<Backend>)
      requires Valid()
      reads this
    {
      var primaries, list := Select(backends, IsPrimary(fallbackBackends)), RoundList(now, healthy);
      && group == Select(backends, IsIn(RoundCandidates(now, healthy).Keys))
      && AreCandidates(cfg, list, backendState, now, healthy, RoundCandidates(now, healthy))
      && (list != primaries ==> EligibleSet(cfg, primaries, backendState, now, healthy) == {})
      && (forall be :: be in group ==> be in list && !backendState[be].IsBanned(now))
    }

    /** A backend fit to serve: forced, or out of any ban, healthy, connected, in sync and recently updated. */
    predicate Fit(be: Backend, now: Time, healthy: Health)
      requires be in backendState
      reads this
    {
      var bs := backendState[be];
      || be.forcedCandidate
      || (&& bs.bannedUntil <= now
          && healthy(be)
          && (bs.peerCount >= cfg.minPeerCount || be.skipPeerCountCheck)
          && bs.inSync
          && now - bs.lastUpdate <= cfg.maxUpdateThreshold)
    }

    predicate ConfiguredAs(be: Backend, fallback: bool) {
      be in backends && be.name in fallbackBackends && fallbackBackends[be.name] == fallback
    }

    /** Fit, and no more than the lag limit behind any fit backend of its kind. */
    ghost predicate KeepsUp(be: Backend, fallback: bool, now: Time, healthy: Health)
      requires Valid()
      reads this
    {
      && ConfiguredAs(be, fallback) && Fit(be, now, healthy)
      && (forall x :: ConfiguredAs(x, fallback) && Fit(x, now, healthy) ==>
            backendState[x].latestBlockNumber - backendState[be].latestBlockNumber <= cfg.maxBlockLag)
    }

    /**
     Who is in the serving group, from configuration and state alone: the primaries that keep up, or
     the fallbacks that keep up if no primary is fit.
     */
    lemma WhoServes(now: Time, healthy: Health, group: seq<Backend>, be: Backend)
      requires Valid() && Serves(now, healthy, group)
      ensures be in group <==>
              || KeepsUp(be, false, now, healthy)
              || (KeepsUp(be, true, now, healthy) && forall x :: ConfiguredAs(x, false) ==> !Fit(x, now, healthy))
    {
      var primaries := Select(backends, IsPrimary(fallbackBackends));
      var first := Candidates(cfg, primaries, backendState, now, healthy);
      CandidatesWithinLag(cfg, primaries, backendState, now, healthy, first);
      FitIsEligible(primaries, false, now, healthy);
      OfOneKind(primaries, false, now, healthy, be);
      if first == map[] {
        var fallbacks := Select(backends, IsFallback(fallbackBackends));
        FitIsEligible(fallbacks, true, now, healthy);
        OfOneKind(fallbacks, true, now, healthy, be);
      } else {
        SomeoneFit(primaries, now, healthy);
      }
    }

    lemma SomeoneFit(list: seq<Backend>, now: Time, healthy: Health)
      requires Valid() && (forall x :: x in list <==> ConfiguredAs(x, false)) && (forall x :: x in list ==> x in backendState)
      requires EligibleSet(cfg, list, backendState, now, healthy) != {}
      ensures exists x :: ConfiguredAs(x, false) && Fit(x, now, healthy)
    {
      var x :| x in EligibleSet(cfg, list, backendState, now, healthy);
      assert ConfiguredAs(x, false) && Fit(x, now, healthy);
    }

    lemma FitIsEligible(list: seq<Backend>, fallback: bool, now: Time, healthy: Health)
      requires Valid() && forall x :: x in list <==> ConfiguredAs(x, fallback)
      ensures forall x :: x in list ==> x in backendState
      ensures forall x :: x in EligibleSet(cfg, list, backendState, now, healthy) <==>
                ConfiguredAs(x, fallback) && Fit(x, now, healthy)
    {
    }

    lemma OfOneKind(list: seq<Backend>, fallback: bool, now: Time, healthy: Health, be: Backend)
      requires Valid() && (forall x :: x in list <==> ConfiguredAs(x, fallback)) && (forall x :: x in list ==> x in backendState)
      requires forall x :: x in EligibleSet(cfg, list, backendState, now, healthy) <==>
                 ConfiguredAs(x, fallback) && Fit(x, now, healthy)
      ensures be in Candidates(cfg, list, backendState, now, healthy) <==> KeepsUp(be, fallback, now, healthy)
    {
    }

    /** Everything a round computes before it publishes. */
    method ResolveRound(now: Time, healthy: Health, fetch: Fetch, orders: Orders) returns (round: Round)
      requires Valid() && clock <= now
      requires OrdersOf(orders, RoundCandidates(now, healthy).Keys) && RoundEnds(orders, RoundCandidates(now, healthy), fetch)
      ensures Resolved(orders, RoundCandidates(now, healthy), fetch, latest, round)
      ensures Serves(now, healthy, round.group)
    {
      var candidates := GetConsensusCandidates(now, healthy);
      CandidatesNotBanned(RoundList(now, healthy), now, healthy, candidates);
      round := ResolveHeights(orders, candidates, fetch, latest);
      var group := BuildGroup(candidates);
      round := round.(group := group);
    }

    /** One round: resolve, notify the listeners if consensus broke, publish. */
    method UpdateBackendGroupConsensus(now: Time, healthy: Health, fetch: Fetch, orders: Orders) returns (round: Round)
      requires Valid() && clock <= now
      requires OrdersOf(orders, RoundCandidates(now, healthy).Keys) && RoundEnds(orders, RoundCandidates(now, healthy), fetch)
      modifies this
      ensures Valid() && clock == now && backendState == old(backendState)
      ensures old(Resolved(orders, RoundCandidates(now, healthy), fetch, latest, round))
      ensures old(Serves(now, healthy, round.group))
      ensures latest == round.latest && safe == round.safe && finalized == round.finalized
      ensures consensusGroup == round.group
      ensures brokenEvents == old(brokenEvents) + if round.broken then 1 else 0
    {
      round := ResolveRound(now, healthy, fetch, orders);
      Publish(round, now);
    }

    method Publish(round: Round, now: Time)
      requires Valid() && clock <= now
      modifies this
      ensures Valid() && clock == now && backendState == old(backendState)
      ensures latest == round.latest && safe == round.safe && finalized == round.finalized
      ensures consensusGroup == round.group
      ensures brokenEvents == old(brokenEvents) + if round.broken then 1 else 0
    {
      if round.broken {
        brokenEvents := brokenEvents + 1;
      }
      latest, safe, finalized := round.latest, round.safe, round.finalized;
      consensusGroup := round.group;
      clock := now;
    }

    method BuildGroup(candidates: Table) returns (group: seq<Backend>)
      ensures group == Select(backends, IsIn(candidates.Keys))
    {
      group := [];
      for i := 0 to |backends|
        invariant group == Select(backends[..i], IsIn(candidates.Keys))
      {
        assert backends[..i + 1][..i] == backends[..i];
        if backends[i] in candidates {
          group := group + [backends[i]];
        }
      }
      assert backends[..|backends|] == backends;
    }
  }

  // ---------- what a round publishes ----------

  /** The latest block of a round, and whether consensus broke: where its walk-back ends, and what it met on the way. */
  ghost predicate WalkResolves(
    visits: Visits, fetch: Fetch, lowest: U64, hash: string, current: U64, latest: U64, broken: bool)
  {
    if lowest == 0 then latest == 0 && !broken
    else
      && EndsWith(visits, fetch, lowest, hash, latest)
      && (forall k: nat :: EndsAt(visits, fetch, lowest, hash, k) ==>
            (broken <==> BreaksBefore(visits, fetch, lowest, hash, current, k)))
  }

  ghost predicate Resolved(orders: Orders, candidates: Table, fetch: Fetch, current: U64, round: Round)
    requires OrdersOf(orders, candidates.Keys)
  {
    var (lowest, hash) := Tip(orders.fold, candidates);
    && round.safe == Folded(orders.fold, candidates, SafeOf)
    && round.finalized == Folded(orders.fold, candidates, FinalizedOf)
    && WalkResolves(orders.visits, fetch, lowest, hash, current, round.latest, round.broken)
  }

  /** Fold, then walk back. */
  method ResolveHeights(orders: Orders, candidates: Table, fetch: Fetch, current: U64) returns (round: Round)
    requires OrdersOf(orders, candidates.Keys) && RoundEnds(orders, candidates, fetch)
    ensures Resolved(orders, candidates, fetch, current, round) && round.group == []
  {
    var lowestLatest, lowestHash, lowestSafe, lowestFinalized := FoldHeights(orders.fold, candidates);
    var proposed, broken := lowestLatest, false;
    if proposed > 0 {
      proposed, broken := WalkBack(orders.visits, fetch, lowestLatest, lowestHash, current);
    }
    round := Round(proposed, lowestSafe, lowestFinalized, broken, []);
  }

  /**
   What a round's heights mean, in whatever orders it was resolved. Safe and finalized stay ordered
   below the lowest latest block, set heights are true minima, and when the candidates agree on some
   block at or below the lowest one, the published latest is at most that; it is the greatest agreed
   block if hashes are never blank; and the round is broken exactly when disagreement forced the
   served block back, if backends answer the number they are asked for.
   */
  lemma RoundMeaning(orders: Orders, candidates: Table, fetch: Fetch, current: U64, round: Round)
    requires OrdersOf(orders, candidates.Keys) && Resolved(orders, candidates, fetch, current, round)
    ensures AllInOrder(candidates) ==> round.finalized <= round.safe <= Tip(orders.fold, candidates).0
    ensures candidates != map[] ==>
              && (AllSet(candidates, LatestOf) ==> IsMinimum(candidates, LatestOf, Tip(orders.fold, candidates).0))
              && (AllSet(candidates, SafeOf) ==> IsMinimum(candidates, SafeOf, round.safe))
              && (AllSet(candidates, FinalizedOf) ==> IsMinimum(candidates, FinalizedOf, round.finalized))
    ensures var (lowest, hash) := Tip(orders.fold, candidates);
            lowest != 0 && AgreesBelow(candidates.Keys, fetch, lowest, hash) ==>
              && RecordedBy(candidates, lowest, hash)
              && round.latest <= lowest
              && (NoBlankHashes(candidates.Keys, fetch) ==> GreatestAgreed(candidates.Keys, fetch, lowest, hash, round.latest))
              && (AnswersAsked(candidates.Keys, fetch) ==> (round.broken <==> round.latest < lowest && round.latest < current))
  {
    FoldMeaning(orders.fold, candidates);
    var (lowest, hash) := Tip(orders.fold, candidates);
    if lowest != 0 && AgreesBelow(candidates.Keys, fetch, lowest, hash) {
      WalkMeaning(orders.visits, candidates.Keys, fetch, lowest, hash, current, round.latest, round.broken);
    }
  }

  lemma WalkMeaning(
    visits: Visits, cs: set<Backend>, fetch: Fetch, lowest: U64, hash: string, current: U64, latest: U64, broken: bool)
    requires AreVisits(visits, cs) && lowest != 0 && AgreesBelow(cs, fetch, lowest, hash)
    requires WalkResolves(visits, fetch, lowest, hash, current, latest, broken)
    ensures latest <= lowest
    ensures NoBlankHashes(cs, fetch) ==> GreatestAgreed(cs, fetch, lowest, hash, latest)
    ensures AnswersAsked(cs, fetch) ==> (broken <==> latest < lowest && latest < current)
  {
    var k: nat :| EndsAt(visits, fetch, lowest, hash, k) && BlockAt(lowest, k) == latest;
    EndsBelowStart(cs, visits, fetch, lowest, hash, k);
    if NoBlankHashes(cs, fetch) {
      WalkFindsGreatest(cs, visits, fetch, lowest, hash, k);
    }
    if AnswersAsked(cs, fetch) {
      BrokenIsForcedRollback(cs, visits, fetch, lowest, hash, current, k);
    }
  }

  lemma AgreeOnFewer(cs: set<Backend>, ds: set<Backend>, fetch: Fetch, b: U64)
    requires cs <= ds && Agree(ds, fetch, b, "")
    ensures Agree(cs, fetch, b, "")
  {
    var g :| AgreeOn(ds, fetch, b, g);
    assert AgreeOn(cs, fetch, b, g);
  }
}
