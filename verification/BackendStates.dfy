/**
 The per-backend record kept by the consensus poller, and every way it changes: a poll of the
 backend, an explicit ban or unban, and a reset of the whole table.

 One poll is one step; what the backend answered during that poll is an `Observation`.
 */
module BackendStates {

  import opened Words

  /** Instants and durations; Go's zero `time.Time` is instant 0. */
  type Time = int

  const UNBAN_OFFSET: Time := 10 * 3600

  /** Backends are interned by name, so the record stands for the object. */
  datatype Backend = Backend(name: string, forcedCandidate: bool, skipPeerCountCheck: bool)

  datatype BackendState = BackendState(
    latestBlockNumber: U64,
    latestBlockHash: string,
    safeBlockNumber: U64,
    finalizedBlockNumber: U64,
    peerCount: U64,
    inSync: bool,
    lastUpdate: Time,
    bannedUntil: Time)
  {
    predicate IsBanned(now: Time) {
      now < bannedUntil
    }
  }

  const ZERO_STATE := BackendState(0, "", 0, 0, 0, false, 0, 0)

  /** What one poll hears; `None` is a failed call. */
  datatype Observation = Observation(
    healthy: bool,
    inSync: Option<bool>,
    peerCount: Option<U64>,
    latest: Option<(U64, string)>,
    safe: Option<U64>,
    finalized: Option<U64>)

  datatype Event =
    | Poll(be: Backend, now: Time, obs: Observation)
    | Ban(be: Backend, now: Time)
    | Unban(be: Backend, now: Time)
    | Reset

  type Table = map<Backend, BackendState>

  predicate ExpectedBlockTags(latest: U64, oldSafe: U64, safe: U64, oldFinalized: U64, finalized: U64) {
    && finalized >= oldFinalized
    && safe >= oldSafe
    && finalized <= safe
    && safe <= latest
  }

  /** A poll stores something only when every call answered and no height or peer count was zero. */
  predicate Usable(be: Backend, obs: Observation) {
    && obs.inSync.Some?
    && (be.skipPeerCountCheck || (obs.peerCount.Some? && obs.peerCount.value != 0))
    && obs.latest.Some? && obs.latest.value.0 != 0
    && obs.safe.Some? && obs.safe.value != 0
    && obs.finalized.Some? && obs.finalized.value != 0
  }

  function Banned(bs: BackendState, until: Time): BackendState {
    bs.(bannedUntil := until, latestBlockNumber := 0, safeBlockNumber := 0, finalizedBlockNumber := 0)
  }

  function Stored(be: Backend, bs: BackendState, now: Time, obs: Observation): BackendState
    requires Usable(be, obs)
  {
    bs.(latestBlockNumber := obs.latest.value.0,
        latestBlockHash := obs.latest.value.1,
        safeBlockNumber := obs.safe.value,
        finalizedBlockNumber := obs.finalized.value,
        peerCount := if be.skipPeerCountCheck then 0 else obs.peerCount.value,
        inSync := obs.inSync.value,
        lastUpdate := now)
  }

  function Polled(banPeriod: Time, be: Backend, bs: BackendState, now: Time, obs: Observation): BackendState {
    if bs.IsBanned(now) then
      bs
    else if !obs.healthy && !be.forcedCandidate then
      Banned(bs, now + banPeriod)
    else if !Usable(be, obs) then
      bs
    else
      var stored := Stored(be, bs, now, obs);
      if be.forcedCandidate || ExpectedBlockTags(
           stored.latestBlockNumber, bs.safeBlockNumber, stored.safeBlockNumber,
           bs.finalizedBlockNumber, stored.finalizedBlockNumber)
      then stored
      else Banned(stored, now + banPeriod)
  }

  function Step(banPeriod: Time, m: Table, e: Event): (m': Table)
    ensures m'.Keys == m.Keys
  {
    match e
    case Poll(be, now, obs) =>
      if be in m then m[be := Polled(banPeriod, be, m[be], now, obs)] else m
    case Ban(be, now) =>
      if be in m && !be.forcedCandidate then m[be := Banned(m[be], now + banPeriod)] else m
    case Unban(be, now) =>
      if be in m then m[be := m[be].(bannedUntil := now - UNBAN_OFFSET)] else m
    case Reset =>
      map be | be in m :: ZERO_STATE
  }

  function Initial(backends: seq<Backend>): Table {
    map be | be in backends :: ZERO_STATE
  }

  function Run(banPeriod: Time, m: Table, es: seq<Event>): (m': Table)
    ensures m'.Keys == m.Keys
  {
    if es == [] then m
    else Step(banPeriod, Run(banPeriod, m, es[..|es| - 1]), es[|es| - 1])
  }

  // ---------- what one event does ----------

  /** Every call of the poll answered, with non-zero peers and heights. */
  predicate Complete(be: Backend, obs: Observation) {
    && obs.inSync.Some? && obs.latest.Some? && obs.safe.Some? && obs.finalized.Some?
    && (be.skipPeerCountCheck || (obs.peerCount.Some? && obs.peerCount.value > 0))
    && obs.latest.value.0 > 0 && obs.safe.value > 0 && obs.finalized.value > 0
  }

  /** The blocks a complete poll has heard of. */
  datatype Reading = Reading(latest: U64, hash: string, safe: U64, finalized: U64)

  function ReadingOf(be: Backend, obs: Observation): Reading
    requires Complete(be, obs)
  {
    Reading(obs.latest.value.0, obs.latest.value.1, obs.safe.value, obs.finalized.value)
  }

  /** The tags read went back behind the stored ones, or are out of order. */
  predicate Regresses(bs: BackendState, r: Reading) {
    r.finalized < bs.finalizedBlockNumber || r.safe < bs.safeBlockNumber || !(r.finalized <= r.safe <= r.latest)
  }

  /** The state holds exactly what the poll observed, and the ban time it had. */
  predicate Records(be: Backend, bs: BackendState, now: Time, obs: Observation, bs': BackendState)
    requires Complete(be, obs)
  {
    && (bs'.latestBlockNumber, bs'.latestBlockHash) == obs.latest.value
    && bs'.safeBlockNumber == obs.safe.value && bs'.finalizedBlockNumber == obs.finalized.value
    && bs'.peerCount == (if be.skipPeerCountCheck then 0 else obs.peerCount.value)
    && bs'.inSync == obs.inSync.value && bs'.lastUpdate == now && bs'.bannedUntil == bs.bannedUntil
  }

  /** No heights are left, and the ban runs for the whole period from now. */
  predicate FreshlyBanned(banPeriod: Time, now: Time, bs': BackendState) {
    && bs'.latestBlockNumber == 0 && bs'.safeBlockNumber == 0 && bs'.finalizedBlockNumber == 0
    && bs'.bannedUntil == now + banPeriod
  }

  /**
   What a poll does to an unbanned backend. An unhealthy one is banned unless forced; an incomplete
   answer changes nothing; a complete one bans the backend iff its tags regress or are out of order
   and it is not forced, and is otherwise stored as observed.
   */
  lemma PollExact(banPeriod: Time, m: Table, be: Backend, now: Time, obs: Observation)
    requires be in m && m[be].bannedUntil <= now
    ensures var bs, bs' := m[be], Step(banPeriod, m, Poll(be, now, obs))[be];
            && (!obs.healthy && !be.forcedCandidate ==> FreshlyBanned(banPeriod, now, bs'))
            && (obs.healthy || be.forcedCandidate ==>
                  if !Complete(be, obs) then bs' == bs
                  else
                    && (FreshlyBanned(banPeriod, now, bs') <==> !be.forcedCandidate && Regresses(bs, ReadingOf(be, obs)))
                    && (be.forcedCandidate || !Regresses(bs, ReadingOf(be, obs)) ==> Records(be, bs, now, obs, bs')))
  {
  }

  /** A banned backend is not polled, and no event about one backend touches another. */
  lemma EventFrame(banPeriod: Time, m: Table, e: Event, be: Backend)
    requires be in m && !e.Reset?
    ensures e.be != be ==> Step(banPeriod, m, e)[be] == m[be]
    ensures e.Poll? && e.now < m[be].bannedUntil ==> Step(banPeriod, m, e)[be] == m[be]
  {
  }

  /** Bans, unbans and resets. */
  lemma BanUnbanReset(banPeriod: Time, m: Table, be: Backend, now: Time)
    requires be in m
    ensures be.forcedCandidate ==> Step(banPeriod, m, Ban(be, now))[be] == m[be]
    ensures !be.forcedCandidate ==> FreshlyBanned(banPeriod, now, Step(banPeriod, m, Ban(be, now))[be])
    ensures var bs' := Step(banPeriod, m, Unban(be, now))[be];
            !bs'.IsBanned(now) && bs' == m[be].(bannedUntil := bs'.bannedUntil)
    ensures Step(banPeriod, m, Reset)[be] == BackendState(0, "", 0, 0, 0, false, 0, 0)
  {
  }

  // ---------- exactly when polls ban ----------

  /** What the complete polls of `be` have read, in order. */
  function Readings(es: seq<Event>, be: Backend): seq<Reading> {
    if es == [] then []
    else
      var e := es[|es| - 1];
      Readings(es[..|es| - 1], be) + if e.Poll? && e.be == be && Complete(be, e.obs) then [ReadingOf(be, e.obs)] else []
  }

  /** Each reading has its tags in order, and safe and finalized never fall behind the reading before. */
  predicate Advancing(rs: seq<Reading>) {
    && (forall i :: 0 <= i < |rs| ==> rs[i].finalized <= rs[i].safe <= rs[i].latest)
    && (forall i :: 0 < i < |rs| ==> rs[i - 1].finalized <= rs[i].finalized && rs[i - 1].safe <= rs[i].safe)
  }

  /** The only things that happen to `be` are polls while it is healthy; other backends do as they like. */
  predicate OnlyPolled(es: seq<Event>, be: Backend) {
    forall i :: 0 <= i < |es| ==> PolledOrElsewhere(es[i], be)
  }

  predicate PolledOrElsewhere(e: Event, be: Backend) {
    !e.Reset? && (e.be == be ==> e.Poll? && e.obs.healthy && 0 <= e.now)
  }

  /** No step of the run bans `be`. */
  predicate NeverBans(banPeriod: Time, m: Table, es: seq<Event>, be: Backend)
    requires be in m
  {
    if es == [] then true
    else
      var n := |es| - 1;
      NeverBans(banPeriod, m, es[..n], be) && !BansIn(banPeriod, Run(banPeriod, m, es[..n]), es[n], be)
  }

  /** The state holds the last reading, or nothing if there was none yet, and no ban. */
  predicate HoldsLast(rs: seq<Reading>, bs: BackendState) {
    && bs.bannedUntil == 0
    && if rs == [] then AllZero(bs)
       else Reading(bs.latestBlockNumber, bs.latestBlockHash, bs.safeBlockNumber, bs.finalizedBlockNumber) == rs[|rs| - 1]
  }

  /**
   A healthy backend is never banned by its polls iff its readings advance; and as long as they do,
   its state holds the last of them.
   */
  lemma {:induction false} NeverBannedIffAdvancing(banPeriod: Time, backends: seq<Backend>, es: seq<Event>, be: Backend)
    requires 0 < banPeriod && be in backends && !be.forcedCandidate && OnlyPolled(es, be)
    ensures NeverBans(banPeriod, Initial(backends), es, be) <==> Advancing(Readings(es, be))
    ensures Advancing(Readings(es, be)) ==> HoldsLast(Readings(es, be), Run(banPeriod, Initial(backends), es)[be])
  {
    if es != [] {
      var n := |es| - 1;
      NeverBannedIffAdvancing(banPeriod, backends, es[..n], be);
      PrefixAdvancing(Readings(es[..n], be), Readings(es, be));
      if Advancing(Readings(es[..n], be)) {
        assert PolledOrElsewhere(es[n], be);
        NextPoll(banPeriod, Run(banPeriod, Initial(backends), es[..n]), es[n], be, Readings(es[..n], be));
      }
    }
  }

  lemma PrefixAdvancing(rs: seq<Reading>, rs': seq<Reading>)
    requires rs <= rs'
    ensures Advancing(rs') ==> Advancing(rs)
  {
    assert forall i :: 0 <= i < |rs| ==> rs[i] == rs'[i];
  }

  /** One more event, as long as the readings have been advancing. */
  lemma NextPoll(banPeriod: Time, m: Table, e: Event, be: Backend, rs: seq<Reading>)
    requires 0 < banPeriod && be in m && !be.forcedCandidate && PolledOrElsewhere(e, be)
    requires Advancing(rs) && HoldsLast(rs, m[be])
    ensures var rs' := rs + if e.Poll? && e.be == be && Complete(be, e.obs) then [ReadingOf(be, e.obs)] else [];
            && (BansIn(banPeriod, m, e, be) <==> !Advancing(rs'))
            && (Advancing(rs') ==> HoldsLast(rs', Step(banPeriod, m, e)[be]))
  {
    if e.be == be && Complete(be, e.obs) {
      PollExact(banPeriod, m, be, e.now, e.obs);
      AdvanceByOne(rs, ReadingOf(be, e.obs), m[be]);
    } else {
      EventFrame(banPeriod, m, e, be);
      assert rs + [] == rs;
      if e.be == be {
        PollExact(banPeriod, m, be, e.now, e.obs);
      }
    }
  }

  /** A further reading keeps the advance iff it does not regress behind the state that holds the last one. */
  lemma AdvanceByOne(rs: seq<Reading>, r: Reading, bs: BackendState)
    requires Advancing(rs) && HoldsLast(rs, bs)
    ensures Advancing(rs + [r]) <==> !Regresses(bs, r)
  {
    var rs' := rs + [r];
    assert rs'[|rs|] == r;
    assert forall i :: 0 <= i < |rs| ==> rs'[i] == rs[i];
  }

  // ---------- heights of reachable states ----------

  predicate AllZero(bs: BackendState) {
    bs.latestBlockNumber == bs.safeBlockNumber == bs.finalizedBlockNumber == 0
  }

  /** All three heights unset, or all three set and in order. */
  predicate HeightsInOrder(bs: BackendState) {
    || AllZero(bs)
    || 0 < bs.finalizedBlockNumber <= bs.safeBlockNumber <= bs.latestBlockNumber
  }

  lemma {:induction false} ReachableHeightsInOrder(banPeriod: Time, backends: seq<Backend>, es: seq<Event>, be: Backend)
    requires be in backends && !be.forcedCandidate
    ensures HeightsInOrder(Run(banPeriod, Initial(backends), es)[be])
  {
    if es != [] {
      ReachableHeightsInOrder(banPeriod, backends, es[..|es| - 1], be);
    }
  }

  /** `e` takes `be` from table `m` into a fresh ban. */
  predicate BansIn(banPeriod: Time, m: Table, e: Event, be: Backend)
    requires be in m
  {
    && (e.Poll? || e.Ban?)
    && e.be == be
    && Step(banPeriod, m, e)[be].bannedUntil == e.now + banPeriod
    && AllZero(Step(banPeriod, m, e)[be])
  }

  lemma HeightsDropOnlyOnBanOrReset(banPeriod: Time, m: Table, e: Event, be: Backend)
    requires be in m && !be.forcedCandidate
    requires !e.Reset? && !BansIn(banPeriod, m, e, be)
    ensures m[be].safeBlockNumber <= Step(banPeriod, m, e)[be].safeBlockNumber
    ensures m[be].finalizedBlockNumber <= Step(banPeriod, m, e)[be].finalizedBlockNumber
  {
  }

  /** No event of `es`, run from `m`, resets the table or bans `be`. */
  predicate Undisturbed(banPeriod: Time, m: Table, es: seq<Event>, be: Backend)
    requires be in m
  {
    NeverBans(banPeriod, m, es, be) && forall i :: 0 <= i < |es| ==> !es[i].Reset?
  }

  lemma {:induction false} HeightsMonotoneBetweenBans(banPeriod: Time, m: Table, es: seq<Event>, be: Backend)
    requires be in m && !be.forcedCandidate
    requires Undisturbed(banPeriod, m, es, be)
    ensures m[be].safeBlockNumber <= Run(banPeriod, m, es)[be].safeBlockNumber
    ensures m[be].finalizedBlockNumber <= Run(banPeriod, m, es)[be].finalizedBlockNumber
  {
    if es != [] {
      var n := |es| - 1;
      HeightsMonotoneBetweenBans(banPeriod, m, es[..n], be);
      HeightsDropOnlyOnBanOrReset(banPeriod, Run(banPeriod, m, es[..n]), es[n], be);
    }
  }

  /** `e` neither resets the table nor lifts the ban of `be`, and finds it banned until `until`. */
  predicate WithinBan(banPeriod: Time, e: Event, be: Backend, until: Time) {
    !e.Reset? && (e.be == be ==> !e.Unban? && until - banPeriod <= e.now < until)
  }

  /** A banned backend keeps no heights and stays banned, whatever it answers, until the ban ends. */
  lemma {:induction false} BanLasts(banPeriod: Time, m: Table, es: seq<Event>, be: Backend, until: Time)
    requires be in m && !be.forcedCandidate
    requires AllZero(m[be]) && until <= m[be].bannedUntil
    requires forall i :: 0 <= i < |es| ==> WithinBan(banPeriod, es[i], be, until)
    ensures AllZero(Run(banPeriod, m, es)[be]) && until <= Run(banPeriod, m, es)[be].bannedUntil
  {
    if es != [] {
      BanLasts(banPeriod, m, es[..|es| - 1], be, until);
      assert WithinBan(banPeriod, es[|es| - 1], be, until);
    }
  }

  // ---------- forced candidates ----------

  function Clock(es: seq<Event>): Time
  {
    if es == [] then 0
    else if es[|es| - 1].Reset? then Clock(es[..|es| - 1])
    else es[|es| - 1].now
  }

  /** Event times start at or after the zero time and never go back. */
  predicate ClockRuns(es: seq<Event>) {
    es == [] || (ClockRuns(es[..|es| - 1]) && Clock(es[..|es| - 1]) <= Clock(es))
  }

  lemma {:induction false} ClockNeverNegative(es: seq<Event>)
    requires ClockRuns(es)
    ensures 0 <= Clock(es)
  {
    if es != [] {
      ClockNeverNegative(es[..|es| - 1]);
    }
  }

  lemma {:induction false} ForcedNeverBanned(banPeriod: Time, backends: seq<Backend>, es: seq<Event>, be: Backend, now: Time)
    requires be in backends && be.forcedCandidate
    requires ClockRuns(es) && Clock(es) <= now
    ensures !Run(banPeriod, Initial(backends), es)[be].IsBanned(now)
  {
    if es != [] {
      ForcedNeverBanned(banPeriod, backends, es[..|es| - 1], be, now);
      ClockNeverNegative(es);
    }
  }
}
