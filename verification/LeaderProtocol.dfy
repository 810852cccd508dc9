/**
 Leader election of the shared consensus tracker: any number of proxies, one expiring Redis lock.

 A heartbeat is cut at its Redis calls; every call is one atomic action, and actions of different
 proxies interleave arbitrarily with each other, with the local pollers and with key expiry. A call
 that reports an error may or may not have taken effect. An action that is not enabled changes
 nothing, so every list of actions is a run.
 */
module LeaderProtocol {

  import opened Words

  type Pid = nat
  type Token = nat

  datatype Component = Latest | Safe | Finalized

  datatype Heights = Heights(latest: U64, safe: U64, finalized: U64) {
    function Get(c: Component): U64 {
      match c case Latest => latest case Safe => safe case Finalized => finalized
    }

    function Set(c: Component, n: U64): Heights {
      match c
      case Latest => this.(latest := n)
      case Safe => this.(safe := n)
      case Finalized => this.(finalized := n)
    }

    predicate Valid() {
      latest > 0 && safe > 0 && finalized > 0
    }

    predicate Behind(other: Heights) {
      latest < other.latest || safe < other.safe || finalized < other.finalized
    }
  }

  /** Where a heartbeat stands between two Redis calls. */
  datatype Phase =
    | Idle
    | Releasing
    | Extending(val: Token)
    | Posting(val: Token)
    | WritingState(val: Token, payload: Heights)
    | WritingLeader(val: Token)
    | Publishing
    | ReadingLeader(val: Token)
    | ReadingState(val: Token)
    | Following(payload: Heights)
    | Acquiring

  datatype Proxy = Proxy(
    leader: bool, redlock: Option<Token>, leaderName: Option<Pid>, local: Heights, remote: Heights, phase: Phase)

  const FRESH := Proxy(false, None, None, Heights(0, 0, 0), Heights(0, 0, 0), Idle)

  datatype System = System(
    proxies: map<Pid, Proxy>,
    lock: Option<Token>,
    states: map<Token, Heights>,
    leaders: map<Token, Pid>,
    acquiredBy: map<Token, Pid>)

  datatype Action =
    | Compute(p: Pid, c: Component, n: U64)
    | ReadLock(p: Pid, ok: bool)
    | Release(p: Pid, ok: bool, effective: bool)
    | Extend(p: Pid, ok: bool)
    | Marshal(p: Pid)
    | WriteState(p: Pid, ok: bool, effective: bool)
    | WriteLeader(p: Pid, ok: bool, effective: bool)
    | Publish(p: Pid)
    | ReadLeader(p: Pid, ok: bool)
    | ReadState(p: Pid, ok: bool)
    | Follow(p: Pid)
    | Acquire(p: Pid, token: Token, ok: bool, effective: bool)
    | Restart(p: Pid)
    | ExpireLock
    | ExpireState(token: Token)
    | ExpireLeader(token: Token)

  function Init(pids: set<Pid>): System {
    System(map p | p in pids :: FRESH, None, map[], map[], map[])
  }

  /** What the heartbeat does with the value it read from the lock. */
  function AfterRead(x: Proxy, lock: Option<Token>): Phase {
    if lock.Some? then
      if x.leader then Extending(lock.value) else ReadingLeader(lock.value)
    else if !x.local.Valid() || (x.remote.Valid() && x.local.Behind(x.remote)) then Idle
    else Acquiring
  }

  predicate HoldsLock(s: System, x: Proxy) {
    s.lock.Some? && s.lock == x.redlock
  }

  /** A lock request sets the key only if it is absent, and its random value is new. */
  predicate CanLock(s: System, token: Token) {
    s.lock.None? && token !in s.acquiredBy
  }

  function Locked(s: System, p: Pid, token: Token): System {
    s.(lock := Some(token), acquiredBy := s.acquiredBy[token := p])
  }

  predicate Environmental(a: Action) {
    a.ExpireLock? || a.ExpireState? || a.ExpireLeader?
  }

  function Act(s: System, a: Action): System {
    match a
    case ExpireLock => s.(lock := None)
    case ExpireState(t) => s.(states := s.states - {t})
    case ExpireLeader(t) => s.(leaders := s.leaders - {t})
    case _ =>
      if a.p !in s.proxies then s
      else
        var x := s.proxies[a.p];
        Served(s, a, x).(proxies := s.proxies[a.p := Next(s, a, x)])
  }

  /** The effect of a call of proxy `x` on the shared keys. */
  function Served(s: System, a: Action, x: Proxy): (s': System)
    ensures s'.proxies == s.proxies
  {
    match a
    case Release(_, ok, effective) =>
      if x.phase.Releasing? && HoldsLock(s, x) && (ok || effective) then s.(lock := None) else s
    case WriteState(_, ok, effective) =>
      if x.phase.WritingState? && (ok || effective) then s.(states := s.states[x.phase.val := x.phase.payload]) else s
    case WriteLeader(p, ok, effective) =>
      if x.phase.WritingLeader? && (ok || effective) then s.(leaders := s.leaders[x.phase.val := p]) else s
    case Acquire(p, token, ok, effective) =>
      if x.phase.Acquiring? && CanLock(s, token) && (ok || effective) then Locked(s, p, token) else s
    case _ => s
  }

  /** What proxy `x` becomes by its own action, given the keys it sees. */
  function Next(s: System, a: Action, x: Proxy): Proxy {
    match a
    case Compute(_, c, n) => x.(local := x.local.Set(c, n))
    case Restart(_) => FRESH
    case ReadLock(_, ok) =>
      if !x.phase.Idle? then x
      else if !ok then x.(phase := if x.leader then Releasing else Idle)
      else x.(phase := AfterRead(x, s.lock))
    case Release(_, ok, _) =>
      if !x.phase.Releasing? then x
      else x.(phase := Idle, leader := x.leader && !(HoldsLock(s, x) && ok))
    case Extend(_, ok) =>
      if !x.phase.Extending? then x
      else x.(phase := if ok && HoldsLock(s, x) then Posting(x.phase.val) else Releasing)
    case Marshal(_) =>
      if !x.phase.Posting? then x else x.(phase := WritingState(x.phase.val, x.local))
    case WriteState(_, ok, _) =>
      if !x.phase.WritingState? then x
      else if ok then x.(phase := WritingLeader(x.phase.val))
      else x.(phase := Idle, leader := false)
    case WriteLeader(_, ok, _) =>
      if !x.phase.WritingLeader? then x
      else if ok then x.(phase := Publishing)
      else x.(phase := Idle, leader := false)
    case Publish(p) =>
      if !x.phase.Publishing? then x else x.(remote := x.local, leaderName := Some(p), phase := Idle)
    case ReadLeader(_, ok) =>
      if !x.phase.ReadingLeader? then x
      else if !ok then x.(phase := Idle)
      else
        var v := x.phase.val;
        x.(leaderName := if v in s.leaders then Some(s.leaders[v]) else None, phase := ReadingState(v))
    case ReadState(_, ok) =>
      if !x.phase.ReadingState? then x
      else if ok && x.phase.val in s.states then x.(phase := Following(s.states[x.phase.val]))
      else x.(phase := Idle)
    case Follow(_) =>
      if !x.phase.Following? then x else x.(remote := x.phase.payload, phase := Idle)
    case Acquire(_, token, ok, _) =>
      if !x.phase.Acquiring? then x
      else if ok && CanLock(s, token) then x.(redlock := Some(token), leader := true, phase := Posting(token))
      else x.(leader := false, phase := Idle)
    case _ => x
  }

  function Run(pids: set<Pid>, acts: seq<Action>): System {
    if acts == [] then Init(pids)
    else Act(Run(pids, acts[..|acts| - 1]), acts[|acts| - 1])
  }

  // ---------- tokens ----------

  /** The proxy acquired the token it works under; an extension under its token is an extension of what it read. */
  predicate ProxyOk(s: System, p: Pid, x: Proxy) {
    && (x.redlock.Some? ==> x.redlock.value in s.acquiredBy && s.acquiredBy[x.redlock.value] == p)
    && (x.leader ==> x.redlock.Some?)
    && (x.phase.Posting? || x.phase.WritingState? || x.phase.WritingLeader? ==>
          x.phase.val in s.acquiredBy && s.acquiredBy[x.phase.val] == p)
    && (x.phase.Extending? && HoldsLock(s, x) ==> x.phase.val == s.lock.value)
  }

  /** Whatever an action does, tokens once acquired stay with their acquirer, and a new lock value is new. */
  lemma TokensOnlyGrow(s: System, a: Action)
    ensures forall t :: t in s.acquiredBy ==> t in Act(s, a).acquiredBy && Act(s, a).acquiredBy[t] == s.acquiredBy[t]
    ensures Act(s, a).lock == s.lock || Act(s, a).lock.None? ||
            (Act(s, a).lock.value !in s.acquiredBy && Act(s, a).lock.value in Act(s, a).acquiredBy)
  {
  }

  predicate Inv(s: System) {
    && LockKnown(s)
    && (forall p :: p in s.proxies ==> ProxyOk(s, p, s.proxies[p]))
  }

  lemma InvStep(s: System, a: Action)
    requires Inv(s)
    ensures Inv(Act(s, a))
  {
    TokensOnlyGrow(s, a);
    var s' := Act(s, a);
    forall p | p in s'.proxies ensures ProxyOk(s', p, s'.proxies[p]) {
      ProxyStep(s, a, p);
    }
  }

  /** What tokens and lock may do while a proxy stands still. */
  predicate TokensMove(s: System, s': System) {
    && (forall t :: t in s.acquiredBy ==> t in s'.acquiredBy && s'.acquiredBy[t] == s.acquiredBy[t])
    && (s'.lock == s.lock || s'.lock.None? || s'.lock.value !in s.acquiredBy)
  }

  lemma ProxyFrame(s: System, s': System, p: Pid, x: Proxy)
    requires ProxyOk(s, p, x) && TokensMove(s, s')
    ensures ProxyOk(s', p, x)
  {
  }

  predicate LockKnown(s: System) {
    s.lock.Some? ==> s.lock.value in s.acquiredBy
  }

  lemma OwnStep(s: System, a: Action, x: Proxy)
    requires LockKnown(s) && !Environmental(a) && ProxyOk(s, a.p, x)
    ensures ProxyOk(Served(s, a, x), a.p, Next(s, a, x))
  {
    if !a.Release? && !a.Acquire? {
      LockedStep(s, a, x);
    }
  }

  /** Every other action leaves the lock and the tokens alone. */
  lemma LockedStep(s: System, a: Action, x: Proxy)
    requires LockKnown(s) && !Environmental(a) && !a.Release? && !a.Acquire? && ProxyOk(s, a.p, x)
    ensures Served(s, a, x).lock == s.lock && Served(s, a, x).acquiredBy == s.acquiredBy
    ensures ProxyOk(s, a.p, Next(s, a, x))
  {
  }

  lemma OthersStandStill(s: System, a: Action, p: Pid)
    requires Environmental(a) || a.p != p
    ensures p in Act(s, a).proxies <==> p in s.proxies
    ensures p in s.proxies ==> Act(s, a).proxies[p] == s.proxies[p]
  {
  }

  lemma ProxyStep(s: System, a: Action, p: Pid)
    requires Inv(s) && p in Act(s, a).proxies
    ensures ProxyOk(Act(s, a), p, Act(s, a).proxies[p])
  {
    if !Environmental(a) && a.p == p {
      if p in s.proxies {
        OwnStep(s, a, s.proxies[p]);
      }
    } else {
      OthersStandStill(s, a, p);
      TokensOnlyGrow(s, a);
      ProxyFrame(s, Act(s, a), p, s.proxies[p]);
    }
  }

  lemma {:induction false} InvHolds(pids: set<Pid>, acts: seq<Action>)
    ensures Inv(Run(pids, acts))
  {
    if acts != [] {
      InvHolds(pids, acts[..|acts| - 1]);
      InvStep(Run(pids, acts[..|acts| - 1]), acts[|acts| - 1]);
    }
  }

  /** `a` puts something under token `t`: a new state, or a new leader name. */
  predicate WritesUnder(s: System, a: Action, t: Token) {
    var s' := Act(s, a);
    || (t in s'.states && (t !in s.states || s'.states[t] != s.states[t]))
    || (t in s'.leaders && (t !in s.leaders || s'.leaders[t] != s.leaders[t]))
  }

  /**
   In every run, what stands under a token is only ever written by the proxy that acquired the
   token, however long ago it lost the lock.
   */
  lemma OnlyAcquirerWrites(pids: set<Pid>, acts: seq<Action>, a: Action, t: Token)
    requires WritesUnder(Run(pids, acts), a, t)
    ensures !Environmental(a) && t in Run(pids, acts).acquiredBy && Run(pids, acts).acquiredBy[t] == a.p
  {
    InvHolds(pids, acts);
    var s := Run(pids, acts);
    if a.WriteState? || a.WriteLeader? {
      assert a.p in s.proxies && ProxyOk(s, a.p, s.proxies[a.p]);
    } else {
      KeysOnlyShrink(s, a);
    }
  }

  lemma KeysOnlyShrink(s: System, a: Action)
    requires !a.WriteState? && !a.WriteLeader?
    ensures forall t :: !WritesUnder(s, a, t)
  {
  }

  /** In every run, no two proxies hold the same token. */
  lemma TokensExclusive(pids: set<Pid>, acts: seq<Action>, p: Pid, q: Pid)
    requires p in Run(pids, acts).proxies && q in Run(pids, acts).proxies
    requires Run(pids, acts).proxies[p].redlock.Some?
    requires Run(pids, acts).proxies[p].redlock == Run(pids, acts).proxies[q].redlock
    ensures p == q
  {
    InvHolds(pids, acts);
    assert ProxyOk(Run(pids, acts), p, Run(pids, acts).proxies[p]);
    assert ProxyOk(Run(pids, acts), q, Run(pids, acts).proxies[q]);
  }

  /** From a state where `t` was acquired but is not the lock value, `t` is not the lock value later. */
  lemma {:induction false} GoneStaysGone(pids: set<Pid>, acts: seq<Action>, j: nat, t: Token)
    requires j <= |acts|
    requires t in Run(pids, acts[..j]).acquiredBy && Run(pids, acts[..j]).lock != Some(t)
    ensures t in Run(pids, acts).acquiredBy && Run(pids, acts).lock != Some(t)
  {
    if j == |acts| {
      assert acts[..j] == acts;
    } else {
      var n := |acts| - 1;
      assert acts[..n][..j] == acts[..j];
      GoneStaysGone(pids, acts[..n], j, t);
      InvHolds(pids, acts[..n]);
      TokensOnlyGrow(Run(pids, acts[..n]), acts[n]);
    }
  }

  /** In every run, a token that has left the lock never returns to it. */
  lemma TokenNeverReturns(pids: set<Pid>, acts: seq<Action>, i: nat, j: nat, t: Token)
    requires i <= j <= |acts|
    requires Run(pids, acts[..i]).lock == Some(t) && Run(pids, acts[..j]).lock != Some(t)
    ensures Run(pids, acts).lock != Some(t)
  {
    InvHolds(pids, acts[..i]);
    assert acts[..j][..i] == acts[..i];
    AcquiredStays(pids, acts[..j], i, t);
    GoneStaysGone(pids, acts, j, t);
  }

  lemma {:induction false} AcquiredStays(pids: set<Pid>, acts: seq<Action>, i: nat, t: Token)
    requires i <= |acts|
    requires t in Run(pids, acts[..i]).acquiredBy
    ensures t in Run(pids, acts).acquiredBy
  {
    if i == |acts| {
      assert acts[..i] == acts;
    } else {
      var n := |acts| - 1;
      assert acts[..n][..i] == acts[..i];
      AcquiredStays(pids, acts[..n], i, t);
      InvHolds(pids, acts[..n]);
      TokensOnlyGrow(Run(pids, acts[..n]), acts[n]);
    }
  }

  // ---------- what is served ----------

  /** The values of a component that the proxies' own pollers have computed, and the zero everyone starts from. */
  function Computed(pids: set<Pid>, acts: seq<Action>, c: Component): set<U64> {
    if acts == [] then {0}
    else
      var a := acts[|acts| - 1];
      Computed(pids, acts[..|acts| - 1], c) + if a.Compute? && a.p in pids && a.c == c then {a.n} else {}
  }

  predicate FromPollers(h: Heights, pids: set<Pid>, acts: seq<Action>) {
    forall c: Component :: h.Get(c) in Computed(pids, acts, c)
  }

  predicate ProxyServes(x: Proxy, pids: set<Pid>, acts: seq<Action>) {
    && FromPollers(x.local, pids, acts)
    && FromPollers(x.remote, pids, acts)
    && (x.phase.WritingState? || x.phase.Following? ==> FromPollers(x.phase.payload, pids, acts))
  }

  predicate Provenance(s: System, pids: set<Pid>, acts: seq<Action>) {
    && s.proxies.Keys == pids
    && (forall p :: p in s.proxies ==> ProxyServes(s.proxies[p], pids, acts))
    && (forall t :: t in s.states ==> FromPollers(s.states[t], pids, acts))
  }

  lemma SetFromPollers(h: Heights, pids: set<Pid>, acts: seq<Action>, a: Action)
    requires FromPollers(h, pids, acts) && a.Compute? && a.p in pids
    ensures FromPollers(h.Set(a.c, a.n), pids, acts + [a])
  {
    assert (acts + [a])[..|acts|] == acts;
  }

  lemma MoreActions(h: Heights, pids: set<Pid>, acts: seq<Action>, a: Action)
    requires FromPollers(h, pids, acts)
    ensures FromPollers(h, pids, acts + [a])
  {
    assert (acts + [a])[..|acts|] == acts;
  }

  lemma ProxyServesMore(x: Proxy, pids: set<Pid>, acts: seq<Action>, a: Action)
    requires ProxyServes(x, pids, acts)
    ensures ProxyServes(x, pids, acts + [a])
  {
    MoreActions(x.local, pids, acts, a);
    MoreActions(x.remote, pids, acts, a);
    if x.phase.WritingState? || x.phase.Following? {
      MoreActions(x.phase.payload, pids, acts, a);
    }
  }

  lemma OwnProvenance(s: System, pids: set<Pid>, acts: seq<Action>, a: Action, x: Proxy)
    requires Provenance(s, pids, acts) && ProxyServes(x, pids, acts)
    ensures !Environmental(a) && a.p in pids ==> ProxyServes(Next(s, a, x), pids, acts + [a])
  {
    ProxyServesMore(x, pids, acts, a);
    if a.Compute? && a.p in pids {
      SetFromPollers(x.local, pids, acts, a);
    } else if a.Restart? {
      ZeroFromPollers(pids, acts + [a]);
    } else if a.ReadState? && x.phase.ReadingState? && x.phase.val in s.states {
      MoreActions(s.states[x.phase.val], pids, acts, a);
    }
  }

  lemma ProxyProvenance(s: System, pids: set<Pid>, acts: seq<Action>, a: Action, p: Pid)
    requires Provenance(s, pids, acts) && p in Act(s, a).proxies
    ensures ProxyServes(Act(s, a).proxies[p], pids, acts + [a])
  {
    if !Environmental(a) && a.p == p {
      if p in s.proxies {
        OwnProvenance(s, pids, acts, a, s.proxies[p]);
      }
    } else {
      OthersStandStill(s, a, p);
      ProxyServesMore(s.proxies[p], pids, acts, a);
    }
  }

  lemma {:induction false} ZeroFromPollers(pids: set<Pid>, acts: seq<Action>)
    ensures FromPollers(Heights(0, 0, 0), pids, acts)
  {
    if acts != [] {
      ZeroFromPollers(pids, acts[..|acts| - 1]);
      MoreActions(Heights(0, 0, 0), pids, acts[..|acts| - 1], acts[|acts| - 1]);
      assert acts[..|acts| - 1] + [acts[|acts| - 1]] == acts;
    }
  }

  lemma StateProvenance(s: System, pids: set<Pid>, acts: seq<Action>, a: Action, t: Token)
    requires Provenance(s, pids, acts) && t in Act(s, a).states
    ensures FromPollers(Act(s, a).states[t], pids, acts + [a])
  {
    if t in s.states && Act(s, a).states[t] == s.states[t] {
      MoreActions(s.states[t], pids, acts, a);
    } else {
      assert a.WriteState? && a.p in s.proxies;
      assert ProxyServes(s.proxies[a.p], pids, acts);
      MoreActions(s.proxies[a.p].phase.payload, pids, acts, a);
    }
  }

  lemma {:induction false} ProvenanceHolds(pids: set<Pid>, acts: seq<Action>)
    ensures Provenance(Run(pids, acts), pids, acts)
  {
    if acts == [] {
      ZeroFromPollers(pids, acts);
    } else {
      var before, a := acts[..|acts| - 1], acts[|acts| - 1];
      ProvenanceHolds(pids, before);
      var s := Run(pids, before);
      assert before + [a] == acts;
      forall p | p in Act(s, a).proxies ensures ProxyServes(Act(s, a).proxies[p], pids, acts) {
        ProxyProvenance(s, pids, before, a, p);
      }
      forall t | t in Act(s, a).states ensures FromPollers(Act(s, a).states[t], pids, acts) {
        StateProvenance(s, pids, before, a, t);
      }
    }
  }

  /** In every run, each height any proxy serves was computed earlier by the poller of some proxy, or is zero. */
  lemma ServedWasComputed(pids: set<Pid>, acts: seq<Action>, p: Pid, c: Component)
    requires p in Run(pids, acts).proxies
    ensures Run(pids, acts).proxies[p].remote.Get(c) == 0
            || exists i, q :: 0 <= i < |acts| && q in pids && acts[i] == Compute(q, c, Run(pids, acts).proxies[p].remote.Get(c))
  {
    ProvenanceHolds(pids, acts);
    assert ProxyServes(Run(pids, acts).proxies[p], pids, acts);
    var n := Run(pids, acts).proxies[p].remote.Get(c);
    if n != 0 {
      ComputedByAction(pids, acts, c, n);
    }
  }

  lemma {:induction false} ComputedByAction(pids: set<Pid>, acts: seq<Action>, c: Component, n: U64)
    requires n in Computed(pids, acts, c) && n != 0
    ensures exists i, q :: 0 <= i < |acts| && q in pids && acts[i] == Compute(q, c, n)
  {
    var k := |acts| - 1;
    if acts[k].Compute? && acts[k].p in pids && acts[k].c == c && acts[k].n == n {
      assert acts[k] == Compute(acts[k].p, c, n);
    } else {
      ComputedByAction(pids, acts[..k], c, n);
      var i, q :| 0 <= i < |acts[..k]| && q in pids && acts[..k][i] == Compute(q, c, n);
      assert acts[i] == Compute(q, c, n);
    }
  }

  // ---------- a leader does not serve less than it served ----------

  /** The poller of this proxy reports no less than before. */
  predicate Advances(s: System, a: Action) {
    a.Compute? && a.p in s.proxies ==> s.proxies[a.p].local.Get(a.c) <= a.n
  }

  predicate PollersAdvance(pids: set<Pid>, acts: seq<Action>) {
    forall i :: 0 <= i < |acts| ==> Advances(Run(pids, acts[..i]), acts[i])
  }

  predicate NotBehind(x: Proxy) {
    x.remote.Valid() ==> !x.local.Behind(x.remote)
  }

  /** On the way to publishing, or leading, a proxy's own heights are at least those it serves. */
  predicate Leads(x: Proxy) {
    x.leader || x.phase.Acquiring? || x.phase.Posting? || x.phase.WritingState? || x.phase.WritingLeader? || x.phase.Publishing?
  }

  /** Only a leader extends, and only a non-leader follows. */
  predicate PhaseFits(x: Proxy) {
    && (x.phase.Extending? ==> x.leader)
    && (x.phase.ReadingLeader? || x.phase.ReadingState? || x.phase.Following? ==> !x.leader)
  }

  predicate ProxyAhead(x: Proxy) {
    (Leads(x) ==> NotBehind(x)) && PhaseFits(x)
  }

  lemma AheadStep(s: System, a: Action, p: Pid)
    requires p in s.proxies && ProxyAhead(s.proxies[p]) && Advances(s, a)
    ensures p in Act(s, a).proxies && ProxyAhead(Act(s, a).proxies[p])
  {
    if Environmental(a) || a.p != p {
      OthersStandStill(s, a, p);
    } else {
      OwnAhead(s, a, s.proxies[p]);
    }
  }

  lemma OwnAhead(s: System, a: Action, x: Proxy)
    requires ProxyAhead(x) && (a.Compute? ==> x.local.Get(a.c) <= a.n)
    ensures ProxyAhead(Next(s, a, x))
  {
  }

  lemma {:induction false} AheadHolds(pids: set<Pid>, acts: seq<Action>, p: Pid)
    requires PollersAdvance(pids, acts) && p in pids
    ensures p in Run(pids, acts).proxies && ProxyAhead(Run(pids, acts).proxies[p])
  {
    if acts != [] {
      var k := |acts| - 1;
      assert forall i :: 0 <= i < k ==> acts[..k][..i] == acts[..i];
      AheadHolds(pids, acts[..k], p);
      AheadStep(Run(pids, acts[..k]), acts[k], p);
    }
  }

  /** While local pollers only advance, publishing never takes back a height the proxy validly served. */
  lemma PublishNeverRegresses(pids: set<Pid>, acts: seq<Action>, p: Pid, c: Component)
    requires PollersAdvance(pids, acts) && p in pids
    requires p in Run(pids, acts).proxies
    requires var x := Run(pids, acts).proxies[p]; x.phase.Publishing? && x.remote.Valid()
    ensures var s := Run(pids, acts);
            s.proxies[p].remote.Get(c) <= Act(s, Publish(p)).proxies[p].remote.Get(c)
  {
    AheadHolds(pids, acts, p);
    PublishStep(Run(pids, acts), p, c);
  }

  lemma PublishStep(s: System, p: Pid, c: Component)
    requires p in s.proxies && ProxyAhead(s.proxies[p])
    requires s.proxies[p].phase.Publishing? && s.proxies[p].remote.Valid()
    ensures s.proxies[p].remote.Get(c) <= Act(s, Publish(p)).proxies[p].remote.Get(c)
  {
  }

  // ---------- exactly what is served ----------

  /** `a` sets what proxy `p` serves. */
  predicate SetsServed(s: System, a: Action, p: Pid) {
    && p in s.proxies
    && (|| a == Restart(p)
        || (a == Follow(p) && s.proxies[p].phase.Following?)
        || (a == Publish(p) && s.proxies[p].phase.Publishing?))
  }

  /** Only a restart, a follow and a publication change what a proxy serves, and this is to what. */
  lemma ServedStep(s: System, a: Action, p: Pid)
    requires p in s.proxies
    ensures p in Act(s, a).proxies
    ensures var x, served := s.proxies[p], Act(s, a).proxies[p].remote;
            && (!SetsServed(s, a, p) ==> served == x.remote)
            && (SetsServed(s, a, p) && a.Restart? ==> served == Heights(0, 0, 0))
            && (SetsServed(s, a, p) && a.Follow? ==> served == x.phase.payload)
            && (SetsServed(s, a, p) && a.Publish? ==> served == x.local)
  {
    if Environmental(a) || a.p != p {
      OthersStandStill(s, a, p);
    }
  }

  /** The last action that set what `p` serves: 0 if there was none, and one more than its position otherwise. */
  function LastSetter(pids: set<Pid>, acts: seq<Action>, p: Pid): (i: nat)
    ensures i <= |acts|
  {
    if acts == [] then 0
    else
      var n := |acts| - 1;
      if SetsServed(Run(pids, acts[..n]), acts[n], p) then |acts| else LastSetter(pids, acts[..n], p)
  }

  lemma {:induction false} SetterSets(pids: set<Pid>, acts: seq<Action>, p: Pid)
    requires p in pids
    ensures p in Run(pids, acts).proxies
    ensures var i := LastSetter(pids, acts, p);
            if i == 0 then Run(pids, acts).proxies[p].remote == Heights(0, 0, 0)
            else
              && SetsServed(Run(pids, acts[..i - 1]), acts[i - 1], p)
              && Run(pids, acts).proxies[p].remote == Act(Run(pids, acts[..i - 1]), acts[i - 1]).proxies[p].remote
  {
    if acts != [] {
      var n := |acts| - 1;
      SetterSets(pids, acts[..n], p);
      ServedStep(Run(pids, acts[..n]), acts[n], p);
      var i := LastSetter(pids, acts[..n], p);
      if 0 < i {
        assert acts[..n][..i - 1] == acts[..i - 1];
      }
    }
  }

  lemma {:induction false} SetterIsLast(pids: set<Pid>, acts: seq<Action>, p: Pid)
    ensures NotSetSince(pids, acts, LastSetter(pids, acts, p), p)
  {
    if acts != [] {
      var n := |acts| - 1;
      SetterIsLast(pids, acts[..n], p);
      if !SetsServed(Run(pids, acts[..n]), acts[n], p) {
        NotSetExtends(pids, acts, LastSetter(pids, acts[..n], p), p);
      }
    }
  }

  /** From position `i` on, no action sets what `p` serves. */
  predicate NotSetSince(pids: set<Pid>, acts: seq<Action>, i: nat, p: Pid) {
    forall k :: i <= k < |acts| ==> !SetsServed(Run(pids, acts[..k]), acts[k], p)
  }

  lemma NotSetExtends(pids: set<Pid>, acts: seq<Action>, i: nat, p: Pid)
    requires acts != [] && NotSetSince(pids, acts[..|acts| - 1], i, p)
    requires !SetsServed(Run(pids, acts[..|acts| - 1]), acts[|acts| - 1], p)
    ensures NotSetSince(pids, acts, i, p)
  {
    var n := |acts| - 1;
    forall k | i <= k < n ensures !SetsServed(Run(pids, acts[..k]), acts[k], p) {
      assert acts[..n][..k] == acts[..k] && acts[..n][k] == acts[k];
    }
  }

  /** A proxy that is about to follow has read these heights under a token. */
  lemma {:induction false} FollowsWhatItRead(pids: set<Pid>, acts: seq<Action>, p: Pid) returns (j: nat)
    requires p in Run(pids, acts).proxies && Run(pids, acts).proxies[p].phase.Following?
    ensures j < |acts| && acts[j] == ReadState(p, true)
    ensures var s := Run(pids, acts[..j]);
            && p in s.proxies && s.proxies[p].phase.ReadingState? && s.proxies[p].phase.val in s.states
            && s.states[s.proxies[p].phase.val] == Run(pids, acts).proxies[p].phase.payload
  {
    var n := |acts| - 1;
    var s, a := Run(pids, acts[..n]), acts[n];
    PhaseStep(s, a, p);
    if a == ReadState(p, true) && s.proxies[p].phase.ReadingState? {
      j := n;
    } else {
      j := FollowsWhatItRead(pids, acts[..n], p);
      assert acts[..n][..j] == acts[..j];
    }
  }

  /** How a proxy gets into the phases that carry heights or a token read from the lock. */
  lemma PhaseStep(s: System, a: Action, p: Pid)
    requires p in Act(s, a).proxies
    ensures p in s.proxies
    ensures var was, now := s.proxies[p].phase, Act(s, a).proxies[p].phase;
            now == was
            || match now
               case Following(h) => a == ReadState(p, true) && was.ReadingState? && was.val in s.states && h == s.states[was.val]
               case ReadingState(t) => a == ReadLeader(p, true) && was == ReadingLeader(t)
               case ReadingLeader(t) => a == ReadLock(p, true) && s.lock == Some(t)
               case WritingState(t, h) => a == Marshal(p) && was == Posting(t) && h == s.proxies[p].local
               case _ => true
  {
    if Environmental(a) || a.p != p {
      OthersStandStill(s, a, p);
    }
  }

  /** A token under which a follower reads was the value of the lock when it read the lock. */
  lemma {:induction false} ReadsUnderLock(pids: set<Pid>, acts: seq<Action>, p: Pid, t: Token) returns (j: nat)
    requires p in Run(pids, acts).proxies
    requires Run(pids, acts).proxies[p].phase == ReadingState(t) || Run(pids, acts).proxies[p].phase == ReadingLeader(t)
    ensures j < |acts| && acts[j] == ReadLock(p, true) && Run(pids, acts[..j]).lock == Some(t)
  {
    var n := |acts| - 1;
    var s, a := Run(pids, acts[..n]), acts[n];
    PhaseStep(s, a, p);
    if a == ReadLock(p, true) && s.lock == Some(t) {
      j := n;
    } else {
      j := ReadsUnderLock(pids, acts[..n], p, t);
      assert acts[..n][..j] == acts[..j];
    }
  }

  /** `q` serialised the heights `h` from its own local state, to post them under token `t`. */
  predicate Marshalled(pids: set<Pid>, acts: seq<Action>, k: nat, q: Pid, t: Token, h: Heights) {
    && k < |acts| && acts[k] == Marshal(q)
    && var s := Run(pids, acts[..k]);
       q in s.proxies && s.proxies[q].phase == Posting(t) && s.proxies[q].local == h
  }

  lemma MarshalledMore(pids: set<Pid>, acts: seq<Action>, k: nat, q: Pid, t: Token, h: Heights)
    requires acts != [] && Marshalled(pids, acts[..|acts| - 1], k, q, t, h)
    ensures Marshalled(pids, acts, k, q, t, h)
  {
    assert acts[..|acts| - 1][..k] == acts[..k];
  }

  lemma {:induction false} WritesWhatItMarshalled(pids: set<Pid>, acts: seq<Action>, q: Pid) returns (k: nat)
    requires q in Run(pids, acts).proxies && Run(pids, acts).proxies[q].phase.WritingState?
    ensures var phase := Run(pids, acts).proxies[q].phase; Marshalled(pids, acts, k, q, phase.val, phase.payload)
  {
    var n := |acts| - 1;
    var s, a := Run(pids, acts[..n]), acts[n];
    PhaseStep(s, a, q);
    if a == Marshal(q) && s.proxies[q].phase.Posting? {
      k := n;
    } else {
      k := WritesWhatItMarshalled(pids, acts[..n], q);
      var phase := s.proxies[q].phase;
      MarshalledMore(pids, acts, k, q, phase.val, phase.payload);
    }
  }

  /** A state appears or changes only by a write of a proxy that is writing it. */
  lemma StateStep(s: System, a: Action, t: Token)
    requires t in Act(s, a).states
    ensures (t in s.states && Act(s, a).states[t] == s.states[t])
            || (&& a.WriteState? && a.p in s.proxies
                && s.proxies[a.p].phase == WritingState(t, Act(s, a).states[t]))
  {
  }

  /** Whatever stands under a token, the proxy that acquired the token marshalled it from its own local state. */
  lemma {:induction false} PostedWasMarshalled(pids: set<Pid>, acts: seq<Action>, t: Token) returns (k: nat, q: Pid)
    requires t in Run(pids, acts).states
    ensures Marshalled(pids, acts, k, q, t, Run(pids, acts).states[t])
    ensures t in Run(pids, acts).acquiredBy && Run(pids, acts).acquiredBy[t] == q
  {
    var n := |acts| - 1;
    var s, a := Run(pids, acts[..n]), acts[n];
    StateStep(s, a, t);
    TokensOnlyGrow(s, a);
    if t in s.states && Act(s, a).states[t] == s.states[t] {
      k, q := PostedWasMarshalled(pids, acts[..n], t);
    } else {
      q := a.p;
      k := WritesWhatItMarshalled(pids, acts[..n], q);
      InvHolds(pids, acts[..n]);
      assert ProxyOk(s, q, s.proxies[q]);
    }
    MarshalledMore(pids, acts, k, q, t, Run(pids, acts).states[t]);
  }

  /**
   What a proxy serves, in every run. Nothing yet, or not since a restart: zero. Its own local heights
   of the moment it last published. Or, as a follower: the heights that stood under the lock's token
   when it read them, which the token's acquirer had marshalled from its own local state.
   */
  lemma ServedExactly(pids: set<Pid>, acts: seq<Action>, p: Pid) returns (i: nat)
    requires p in pids
    ensures p in Run(pids, acts).proxies && i <= |acts|
    ensures NotSetSince(pids, acts, i, p)
    ensures var served := Run(pids, acts).proxies[p].remote;
            if i == 0 || acts[i - 1] == Restart(p) then served == Heights(0, 0, 0)
            else if acts[i - 1] == Publish(p) then
              p in Run(pids, acts[..i - 1]).proxies && served == Run(pids, acts[..i - 1]).proxies[p].local
            else acts[i - 1] == Follow(p) && FromLeader(pids, acts[..i - 1], p, served)
  {
    i := LastSetter(pids, acts, p);
    SetterSets(pids, acts, p);
    SetterIsLast(pids, acts, p);
    if i > 0 {
      var before := acts[..i - 1];
      ServedStep(Run(pids, before), acts[i - 1], p);
      if acts[i - 1].Follow? {
        FollowedLeader(pids, before, p);
      }
    }
  }

  /** `p` read the lock when it held `t`, then read `h` under `t`, and that was marshalled by the proxy that acquired `t`. */
  predicate ReadFrom(pids: set<Pid>, acts: seq<Action>, p: Pid, h: Heights, t: Token, i: nat, j: nat, k: nat, q: Pid) {
    && i < j < |acts| && acts[i] == ReadLock(p, true) && Run(pids, acts[..i]).lock == Some(t)
    && acts[j] == ReadState(p, true) && t in Run(pids, acts[..j]).states && Run(pids, acts[..j]).states[t] == h
    && Marshalled(pids, acts[..j], k, q, t, h)
    && t in Run(pids, acts[..j]).acquiredBy && Run(pids, acts[..j]).acquiredBy[t] == q
  }

  ghost predicate FromLeader(pids: set<Pid>, acts: seq<Action>, p: Pid, h: Heights) {
    exists t, i, j, k, q :: ReadFrom(pids, acts, p, h, t, i, j, k, q)
  }

  lemma FollowedLeader(pids: set<Pid>, acts: seq<Action>, p: Pid)
    requires p in Run(pids, acts).proxies && Run(pids, acts).proxies[p].phase.Following?
    ensures FromLeader(pids, acts, p, Run(pids, acts).proxies[p].phase.payload)
  {
    var j := FollowsWhatItRead(pids, acts, p);
    var t := Run(pids, acts[..j]).proxies[p].phase.val;
    var i := ReadsUnderLock(pids, acts[..j], p, t);
    assert acts[..j][..i] == acts[..i];
    var k, q := PostedWasMarshalled(pids, acts[..j], t);
    assert ReadFrom(pids, acts, p, Run(pids, acts).proxies[p].phase.payload, t, i, j, k, q);
  }

  // ---------- what is posted stays ----------

  /** `a` lets the state under `t` expire, or is another write of `p`. */
  predicate Replaces(a: Action, t: Token, p: Pid) {
    a == ExpireState(t) || (a.WriteState? && a.p == p)
  }

  /** What a proxy posted under its token stands there until the key expires or the same proxy writes again. */
  lemma {:induction false} PostedStays(pids: set<Pid>, acts: seq<Action>, i: nat, p: Pid, effective: bool)
    requires i < |acts| && acts[i] == WriteState(p, true, effective)
    requires p in Run(pids, acts[..i]).proxies && Run(pids, acts[..i]).proxies[p].phase.WritingState?
    requires forall k :: i < k < |acts| ==> !Replaces(acts[k], Run(pids, acts[..i]).proxies[p].phase.val, p)
    ensures var phase := Run(pids, acts[..i]).proxies[p].phase;
            phase.val in Run(pids, acts).states && Run(pids, acts).states[phase.val] == phase.payload
  {
    var n := |acts| - 1;
    var phase := Run(pids, acts[..i]).proxies[p].phase;
    if i < n {
      assert acts[..n][..i] == acts[..i];
      PostedStays(pids, acts[..n], i, p, effective);
      InvHolds(pids, acts[..i]);
      assert ProxyOk(Run(pids, acts[..i]), p, Run(pids, acts[..i]).proxies[p]);
      AcquirerStays(pids, acts[..n], i, phase.val);
      InvHolds(pids, acts[..n]);
      KeyStands(Run(pids, acts[..n]), acts[n], phase.val, p);
    }
  }

  lemma {:induction false} AcquirerStays(pids: set<Pid>, acts: seq<Action>, i: nat, t: Token)
    requires i <= |acts| && t in Run(pids, acts[..i]).acquiredBy
    ensures t in Run(pids, acts).acquiredBy && Run(pids, acts).acquiredBy[t] == Run(pids, acts[..i]).acquiredBy[t]
  {
    if i == |acts| {
      assert acts[..i] == acts;
    } else {
      var n := |acts| - 1;
      assert acts[..n][..i] == acts[..i];
      AcquirerStays(pids, acts[..n], i, t);
      TokensOnlyGrow(Run(pids, acts[..n]), acts[n]);
    }
  }

  lemma KeyStands(s: System, a: Action, t: Token, p: Pid)
    requires Inv(s) && t in s.states && t in s.acquiredBy && s.acquiredBy[t] == p && !Replaces(a, t, p)
    ensures t in Act(s, a).states && Act(s, a).states[t] == s.states[t]
  {
    if a.WriteState? && a.p in s.proxies {
      assert ProxyOk(s, a.p, s.proxies[a.p]);
    }
  }

  /** In every run, the leader name under a token is that of the proxy that acquired it. */
  lemma {:induction false} NameIsAcquirer(pids: set<Pid>, acts: seq<Action>, t: Token)
    requires t in Run(pids, acts).leaders
    ensures t in Run(pids, acts).acquiredBy && Run(pids, acts).leaders[t] == Run(pids, acts).acquiredBy[t]
  {
    var n := |acts| - 1;
    var s, a := Run(pids, acts[..n]), acts[n];
    TokensOnlyGrow(s, a);
    InvHolds(pids, acts[..n]);
    if a.WriteLeader? && a.p in s.proxies && s.proxies[a.p].phase == WritingLeader(t) {
      assert ProxyOk(s, a.p, s.proxies[a.p]);
    }
    if t in s.leaders {
      NameIsAcquirer(pids, acts[..n], t);
    }
  }

  // ---------- one heartbeat that nothing interrupts ----------

  /** A follower takes over the state and the leader's name under the lock's token, if they are there. */
  lemma FollowerHeartbeat(s: System, p: Pid, t: Token)
    requires p in s.proxies && s.proxies[p].phase.Idle? && !s.proxies[p].leader && s.lock == Some(t)
    ensures var x := s.proxies[p];
            var read := Act(Act(s, ReadLock(p, true)), ReadLeader(p, true));
            var s' := Act(Act(read, ReadState(p, true)), Follow(p));
            && s'.lock == s.lock && s'.states == s.states && s'.leaders == s.leaders
            && s'.proxies == s.proxies[p := x.(
                 leaderName := if t in s.leaders then Some(s.leaders[t]) else None,
                 remote := if t in s.states then s.states[t] else x.remote)]
  {
  }

  /** Without a lock, a proxy with valid heights not behind valid served ones takes the lock and posts and serves its heights. */
  lemma ElectionHeartbeat(s: System, p: Pid, token: Token)
    requires p in s.proxies && s.proxies[p].phase.Idle? && s.lock.None? && token !in s.acquiredBy
    requires var l, r := s.proxies[p].local, s.proxies[p].remote;
             && l.latest > 0 && l.safe > 0 && l.finalized > 0
             && (r.latest == 0 || r.safe == 0 || r.finalized == 0
                 || (r.latest <= l.latest && r.safe <= l.safe && r.finalized <= l.finalized))
    ensures var x := s.proxies[p];
            var locked := Act(Act(s, ReadLock(p, true)), Acquire(p, token, true, true));
            var posted := Act(Act(Act(locked, Marshal(p)), WriteState(p, true, true)), WriteLeader(p, true, true));
            var s' := Act(posted, Publish(p));
            && s'.lock == Some(token) && s'.acquiredBy == s.acquiredBy[token := p]
            && s'.states == s.states[token := x.local] && s'.leaders == s.leaders[token := p]
            && s'.proxies == s.proxies[p := x.(
                 leader := true, redlock := Some(token), leaderName := Some(p), remote := x.local)]
  {
    var x := s.proxies[p];
    var s1 := Act(s, ReadLock(p, true));
    assert s1.proxies[p] == x.(phase := Acquiring);
    var s2 := Act(s1, Acquire(p, token, true, true));
    assert s2.proxies[p] == x.(redlock := Some(token), leader := true, phase := Posting(token));
    PostingHeartbeat(s2, p, token);
    assert s2.proxies[p].(leaderName := Some(p), remote := x.local, phase := Idle)
        == x.(leader := true, redlock := Some(token), leaderName := Some(p), remote := x.local);
  }

  /** Posting under a token: state and name are written, and the local heights served. */
  lemma PostingHeartbeat(s: System, p: Pid, t: Token)
    requires p in s.proxies && s.proxies[p].phase == Posting(t)
    ensures var x := s.proxies[p];
            var posted := Act(Act(Act(s, Marshal(p)), WriteState(p, true, true)), WriteLeader(p, true, true));
            var s' := Act(posted, Publish(p));
            && s'.lock == s.lock && s'.acquiredBy == s.acquiredBy
            && s'.states == s.states[t := x.local] && s'.leaders == s.leaders[t := p]
            && s'.proxies == s.proxies[p := x.(leaderName := Some(p), remote := x.local, phase := Idle)]
  {
    var x := s.proxies[p];
    var s1 := Act(s, Marshal(p));
    assert s1.proxies[p] == x.(phase := WritingState(t, x.local));
    var s2 := Act(s1, WriteState(p, true, true));
    assert s2.proxies[p] == x.(phase := WritingLeader(t)) && s2.states == s.states[t := x.local];
    var s3 := Act(s2, WriteLeader(p, true, true));
    assert s3.proxies[p] == x.(phase := Publishing) && s3.leaders == s.leaders[t := p];
  }

  /** A leader that still holds the lock posts under it again. */
  lemma LeaderHeartbeat(s: System, p: Pid, t: Token)
    requires p in s.proxies && s.proxies[p].phase.Idle? && s.proxies[p].leader
    requires s.lock == Some(t) && s.proxies[p].redlock == Some(t)
    ensures var x := s.proxies[p];
            var extended := Act(Act(s, ReadLock(p, true)), Extend(p, true));
            var posted := Act(Act(Act(extended, Marshal(p)), WriteState(p, true, true)), WriteLeader(p, true, true));
            var s' := Act(posted, Publish(p));
            && s'.lock == s.lock && s'.states == s.states[t := x.local] && s'.leaders == s.leaders[t := p]
            && s'.proxies == s.proxies[p := x.(leaderName := Some(p), remote := x.local)]
  {
    var x := s.proxies[p];
    var s1 := Act(s, ReadLock(p, true));
    assert s1.proxies[p] == x.(phase := Extending(t));
    var s2 := Act(s1, Extend(p, true));
    assert s2.proxies[p] == x.(phase := Posting(t));
    PostingHeartbeat(s2, p, t);
  }

  /** Without a lock, a proxy that is not ready to lead does nothing. */
  lemma NotReadyHeartbeat(s: System, p: Pid)
    requires p in s.proxies && s.proxies[p].phase.Idle? && s.lock.None?
    requires var l, r := s.proxies[p].local, s.proxies[p].remote;
             || l.latest == 0 || l.safe == 0 || l.finalized == 0
             || (&& r.latest > 0 && r.safe > 0 && r.finalized > 0
                 && (l.latest < r.latest || l.safe < r.safe || l.finalized < r.finalized))
    ensures Act(s, ReadLock(p, true)).proxies == s.proxies
  {
    assert Next(s, ReadLock(p, true), s.proxies[p]) == s.proxies[p];
  }

  /** A leader that cannot read the lock releases it; one that has lost it cannot, and keeps its flag. */
  lemma ReleasingHeartbeat(s: System, p: Pid)
    requires p in s.proxies && s.proxies[p].phase.Idle? && s.proxies[p].leader && s.proxies[p].redlock.Some?
    ensures var x := s.proxies[p];
            var s' := Act(Act(s, ReadLock(p, false)), Release(p, true, true));
            if s.lock == x.redlock then s'.lock == None && s'.proxies == s.proxies[p := x.(leader := false)]
            else s'.lock == s.lock && s'.proxies == s.proxies
    ensures s.lock.Some? && s.lock != s.proxies[p].redlock ==>
              Act(Act(Act(s, ReadLock(p, true)), Extend(p, true)), Release(p, true, true)).proxies == s.proxies
  {
    var x := s.proxies[p];
    assert Act(s, ReadLock(p, false)).proxies[p] == x.(phase := Releasing);
    if s.lock.Some? && s.lock != x.redlock {
      var s1 := Act(s, ReadLock(p, true));
      assert s1.proxies[p] == x.(phase := Extending(s.lock.value));
      assert Act(s1, Extend(p, true)).proxies[p] == x.(phase := Releasing);
    }
  }

  /** What the calls on the lock do to it, whether or not their answer arrives. */
  lemma LockCalls(s: System, p: Pid, token: Token, ok: bool, effective: bool)
    requires p in s.proxies
    ensures s.proxies[p].phase.Acquiring? ==>
              Act(s, Acquire(p, token, ok, effective)).lock ==
              if s.lock.None? && token !in s.acquiredBy && (ok || effective) then Some(token) else s.lock
    ensures s.proxies[p].phase.Releasing? ==>
              Act(s, Release(p, ok, effective)).lock ==
              if s.lock == s.proxies[p].redlock && (ok || effective) then None else s.lock
  {
  }

  /** Pollers, restarts and expiries. */
  lemma OtherActions(s: System, p: Pid, c: Component, n: U64, t: Token)
    requires p in s.proxies
    ensures var x, x' := s.proxies[p], Act(s, Compute(p, c, n)).proxies[p];
            x'.local.Get(c) == n && (forall d :: d != c ==> x'.local.Get(d) == x.local.Get(d)) && x' == x.(local := x'.local)
    ensures Act(s, Restart(p)).proxies[p] == Proxy(false, None, None, Heights(0, 0, 0), Heights(0, 0, 0), Idle)
    ensures Act(s, ExpireLock).lock == None && t !in Act(s, ExpireState(t)).states && t !in Act(s, ExpireLeader(t)).leaders
  {
  }

  /** A proxy that fails to acquire, or to write, is no leader. */
  lemma FailedCallEndsLead(s: System, p: Pid, token: Token, effective: bool)
    requires p in s.proxies
    ensures s.proxies[p].phase.Acquiring? ==>
              Act(s, Acquire(p, token, false, effective)).proxies == s.proxies[p := s.proxies[p].(leader := false, phase := Idle)]
    ensures s.proxies[p].phase.WritingState? ==>
              Act(s, WriteState(p, false, effective)).proxies == s.proxies[p := s.proxies[p].(leader := false, phase := Idle)]
    ensures s.proxies[p].phase.WritingLeader? ==>
              Act(s, WriteLeader(p, false, effective)).proxies == s.proxies[p := s.proxies[p].(leader := false, phase := Idle)]
  {
  }
}
