/**
 The in-memory rate limiter. A take has two critical sections: under the limiter's lock it picks the
 generation of the current truncated timestamp, and later, under that generation's lock, it counts.
 Takes of different threads interleave arbitrarily between the two; the clock never goes back.
 */
module RateLimiter {

  import opened Arithmetic

  type Time = int
  type Tid = nat

  const SECOND: Time := 1_000_000_000

  /** `truncateNow`: truncate to the duration, then to whole seconds. */
  function TruncatedNow(now: Time, dur: Time): int {
    (if dur <= 0 then now else now - now % dur) / SECOND
  }

  lemma TruncationMonotone(s: Time, t: Time, dur: Time)
    requires s <= t
    ensures TruncatedNow(s, dur) <= TruncatedNow(t, dur)
  {
    if 0 < dur {
      FloorsOrdered(s, t, dur);
    }
  }

  /** The timestamp of a duration of `c` whole seconds counts its windows, `c` to each. */
  lemma TimestampOfWindow(t: Time, dur: Time, c: int)
    requires 0 < c && dur == c * SECOND
    ensures TruncatedNow(t, dur) == (t / dur) * c
  {
    var w := t / dur;
    assert t - t % dur == w * dur;
    assert w * dur == (w * c) * SECOND;
  }

  /** For a duration of whole seconds, two instants share a timestamp iff they lie in the same window of that length. */
  lemma SameTimestampIff(s: Time, t: Time, dur: Time)
    requires 0 < dur && dur % SECOND == 0
    ensures TruncatedNow(s, dur) == TruncatedNow(t, dur) <==> s / dur == t / dur
  {
    var c := dur / SECOND;
    TimestampOfWindow(s, dur, c);
    TimestampOfWindow(t, dur, c);
    if s / dur < t / dur {
      MultiplesApart(s / dur, t / dur, c);
    } else if t / dur < s / dur {
      MultiplesApart(t / dur, s / dur, c);
    }
  }

  // ---------- the two critical sections ----------

  datatype Generation = Generation(truncTS: int, keys: map<string, nat>)

  function Used(g: Generation, key: string): nat {
    if key in g.keys then g.keys[key] else 0
  }

  /** Every take counts. */
  function Counted(g: Generation, key: string): Generation {
    g.(keys := g.keys[key := Used(g, key) + 1])
  }

  class LimitedKeys {
    const truncTS: int
    var keys: map<string, nat>

    constructor (t: int)
      ensures truncTS == t && keys == map[]
    {
      truncTS, keys := t, map[];
    }

    function Contents(): Generation
      reads this
    {
      Generation(truncTS, keys)
    }

    /** The second critical section: granted while the count was below the limit. */
    method Take(key: string, max: int) returns (granted: bool)
      modifies this
      ensures Contents() == Counted(old(Contents()), key)
      ensures granted <==> Used(old(Contents()), key) < max
    {
      var val := 0;
      if key in keys {
        val := keys[key];
      } else {
        keys := keys[key := 0];
      }
      keys := keys[key := val + 1];
      return val < max;
    }
  }

  /** All generations once the one for `ts` has been picked: a new one is made when the last is for another time. */
  function PickedGens(gens: seq<Generation>, ts: int): seq<Generation> {
    if gens == [] || gens[|gens| - 1].truncTS != ts then gens + [Generation(ts, map[])] else gens
  }

  /** The generation a take at `ts` counts in. */
  function Current(gens: seq<Generation>, ts: int): Generation {
    var picked := PickedGens(gens, ts);
    picked[|picked| - 1]
  }

  /** All generations after an uninterrupted take. */
  function TakenGens(gens: seq<Generation>, ts: int, key: string): seq<Generation> {
    var picked := PickedGens(gens, ts);
    picked[|picked| - 1 := Counted(Current(gens, ts), key)]
  }

  class MemoryFrontendRateLimiter {
    const dur: Time
    const max: int
    var currGeneration: LimitedKeys?

    /** All generations ever made; the current one is the last. */
    ghost var made: seq<LimitedKeys>

    ghost predicate Valid()
      reads this
    {
      && (currGeneration == null <==> made == [])
      && (currGeneration != null ==> currGeneration == made[|made| - 1])
      && (forall i, j :: 0 <= i < j < |made| ==> made[i] != made[j])
    }

    ghost function Generations(): (gens: seq<Generation>)
      reads this, made
      ensures |gens| == |made| && forall i :: 0 <= i < |made| ==> gens[i] == made[i].Contents()
    {
      seq(|made|, i requires 0 <= i < |made| reads this, made => made[i].Contents())
    }

    constructor (dur: Time, max: int)
      ensures this.dur == dur && this.max == max && Valid() && Generations() == []
    {
      this.dur, this.max, currGeneration, made := dur, max, null, [];
    }

    /** The first critical section: the generation of the current timestamp, made anew if there is none. */
    method PickGeneration(now: Time) returns (limiter: LimitedKeys)
      requires Valid()
      modifies this
      ensures Valid() && made != [] && limiter == made[|made| - 1]
      ensures Generations() == PickedGens(old(Generations()), TruncatedNow(now, dur))
      ensures fresh(set g | g in made && g !in old(made))
    {
      var truncTS := TruncatedNow(now, dur);
      if currGeneration == null || currGeneration.truncTS != truncTS {
        currGeneration := new LimitedKeys(truncTS);
        made := made + [currGeneration];
      }
      limiter := currGeneration;
    }

    /** A take that nothing interrupts: pick the generation, then count in it. */
    method Take(key: string, now: Time) returns (granted: bool)
      requires Valid()
      modifies this, made
      ensures Valid()
      ensures Generations() == TakenGens(old(Generations()), TruncatedNow(now, dur), key)
      ensures granted <==> Used(Current(old(Generations()), TruncatedNow(now, dur)), key) < max
    {
      var limiter := PickGeneration(now);
      ghost var gens := Generations();
      granted := limiter.Take(key, max);
      assert Generations() == gens[|gens| - 1 := Counted(gens[|gens| - 1], key)];
    }
  }

  // ---------- interleavings ----------

  /** A take between its two sections: the generation it picked, and when and under which timestamp. */
  datatype Pending = Pending(gen: nat, key: string, ts: int, start: Time)

  datatype Taken = Taken(key: string, ts: int, granted: bool, start: Time)

  /** `gens` are all generations ever made, the last one being current. */
  datatype Limiter = Limiter(gens: seq<Generation>, pending: map<Tid, Pending>, done: seq<Taken>, clock: Time)

  datatype Action = Begin(tid: Tid, key: string, now: Time) | Finish(tid: Tid)

  function Start(clock: Time): Limiter {
    Limiter([], map[], [], clock)
  }

  /** The first section: take the current generation, or start one for a new timestamp. */
  function Picked(s: Limiter, tid: Tid, key: string, ts: int, now: Time): Limiter {
    var gens := PickedGens(s.gens, ts);
    s.(gens := gens, pending := s.pending[tid := Pending(|gens| - 1, key, ts, now)])
  }

  function Act(dur: Time, max: int, s: Limiter, a: Action): Limiter {
    match a
    case Begin(tid, key, now) =>
      if tid in s.pending || now < s.clock then s
      else Picked(s, tid, key, TruncatedNow(now, dur), now).(clock := now)
    case Finish(tid) =>
      if tid !in s.pending || s.pending[tid].gen >= |s.gens| then s
      else
        var p := s.pending[tid];
        var g := s.gens[p.gen];
        s.(gens := s.gens[p.gen := Counted(g, p.key)],
           pending := s.pending - {tid},
           done := s.done + [Taken(p.key, p.ts, Used(g, p.key) < max, p.start)])
  }

  /** An uninterrupted take is the two actions of the interleaving model, one after the other. */
  lemma BothSections(dur: Time, max: int, s: Limiter, tid: Tid, key: string, now: Time)
    requires tid !in s.pending && s.clock <= now
    ensures var s' := Act(dur, max, Act(dur, max, s, Begin(tid, key, now)), Finish(tid));
            var ts := TruncatedNow(now, dur);
            && s'.gens == TakenGens(s.gens, ts, key)
            && s'.done == s.done + [Taken(key, ts, Used(Current(s.gens, ts), key) < max, now)]
  {
  }

  function Run(dur: Time, max: int, clock: Time, acts: seq<Action>): Limiter {
    if acts == [] then Start(clock)
    else Act(dur, max, Run(dur, max, clock, acts[..|acts| - 1]), acts[|acts| - 1])
  }

  /** Completed takes of `key` at timestamp `ts`. */
  function Takes(done: seq<Taken>, key: string, ts: int): nat {
    if done == [] then 0
    else
      var t := done[|done| - 1];
      Takes(done[..|done| - 1], key, ts) + if t.key == key && t.ts == ts then 1 else 0
  }

  function Grants(done: seq<Taken>, key: string, ts: int): nat {
    if done == [] then 0
    else
      var t := done[|done| - 1];
      Grants(done[..|done| - 1], key, ts) + if t.key == key && t.ts == ts && t.granted then 1 else 0
  }

  /** The limit as a number of grants; a negative limit grants nothing. */
  function Allowance(max: int): nat {
    if max < 0 then 0 else max
  }

  function Min(a: nat, b: nat): nat {
    if a < b then a else b
  }

  /** Generations have increasing timestamps, none beyond `top`. */
  predicate GensOk(s: Limiter, top: int) {
    && (forall i, j :: 0 <= i < j < |s.gens| ==> s.gens[i].truncTS < s.gens[j].truncTS)
    && (forall i :: 0 <= i < |s.gens| ==> s.gens[i].truncTS <= top)
    && (forall tid :: tid in s.pending ==>
          s.pending[tid].gen < |s.gens| && s.gens[s.pending[tid].gen].truncTS == s.pending[tid].ts)
  }

  /** Each generation's counters are the completed takes of its timestamp; other timestamps have none. */
  ghost predicate CountsOk(s: Limiter) {
    && (forall i, key :: 0 <= i < |s.gens| ==> Used(s.gens[i], key) == Takes(s.done, key, s.gens[i].truncTS))
    && (forall key, ts :: (forall i :: 0 <= i < |s.gens| ==> s.gens[i].truncTS != ts) ==> Takes(s.done, key, ts) == 0)
  }

  ghost predicate GrantsOk(max: int, s: Limiter) {
    forall key, ts :: Grants(s.done, key, ts) == Min(Takes(s.done, key, ts), Allowance(max))
  }

  ghost predicate Inv(dur: Time, max: int, s: Limiter) {
    GensOk(s, TruncatedNow(s.clock, dur)) && CountsOk(s) && GrantsOk(max, s)
  }

  lemma InvBegin(dur: Time, max: int, s: Limiter, tid: Tid, key: string, now: Time)
    requires Inv(dur, max, s)
    ensures Inv(dur, max, Act(dur, max, s, Begin(tid, key, now)))
  {
    if tid !in s.pending && s.clock <= now {
      TruncationMonotone(s.clock, now, dur);
      PickedOk(s, tid, key, TruncatedNow(s.clock, dur), TruncatedNow(now, dur), now);
    }
  }

  lemma PickedOk(s: Limiter, tid: Tid, key: string, top: int, ts: int, now: Time)
    requires GensOk(s, top) && CountsOk(s) && top <= ts
    ensures GensOk(Picked(s, tid, key, ts, now), ts) && CountsOk(Picked(s, tid, key, ts, now))
  {
    var s' := Picked(s, tid, key, ts, now);
    if s'.gens != s.gens {
      assert forall i :: 0 <= i < |s.gens| ==> s.gens[i].truncTS < ts;
      assert forall i :: 0 <= i < |s.gens| ==> s'.gens[i] == s.gens[i];
      assert forall k :: Takes(s.done, k, ts) == 0;
    }
  }

  lemma InvFinish(dur: Time, max: int, s: Limiter, tid: Tid)
    requires Inv(dur, max, s)
    ensures Inv(dur, max, Act(dur, max, s, Finish(tid)))
  {
    if tid in s.pending {
      var p := s.pending[tid];
      var s' := Act(dur, max, s, Finish(tid));
      assert s'.done[..|s.done|] == s.done;
      assert forall i :: 0 <= i < |s.gens| ==> s'.gens[i].truncTS == s.gens[i].truncTS;
      assert Used(s.gens[p.gen], p.key) == Takes(s.done, p.key, p.ts);
      FinishCounts(s, s', p);
      FinishGrants(max, s, s', p);
    }
  }

  lemma FinishCounts(s: Limiter, s': Limiter, p: Pending)
    requires CountsOk(s) && p.gen < |s.gens| && s.gens[p.gen].truncTS == p.ts
    requires forall i, j :: 0 <= i < j < |s.gens| ==> s.gens[i].truncTS < s.gens[j].truncTS
    requires s'.gens == s.gens[p.gen := Counted(s.gens[p.gen], p.key)]
    requires |s'.done| == |s.done| + 1 && s'.done[..|s.done|] == s.done
    requires s'.done[|s.done|].key == p.key && s'.done[|s.done|].ts == p.ts
    ensures CountsOk(s')
  {
    forall i, key | 0 <= i < |s'.gens|
      ensures Used(s'.gens[i], key) == Takes(s'.done, key, s'.gens[i].truncTS)
    {
      assert Used(s.gens[i], key) == Takes(s.done, key, s.gens[i].truncTS);
      assert i != p.gen ==> s.gens[i].truncTS != p.ts;
    }
    forall key, ts | forall i :: 0 <= i < |s'.gens| ==> s'.gens[i].truncTS != ts
      ensures Takes(s'.done, key, ts) == 0
    {
      assert forall i :: 0 <= i < |s.gens| ==> s'.gens[i].truncTS == s.gens[i].truncTS;
      assert s'.gens[p.gen].truncTS != ts;
    }
  }

  lemma FinishGrants(max: int, s: Limiter, s': Limiter, p: Pending)
    requires GrantsOk(max, s)
    requires |s'.done| == |s.done| + 1 && s'.done[..|s.done|] == s.done
    requires s'.done[|s.done|] == Taken(p.key, p.ts, Takes(s.done, p.key, p.ts) < max, p.start)
    ensures GrantsOk(max, s')
  {
    forall key, ts ensures Grants(s'.done, key, ts) == Min(Takes(s'.done, key, ts), Allowance(max)) {
      assert Grants(s.done, key, ts) == Min(Takes(s.done, key, ts), Allowance(max));
    }
  }

  lemma {:induction false} InvHolds(dur: Time, max: int, clock: Time, acts: seq<Action>)
    ensures Inv(dur, max, Run(dur, max, clock, acts))
  {
    if acts != [] {
      var before, a := acts[..|acts| - 1], acts[|acts| - 1];
      InvHolds(dur, max, clock, before);
      match a
      case Begin(tid, key, now) =>
        InvBegin(dur, max, Run(dur, max, clock, before), tid, key, now);
      case Finish(tid) =>
        InvFinish(dur, max, Run(dur, max, clock, before), tid);
    }
  }

  /** In every run, no two generations share a truncated timestamp. */
  lemma OneGenerationPerTimestamp(dur: Time, max: int, clock: Time, acts: seq<Action>, i: nat, j: nat)
    requires i < |Run(dur, max, clock, acts).gens| && j < |Run(dur, max, clock, acts).gens|
    requires Run(dur, max, clock, acts).gens[i].truncTS == Run(dur, max, clock, acts).gens[j].truncTS
    ensures i == j
  {
    InvHolds(dur, max, clock, acts);
  }

  /** In every run, m completed takes of a key at a timestamp yield exactly min(m, max) grants. */
  lemma ExactGrants(dur: Time, max: int, clock: Time, acts: seq<Action>, key: string, ts: int)
    ensures var done := Run(dur, max, clock, acts).done;
            Grants(done, key, ts) == Min(Takes(done, key, ts), Allowance(max))
  {
    InvHolds(dur, max, clock, acts);
  }

  // ---------- per window ----------

  /** Every take carries the timestamp of the moment it began. */
  predicate StampsOk(dur: Time, s: Limiter) {
    && (forall i :: 0 <= i < |s.done| ==> s.done[i].ts == TruncatedNow(s.done[i].start, dur))
    && (forall tid :: tid in s.pending ==> s.pending[tid].ts == TruncatedNow(s.pending[tid].start, dur))
  }

  lemma {:induction false} StampsHold(dur: Time, max: int, clock: Time, acts: seq<Action>)
    ensures StampsOk(dur, Run(dur, max, clock, acts))
  {
    if acts != [] {
      StampsHold(dur, max, clock, acts[..|acts| - 1]);
    }
  }

  /** Completed takes of `key` that began in the w-th window, and how many of them were granted. */
  function TakesIn(done: seq<Taken>, key: string, dur: Time, w: int): nat
    requires 0 < dur
  {
    if done == [] then 0
    else
      var t := done[|done| - 1];
      TakesIn(done[..|done| - 1], key, dur, w) + if t.key == key && t.start / dur == w then 1 else 0
  }

  function GrantsIn(done: seq<Taken>, key: string, dur: Time, w: int): nat
    requires 0 < dur
  {
    if done == [] then 0
    else
      var t := done[|done| - 1];
      GrantsIn(done[..|done| - 1], key, dur, w) + if t.key == key && t.start / dur == w && t.granted then 1 else 0
  }

  lemma {:induction false} WindowIsTimestamp(done: seq<Taken>, key: string, dur: Time, now: Time)
    requires 0 < dur && dur % SECOND == 0
    requires forall i :: 0 <= i < |done| ==> done[i].ts == TruncatedNow(done[i].start, dur)
    ensures TakesIn(done, key, dur, now / dur) == Takes(done, key, TruncatedNow(now, dur))
    ensures GrantsIn(done, key, dur, now / dur) == Grants(done, key, TruncatedNow(now, dur))
  {
    if done != [] {
      WindowIsTimestamp(done[..|done| - 1], key, dur, now);
      SameTimestampIff(done[|done| - 1].start, now, dur);
    }
  }

  /** In every run, for a duration of whole seconds: of m takes of a key that began in one window, exactly min(m, max) are granted. */
  lemma ExactGrantsPerWindow(dur: Time, max: int, clock: Time, acts: seq<Action>, key: string, now: Time)
    requires 0 < dur && dur % SECOND == 0
    ensures var done := Run(dur, max, clock, acts).done;
            GrantsIn(done, key, dur, now / dur) == Min(TakesIn(done, key, dur, now / dur), Allowance(max))
  {
    StampsHold(dur, max, clock, acts);
    WindowIsTimestamp(Run(dur, max, clock, acts).done, key, dur, now);
    ExactGrants(dur, max, clock, acts, key, TruncatedNow(now, dur));
  }

  // ---------- a fallback of two limiters ----------

  /** `retrying` are calls whose primary failed, `lost` the takes behind such failures, `verdicts` what callers were told. */
  datatype Fallback = Fallback(
    primary: Limiter, secondary: Limiter, retrying: map<Tid, string>, lost: seq<Taken>, verdicts: seq<Taken>)

  datatype FallbackAction =
    | StartPrimary(tid: Tid, key: string, now: Time)
    | FailPrimary(tid: Tid, key: string)
    | EndPrimary(tid: Tid, err: bool)
    | StartSecondary(tid: Tid, now: Time)
    | EndSecondary(tid: Tid)

  /** The takes that completed in this step. */
  function Newly(before: Limiter, after: Limiter): seq<Taken> {
    if |before.done| <= |after.done| then after.done[|before.done|..] else []
  }

  function FallbackAct(dur: Time, max1: int, max2: int, f: Fallback, a: FallbackAction): Fallback {
    match a
    case StartPrimary(tid, key, now) =>
      if tid in f.retrying || tid in f.secondary.pending then f
      else f.(primary := Act(dur, max1, f.primary, Begin(tid, key, now)))
    case FailPrimary(tid, key) =>
      // an error that left no count behind
      if tid in f.retrying || tid in f.primary.pending || tid in f.secondary.pending then f
      else f.(retrying := f.retrying[tid := key])
    case EndPrimary(tid, err) =>
      if tid !in f.primary.pending then f
      else
        var key := f.primary.pending[tid].key;
        var primary := Act(dur, max1, f.primary, Finish(tid));
        if err then f.(primary := primary, retrying := f.retrying[tid := key], lost := f.lost + Newly(f.primary, primary))
        else f.(primary := primary, verdicts := f.verdicts + Newly(f.primary, primary))
    case StartSecondary(tid, now) =>
      if tid !in f.retrying || now < f.secondary.clock then f
      else
        f.(secondary := Act(dur, max2, f.secondary, Begin(tid, f.retrying[tid], now)),
           retrying := f.retrying - {tid})
    case EndSecondary(tid) =>
      var secondary := Act(dur, max2, f.secondary, Finish(tid));
      f.(secondary := secondary, verdicts := f.verdicts + Newly(f.secondary, secondary))
  }

  function FallbackRun(dur: Time, max1: int, max2: int, clock: Time, acts: seq<FallbackAction>): Fallback {
    if acts == [] then Fallback(Start(clock), Start(clock), map[], [], [])
    else
      FallbackAct(dur, max1, max2, FallbackRun(dur, max1, max2, clock, acts[..|acts| - 1]), acts[|acts| - 1])
  }

  lemma {:induction false} GrantsConcat(s: seq<Taken>, t: seq<Taken>, key: string, ts: int)
    ensures Grants(s + t, key, ts) == Grants(s, key, ts) + Grants(t, key, ts)
    decreases |t|
  {
    if t == [] {
      assert s + t == s;
    } else {
      assert (s + t)[..|s + t| - 1] == s + t[..|t| - 1];
      GrantsConcat(s, t[..|t| - 1], key, ts);
    }
  }

  lemma NewlyGranted(dur: Time, max: int, s: Limiter, a: Action, key: string, ts: int)
    ensures var s' := Act(dur, max, s, a);
            Grants(s'.done, key, ts) == Grants(s.done, key, ts) + Grants(Newly(s, s'), key, ts)
  {
    var s' := Act(dur, max, s, a);
    assert s'.done == s.done + Newly(s, s');
    GrantsConcat(s.done, Newly(s, s'), key, ts);
  }

  /** Both limiters run as limiters do, and every grant of theirs was told to the caller or lost to a failure. */
  lemma {:induction false} FallbackInv(
    dur: Time, max1: int, max2: int, clock: Time, acts: seq<FallbackAction>, key: string, ts: int)
    ensures var f := FallbackRun(dur, max1, max2, clock, acts);
            && Inv(dur, max1, f.primary) && Inv(dur, max2, f.secondary)
            && Grants(f.verdicts, key, ts) + Grants(f.lost, key, ts)
               == Grants(f.primary.done, key, ts) + Grants(f.secondary.done, key, ts)
  {
    if acts != [] {
      var before, a := acts[..|acts| - 1], acts[|acts| - 1];
      FallbackInv(dur, max1, max2, clock, before, key, ts);
      FallbackStep(dur, max1, max2, FallbackRun(dur, max1, max2, clock, before), a, key, ts);
    }
  }

  lemma FallbackStep(dur: Time, max1: int, max2: int, f: Fallback, a: FallbackAction, key: string, ts: int)
    requires Inv(dur, max1, f.primary) && Inv(dur, max2, f.secondary)
    requires Grants(f.verdicts, key, ts) + Grants(f.lost, key, ts)
               == Grants(f.primary.done, key, ts) + Grants(f.secondary.done, key, ts)
    ensures var f' := FallbackAct(dur, max1, max2, f, a);
            && Inv(dur, max1, f'.primary) && Inv(dur, max2, f'.secondary)
            && Grants(f'.verdicts, key, ts) + Grants(f'.lost, key, ts)
               == Grants(f'.primary.done, key, ts) + Grants(f'.secondary.done, key, ts)
  {
    match a
    case StartPrimary(tid, k, now) =>
      InvBegin(dur, max1, f.primary, tid, k, now);
    case FailPrimary(_, _) =>
    case EndPrimary(tid, err) =>
      PrimaryEnds(dur, max1, f, tid, key, ts);
    case StartSecondary(tid, now) =>
      if tid in f.retrying {
        InvBegin(dur, max2, f.secondary, tid, f.retrying[tid], now);
      }
    case EndSecondary(tid) =>
      SecondaryEnds(dur, max2, f, tid, key, ts);
  }

  lemma PrimaryEnds(dur: Time, max: int, f: Fallback, tid: Tid, key: string, ts: int)
    requires Inv(dur, max, f.primary)
    ensures var primary := Act(dur, max, f.primary, Finish(tid));
            var taken := Newly(f.primary, primary);
            && Inv(dur, max, primary)
            && Grants(primary.done, key, ts) == Grants(f.primary.done, key, ts) + Grants(taken, key, ts)
            && Grants(f.verdicts + taken, key, ts) == Grants(f.verdicts, key, ts) + Grants(taken, key, ts)
            && Grants(f.lost + taken, key, ts) == Grants(f.lost, key, ts) + Grants(taken, key, ts)
  {
    var taken := Newly(f.primary, Act(dur, max, f.primary, Finish(tid)));
    InvFinish(dur, max, f.primary, tid);
    NewlyGranted(dur, max, f.primary, Finish(tid), key, ts);
    GrantsConcat(f.verdicts, taken, key, ts);
    GrantsConcat(f.lost, taken, key, ts);
  }

  lemma SecondaryEnds(dur: Time, max: int, f: Fallback, tid: Tid, key: string, ts: int)
    requires Inv(dur, max, f.secondary)
    ensures var secondary := Act(dur, max, f.secondary, Finish(tid));
            var taken := Newly(f.secondary, secondary);
            && Inv(dur, max, secondary)
            && Grants(secondary.done, key, ts) == Grants(f.secondary.done, key, ts) + Grants(taken, key, ts)
            && Grants(f.verdicts + taken, key, ts) == Grants(f.verdicts, key, ts) + Grants(taken, key, ts)
  {
    InvFinish(dur, max, f.secondary, tid);
    NewlyGranted(dur, max, f.secondary, Finish(tid), key, ts);
    GrantsConcat(f.verdicts, Newly(f.secondary, Act(dur, max, f.secondary, Finish(tid))), key, ts);
  }

  /** In every run, whenever the primary fails, a key gets at most the sum of the two limits per timestamp. */
  lemma FallbackBounded(
    dur: Time, max1: int, max2: int, clock: Time, acts: seq<FallbackAction>, key: string, ts: int)
    ensures var f := FallbackRun(dur, max1, max2, clock, acts);
            && Grants(f.verdicts, key, ts) + Grants(f.lost, key, ts)
               == Min(Takes(f.primary.done, key, ts), Allowance(max1)) + Min(Takes(f.secondary.done, key, ts), Allowance(max2))
            && Grants(f.verdicts, key, ts) <= Allowance(max1) + Allowance(max2)
  {
    FallbackInv(dur, max1, max2, clock, acts, key, ts);
    var f := FallbackRun(dur, max1, max2, clock, acts);
    assert Grants(f.primary.done, key, ts) == Min(Takes(f.primary.done, key, ts), Allowance(max1));
    assert Grants(f.secondary.done, key, ts) == Min(Takes(f.secondary.done, key, ts), Allowance(max2));
  }
}
