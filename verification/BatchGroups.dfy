/**
 How the server's batch handler takes a client batch apart: requests are answered at the door or
 grouped so that no group holds an ID twice, and the cache misses of a group are cut into minibatches.

 Rate limits, the cache, deadlines and what surrounds the n-th forward are oracles.
 */
module BatchGroups {

  import opened Words
  import opened Arithmetic
  import opened Rpc
  import opened BatchForward

  datatype Raw = Unparsable | Parsed(req: Req, wellFormed: bool)

  datatype Env = Env(
    methodGroup: map<string, string>,
    limited: nat -> Option<Err>,
    cached: nat -> Option<Body>,
    deadline: nat -> bool,
    call: (nat, string) -> Call,
    maxUpstreamBatchSize: nat)

  datatype BatchResult =
    | Responses(rs: seq<Res>)
    | DeadlineExceeded
    | Aborted(err: Err)
    | Crashed(cause: PanicCause)

  const HEALTHZ_METHOD := "proxyd_healthz"
  const HEALTHZ_OK := Result(200)
  const ACCOUNTS_METHOD := "eth_accounts"
  const NO_ACCOUNTS := Result(0)

  // ---------- at the door ----------

  /** The backend group a method is mapped to; empty when it is not whitelisted. */
  function GroupOf(env: Env, req: Req): string {
    if req.rpcMethod in env.methodGroup then env.methodGroup[req.rpcMethod] else ""
  }

  /** What a request is answered before any forwarding; `None` sends it on to its backend group. */
  function AtTheDoor(env: Env, raw: Raw, i: nat): Option<Res> {
    if raw.Unparsable? then Some(Res(NULL_ID, Error(ParseError)))
    else if !raw.wellFormed then Some(Res(NULL_ID, Error(InvalidRequest)))
    else
      var req := raw.req;
      if req.rpcMethod == ACCOUNTS_METHOD then Some(Res(req.id, NO_ACCOUNTS))
      else if GroupOf(env, req) == "" then
        Some(Res(req.id, Error(NotWhitelisted)))
      else if env.limited(i).Some? then Some(Res(req.id, Error(env.limited(i).value)))
      else None
  }

  /**
   A request passes iff it is well-formed, mapped to a group, within its limits and not about
   accounts. Whoever does not pass gets an error, except for the empty list of accounts, and every
   well-formed request gets it under its own ID.
   */
  lemma DoorGuarantees(env: Env, raw: Raw, i: nat)
    ensures AtTheDoor(env, raw, i).None? <==>
            && raw.Parsed? && raw.wellFormed && raw.req.rpcMethod != "eth_accounts"
            && raw.req.rpcMethod in env.methodGroup && env.methodGroup[raw.req.rpcMethod] != "" && env.limited(i).None?
    ensures AtTheDoor(env, raw, i).Some? ==>
              var r := AtTheDoor(env, raw, i).value;
              && r.id == (if raw.Parsed? && raw.wellFormed then raw.req.id else NULL_ID)
              && (r.body.Result? <==> raw.Parsed? && raw.wellFormed && raw.req.rpcMethod == "eth_accounts")
              && (raw.Unparsable? ==> r.body == Error(ParseError))
              && (raw.Parsed? && !raw.wellFormed ==> r.body == Error(InvalidRequest))
              && (r.body.Error? && raw.Parsed? && raw.wellFormed ==>
                    r.body.err == if raw.req.rpcMethod in env.methodGroup && env.methodGroup[raw.req.rpcMethod] != ""
                                  then env.limited(i).value else NotWhitelisted)
  {
  }

  predicate Forwards(env: Env, raw: seq<Raw>, i: nat): (b: bool)
    requires i < |raw|
    ensures b ==> raw[i].Parsed?
  {
    AtTheDoor(env, raw[i], i).None?
  }

  // ---------- grouping ----------

  datatype Elem = Elem(req: Req, index: nat)

  datatype Group = Group(groupId: nat, backendGroup: string)

  function ReqsOf(elems: seq<Elem>): (reqs: seq<Req>)
    ensures |reqs| == |elems| && forall i :: 0 <= i < |elems| ==> reqs[i] == elems[i].req
  {
    seq(|elems|, i requires 0 <= i < |elems| => elems[i].req)
  }

  /** How many of the first `n` requests are to be forwarded and carry this ID. */
  function Occurrences(env: Env, raw: seq<Raw>, id: string, n: nat): nat
    requires n <= |raw|
  {
    if n == 0 then 0
    else Occurrences(env, raw, id, n - 1) + if Forwards(env, raw, n - 1) && raw[n - 1].req.id == id then 1 else 0
  }

  /** The group of a forwarded request: the how-manieth of its ID it is, and its backend group. */
  function GroupAt(env: Env, raw: seq<Raw>, i: nat): Group
    requires i < |raw| && Forwards(env, raw, i)
  {
    Group(Occurrences(env, raw, raw[i].req.id, i + 1), GroupOf(env, raw[i].req))
  }

  /** `e` stands for one of the first `n` requests, which is forwarded in group `g`. */
  predicate InGroup(env: Env, raw: seq<Raw>, g: Group, n: nat, e: Elem)
    requires n <= |raw|
  {
    e.index < n && Forwards(env, raw, e.index) && e.req == raw[e.index].req && GroupAt(env, raw, e.index) == g
  }

  predicate Ascending(elems: seq<Elem>) {
    forall a, b :: 0 <= a < b < |elems| ==> elems[a].index < elems[b].index
  }

  /** Group `g` of the first `n` requests, in order. */
  function Batch(env: Env, raw: seq<Raw>, g: Group, n: nat): (batch: seq<Elem>)
    requires n <= |raw|
    ensures forall e :: e in batch <==> InGroup(env, raw, g, n, e)
    ensures Ascending(batch)
  {
    if n == 0 then []
    else
      var rest := Batch(env, raw, g, n - 1);
      var batch := if Forwards(env, raw, n - 1) && GroupAt(env, raw, n - 1) == g
                   then rest + [Elem(raw[n - 1].req, n - 1)] else rest;
      assert forall a :: 0 <= a < |rest| ==> rest[a] in rest;
      batch
  }

  lemma {:induction false} OccurrencesGrow(env: Env, raw: seq<Raw>, id: string, m: nat, n: nat)
    requires m <= n <= |raw|
    ensures Occurrences(env, raw, id, m) <= Occurrences(env, raw, id, n)
  {
    if m < n {
      OccurrencesGrow(env, raw, id, m, n - 1);
    }
  }

  /** No group holds an ID twice. */
  lemma BatchDistinct(env: Env, raw: seq<Raw>, g: Group)
    ensures DistinctIds(ReqsOf(Batch(env, raw, g, |raw|)))
  {
    var batch := Batch(env, raw, g, |raw|);
    forall a, b | 0 <= a < b < |batch| ensures batch[a].req.id != batch[b].req.id {
      assert InGroup(env, raw, g, |raw|, batch[a]) && InGroup(env, raw, g, |raw|, batch[b]);
      OccurrencesGrow(env, raw, batch[a].req.id, batch[a].index + 1, batch[b].index);
    }
  }

  /** Without repeated IDs there is one group per backend group. */
  lemma {:induction false} DistinctIdsOneGroup(env: Env, raw: seq<Raw>, i: nat)
    requires i < |raw| && Forwards(env, raw, i)
    requires forall j :: 0 <= j < i && Forwards(env, raw, j) ==> raw[j].req.id != raw[i].req.id
    ensures raw[i].req.rpcMethod in env.methodGroup
    ensures GroupAt(env, raw, i) == Group(1, env.methodGroup[raw[i].req.rpcMethod])
  {
    NoneBefore(env, raw, raw[i].req.id, i);
  }

  lemma {:induction false} NoneBefore(env: Env, raw: seq<Raw>, id: string, n: nat)
    requires n <= |raw| && forall j :: 0 <= j < n && Forwards(env, raw, j) ==> raw[j].req.id != id
    ensures Occurrences(env, raw, id, n) == 0
  {
    if n > 0 {
      NoneBefore(env, raw, id, n - 1);
    }
  }

  /** A repeated ID goes to the group after that of its previous occurrence. */
  lemma RepeatedIdNextGroup(env: Env, raw: seq<Raw>, i: nat, j: nat)
    requires i < j < |raw| && Forwards(env, raw, i) && Forwards(env, raw, j) && raw[i].req.id == raw[j].req.id
    requires forall k :: i < k < j && Forwards(env, raw, k) ==> raw[k].req.id != raw[i].req.id
    ensures GroupAt(env, raw, j).groupId == GroupAt(env, raw, i).groupId + 1
  {
    SameUntil(env, raw, raw[i].req.id, i + 1, j);
  }

  lemma {:induction false} SameUntil(env: Env, raw: seq<Raw>, id: string, m: nat, n: nat)
    requires m <= n <= |raw| && forall k :: m <= k < n && Forwards(env, raw, k) ==> raw[k].req.id != id
    ensures Occurrences(env, raw, id, n) == Occurrences(env, raw, id, m)
  {
    if m < n {
      SameUntil(env, raw, id, m, n - 1);
    }
  }

  function Seen(ids: map<string, nat>, id: string): nat {
    if id in ids then ids[id] else 0
  }

  function BatchIn(batches: map<Group, seq<Elem>>, g: Group): seq<Elem> {
    if g in batches then batches[g] else []
  }

  /** The counters are the occurrences among the first `n` requests. */
  ghost predicate CountsOk(env: Env, raw: seq<Raw>, ids: map<string, nat>, n: nat)
    requires n <= |raw|
  {
    forall id :: Seen(ids, id) == Occurrences(env, raw, id, n)
  }

  /** The map holds exactly the groups of the first `n` requests. */
  ghost predicate BatchesOk(env: Env, raw: seq<Raw>, batches: map<Group, seq<Elem>>, n: nat)
    requires n <= |raw|
  {
    forall g :: BatchIn(batches, g) == Batch(env, raw, g, n)
  }

  /** The first `n` slots hold what was answered at the door; the rest are empty. */
  predicate DoorSlots(env: Env, raw: seq<Raw>, n: nat, slots: seq<Option<Res>>) {
    && n <= |raw| == |slots|
    && (forall i :: 0 <= i < n ==> slots[i] == AtTheDoor(env, raw[i], i))
    && (forall i :: n <= i < |raw| ==> slots[i].None?)
  }

  lemma SameGroups(env: Env, raw: seq<Raw>, ids: map<string, nat>, batches: map<Group, seq<Elem>>, i: nat)
    requires i < |raw| && !Forwards(env, raw, i) && CountsOk(env, raw, ids, i) && BatchesOk(env, raw, batches, i)
    ensures CountsOk(env, raw, ids, i + 1) && BatchesOk(env, raw, batches, i + 1)
  {
    forall id ensures Seen(ids, id) == Occurrences(env, raw, id, i + 1) {
      assert Seen(ids, id) == Occurrences(env, raw, id, i);
    }
    forall g ensures BatchIn(batches, g) == Batch(env, raw, g, i + 1) {
      assert BatchIn(batches, g) == Batch(env, raw, g, i);
    }
  }

  lemma AppendToGroup(
    env: Env, raw: seq<Raw>, ids: map<string, nat>, batches: map<Group, seq<Elem>>, i: nat,
    ids': map<string, nat>, batches': map<Group, seq<Elem>>)
    requires i < |raw| && Forwards(env, raw, i) && CountsOk(env, raw, ids, i) && BatchesOk(env, raw, batches, i)
    requires var req := raw[i].req;
             && ids' == ids[req.id := Seen(ids, req.id) + 1]
             && (var g := Group(ids'[req.id], GroupOf(env, req)); batches' == batches[g := BatchIn(batches, g) + [Elem(req, i)]])
    ensures CountsOk(env, raw, ids', i + 1) && BatchesOk(env, raw, batches', i + 1)
  {
    forall id ensures Seen(ids', id) == Occurrences(env, raw, id, i + 1) {
      assert Seen(ids, id) == Occurrences(env, raw, id, i);
    }
    forall g ensures BatchIn(batches', g) == Batch(env, raw, g, i + 1) {
      assert BatchIn(batches, g) == Batch(env, raw, g, i);
    }
  }

  // ---------- misses and minibatches ----------

  /** The requests the cache does not answer, in order. */
  function Misses(env: Env, batch: seq<Elem>): (misses: seq<Elem>)
    ensures forall e :: e in misses <==> e in batch && env.cached(e.index).None?
  {
    if batch == [] then []
    else
      var n := |batch| - 1;
      Misses(env, batch[..n]) + if env.cached(batch[n].index).None? then [batch[n]] else []
  }

  lemma AppendDistinct(elems: seq<Elem>, e: Elem)
    requires DistinctIds(ReqsOf(elems)) && forall i :: 0 <= i < |elems| ==> elems[i].req.id != e.req.id
    ensures DistinctIds(ReqsOf(elems + [e]))
  {
    assert ReqsOf(elems + [e]) == ReqsOf(elems) + [e.req];
  }

  lemma SliceDistinct(elems: seq<Elem>, lo: nat, hi: nat)
    requires lo <= hi <= |elems| && DistinctIds(ReqsOf(elems))
    ensures DistinctIds(ReqsOf(elems[lo..hi]))
  {
    var reqs, part := ReqsOf(elems), ReqsOf(elems[lo..hi]);
    forall i, j | 0 <= i < j < |part| ensures part[i].id != part[j].id {
      assert part[i] == reqs[lo + i] && part[j] == reqs[lo + j];
    }
  }

  lemma MissesBefore(env: Env, batch: seq<Elem>, n: nat, i: nat) returns (j: nat)
    requires n <= |batch| && i < |Misses(env, batch[..n])|
    ensures j < n && batch[j] == Misses(env, batch[..n])[i]
  {
    assert Misses(env, batch[..n])[i] in batch[..n];
    j :| 0 <= j < n && batch[..n][j] == Misses(env, batch[..n])[i];
  }

  lemma {:induction false} MissesDistinct(env: Env, batch: seq<Elem>)
    requires DistinctIds(ReqsOf(batch))
    ensures DistinctIds(ReqsOf(Misses(env, batch)))
  {
    if batch != [] {
      var n := |batch| - 1;
      var rest, e := Misses(env, batch[..n]), batch[n];
      SliceDistinct(batch, 0, n);
      assert batch[0..n] == batch[..n];
      MissesDistinct(env, batch[..n]);
      forall i | 0 <= i < |rest| ensures rest[i].req.id != e.req.id {
        var j := MissesBefore(env, batch, n, i);
        assert ReqsOf(batch)[j].id != ReqsOf(batch)[n].id;
      }
      AppendDistinct(rest, e);
    }
  }

  lemma {:induction false} MissesAscending(env: Env, batch: seq<Elem>)
    requires Ascending(batch)
    ensures Ascending(Misses(env, batch))
  {
    if batch != [] {
      var n := |batch| - 1;
      MissesAscending(env, batch[..n]);
      forall i | 0 <= i < |Misses(env, batch[..n])| ensures Misses(env, batch[..n])[i].index < batch[n].index {
        var j := MissesBefore(env, batch, n, i);
      }
    }
  }

  /** Where the i-th minibatch of `n` requests starts. */
  function Offset(n: nat, max: nat, i: nat): (start: nat)
    ensures start <= n
  {
    if i == 0 then 0
    else
      var end := Offset(n, max, i - 1) + max;
      if end < n then end else n
  }

  lemma {:induction false} OffsetIsProduct(n: nat, max: nat, i: nat)
    ensures Offset(n, max, i) == if i * max < n then i * max else n
  {
    if i > 0 {
      OffsetIsProduct(n, max, i - 1);
      assert i * max == (i - 1) * max + max;
    }
  }

  lemma EnoughBatches(n: nat, max: nat, q: nat)
    requires 0 < max && q == (n + max - 1) / max
    ensures Offset(n, max, q) == n && forall i :: 0 <= i < q ==> Offset(n, max, i) < n
  {
    assert q * max <= n + max - 1 < q * max + max;
    OffsetIsProduct(n, max, q);
    forall i | 0 <= i < q ensures Offset(n, max, i) < n {
      OffsetIsProduct(n, max, i);
      MultiplesApart(i, q, max);
    }
  }

  /** Full minibatches as long as there are enough requests, and one last one for the rest. */
  function Minibatches(misses: seq<Elem>, max: nat): seq<seq<Elem>>
    requires 0 < max
    decreases |misses|
  {
    if misses == [] then []
    else if |misses| <= max then [misses]
    else [misses[..max]] + Minibatches(misses[max..], max)
  }

  ghost function Flatten(bs: seq<seq<Elem>>): seq<Elem> {
    if bs == [] then [] else bs[0] + Flatten(bs[1..])
  }

  lemma {:induction false} FlattenConcat(s: seq<seq<Elem>>, b: seq<Elem>)
    ensures Flatten(s + [b]) == Flatten(s) + b
  {
    if s == [] {
      assert [b][1..] == [];
    } else {
      assert (s + [b])[1..] == s[1..] + [b];
      FlattenConcat(s[1..], b);
    }
  }

  lemma {:induction false} FlattenHas(bs: seq<seq<Elem>>, b: seq<Elem>, x: Elem)
    requires b in bs && x in b
    ensures x in Flatten(bs)
  {
    if bs[0] != b {
      FlattenHas(bs[1..], b, x);
    }
  }

  lemma {:induction false} MinibatchesFlatten(misses: seq<Elem>, max: nat)
    requires 0 < max
    ensures Flatten(Minibatches(misses, max)) == misses
    decreases |misses|
  {
    if |misses| > max {
      MinibatchesFlatten(misses[max..], max);
      var bs := Minibatches(misses, max);
      assert bs[0] == misses[..max] && bs[1..] == Minibatches(misses[max..], max);
    } else if misses != [] {
      assert [misses][1..] == [];
    }
  }

  lemma {:induction false} MinibatchesFit(misses: seq<Elem>, max: nat, b: seq<Elem>)
    requires 0 < max && DistinctIds(ReqsOf(misses)) && b in Minibatches(misses, max)
    ensures 0 < |b| <= max && DistinctIds(ReqsOf(b))
    decreases |misses|
  {
    if |misses| > max {
      if b == misses[..max] {
        SliceDistinct(misses, 0, max);
        assert misses[0..max] == misses[..max];
      } else {
        SliceDistinct(misses, max, |misses|);
        assert misses[max..|misses|] == misses[max..];
        MinibatchesFit(misses[max..], max, b);
      }
    }
  }

  lemma {:induction false} MinibatchesFull(misses: seq<Elem>, max: nat)
    requires 0 < max
    ensures forall i :: 0 <= i < |Minibatches(misses, max)| - 1 ==> |Minibatches(misses, max)[i]| == max
    decreases |misses|
  {
    if |misses| > max {
      MinibatchesFull(misses[max..], max);
      var bs := Minibatches(misses, max);
      assert forall i :: 0 < i < |bs| ==> bs[i] == Minibatches(misses[max..], max)[i - 1];
    }
  }

  /** Minibatches are non-empty, all but the last full, free of duplicate IDs, and concatenate to exactly the misses. */
  lemma MinibatchesCover(misses: seq<Elem>, max: nat)
    requires 0 < max && DistinctIds(ReqsOf(misses))
    ensures Flatten(Minibatches(misses, max)) == misses
    ensures forall b :: b in Minibatches(misses, max) ==> 0 < |b| <= max && DistinctIds(ReqsOf(b))
    ensures forall i :: 0 <= i < |Minibatches(misses, max)| - 1 ==> |Minibatches(misses, max)[i]| == max
  {
    MinibatchesFlatten(misses, max);
    MinibatchesFull(misses, max);
    forall b | b in Minibatches(misses, max) ensures 0 < |b| <= max && DistinctIds(ReqsOf(b)) {
      MinibatchesFit(misses, max, b);
    }
  }

  /** The first of the remaining minibatches. */
  lemma NextMinibatch(misses: seq<Elem>, max: nat, start: nat, end: nat)
    requires 0 < max && start < end <= |misses| && end == if start + max < |misses| then start + max else |misses|
    ensures Minibatches(misses[start..], max) == [misses[start..end]] + Minibatches(misses[end..], max)
  {
    var rest := misses[start..];
    if start + max < |misses| {
      assert rest[..max] == misses[start..end] && rest[max..] == misses[end..];
    } else {
      assert rest == misses[start..end] && misses[end..] == [];
    }
  }

  /** The minibatches of a group: those of its cache misses. */
  function MinibatchesOf(env: Env, raw: seq<Raw>, g: Group): seq<seq<Elem>>
    requires 0 < env.maxUpstreamBatchSize
  {
    Minibatches(Misses(env, Batch(env, raw, g, |raw|)), env.maxUpstreamBatchSize)
  }
}
