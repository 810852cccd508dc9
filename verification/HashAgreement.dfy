/**
 The hash walk-back of a consensus round: starting from the lowest latest block, probe every
 candidate for the proposed block and step one block down until nobody disagrees.

 A round's `fetchBlock` answers are a fixed oracle; `None` is a failed fetch, which the probe skips.
 Go ranges over the candidate map in an arbitrary order, so the orders in which the steps of a walk
 visit the candidates are a parameter: one order per step.
 */
module HashAgreement {

  import opened Words
  import opened BackendStates

  type Fetch = (Backend, U64) -> Option<(U64, string)>

  // ---------- what agreement means ----------

  /** `be` does not answer, or answers block `b` with hash `g`. */
  predicate Answers(fetch: Fetch, be: Backend, b: U64, g: string) {
    fetch(be, b).None? || fetch(be, b) == Some((b, g))
  }

  predicate AgreeOn(cs: set<Backend>, fetch: Fetch, b: U64, g: string) {
    forall be :: be in cs ==> Answers(fetch, be, b, g)
  }

  /** All answering candidates return block `b` under one hash, which is `h` unless `h` is empty. */
  ghost predicate Agree(cs: set<Backend>, fetch: Fetch, b: U64, h: string) {
    exists g :: (h == "" || g == h) && AgreeOn(cs, fetch, b, g)
  }

  predicate AgreeUpToBlank(cs: set<Backend>, fetch: Fetch, b: U64, g: string) {
    forall be :: be in cs ==> Answers(fetch, be, b, g) || Answers(fetch, be, b, "")
  }

  predicate SomeAnswer(cs: set<Backend>, fetch: Fetch, b: U64, g: string) {
    exists be :: be in cs && fetch(be, b) == Some((b, g))
  }

  /** Block `b` is answered under one hash by some candidates and under the empty hash by others. */
  ghost predicate Mixed(cs: set<Backend>, fetch: Fetch, b: U64) {
    exists g :: g != "" && AgreeUpToBlank(cs, fetch, b, g) && SomeAnswer(cs, fetch, b, g) && SomeAnswer(cs, fetch, b, "")
  }

  /** Candidates that answer at all answer with the number they were asked for. */
  ghost predicate AnswersAsked(cs: set<Backend>, fetch: Fetch) {
    forall be, b :: be in cs && fetch(be, b).Some? ==> fetch(be, b).value.0 == b
  }

  ghost predicate NoBlankHashes(cs: set<Backend>, fetch: Fetch) {
    forall be, b :: be in cs && fetch(be, b).Some? ==> fetch(be, b).value.1 != ""
  }

  // ---------- one probe, in a given order ----------

  /** The inner loop's verdict when candidates come up in this order. */
  function Verdict(order: seq<Backend>, fetch: Fetch, b: U64, h: string): bool {
    if order == [] then true
    else match fetch(order[0], b)
      case None => Verdict(order[1..], fetch, b, h)
      case Some((n, x)) =>
        var h' := if h == "" then x else h;
        n == b && x == h' && Verdict(order[1..], fetch, b, h')
  }

  /** The hash proposed once these candidates have been visited. */
  function HashAfter(order: seq<Backend>, fetch: Fetch, b: U64, h: string): string {
    if order == [] then h
    else match fetch(order[0], b)
      case None => HashAfter(order[1..], fetch, b, h)
      case Some((_, x)) => HashAfter(order[1..], fetch, b, if h == "" then x else h)
  }

  function Members(order: seq<Backend>): set<Backend> {
    set be | be in order
  }

  ghost predicate IsOrder(order: seq<Backend>, cs: set<Backend>) {
    && (forall be :: be in order <==> be in cs)
    && (forall i, j :: 0 <= i < j < |order| ==> order[i] != order[j])
  }

  lemma {:induction false} VerdictConcat(s: seq<Backend>, t: seq<Backend>, fetch: Fetch, b: U64, h: string)
    ensures Verdict(s + t, fetch, b, h) <==> Verdict(s, fetch, b, h) && Verdict(t, fetch, b, HashAfter(s, fetch, b, h))
    ensures HashAfter(s + t, fetch, b, h) == HashAfter(t, fetch, b, HashAfter(s, fetch, b, h))
    decreases |s|
  {
    if s == [] {
      assert s + t == t;
    } else {
      assert (s + t)[1..] == s[1..] + t;
      var h' := if fetch(s[0], b).Some? && h == "" then fetch(s[0], b).value.1 else h;
      VerdictConcat(s[1..], t, fetch, b, h');
    }
  }

  /** Once a hash is proposed, the probe passes iff every answer is exactly that block and hash. */
  lemma {:induction false} VerdictFixed(order: seq<Backend>, fetch: Fetch, b: U64, h: string)
    requires h != ""
    ensures Verdict(order, fetch, b, h) <==> forall be :: be in order ==> Answers(fetch, be, b, h)
  {
    if order != [] {
      VerdictFixed(order[1..], fetch, b, h);
      assert order == [order[0]] + order[1..];
      assert Answers(fetch, order[0], b, h) <==>
          (fetch(order[0], b).None? || (fetch(order[0], b).value.0 == b && fetch(order[0], b).value.1 == h));
      assert forall be :: be in order <==> be == order[0] || be in order[1..];
    }
  }

  /** Probing without a proposed hash: agreement always passes, and a pass is agreement up to blanks. */
  lemma {:induction false} VerdictOpen(order: seq<Backend>, fetch: Fetch, b: U64) returns (g: string)
    ensures Verdict(order, fetch, b, "") ==> AgreeUpToBlank(Members(order), fetch, b, g)
    ensures forall x :: AgreeOn(Members(order), fetch, b, x) ==> Verdict(order, fetch, b, "")
  {
    if order == [] {
      g := "";
    } else {
      assert forall be :: be in order <==> be == order[0] || be in order[1..];
      match fetch(order[0], b)
      case Some((n, x)) =>
        if x == "" {
          g := VerdictOpen(order[1..], fetch, b);
        } else {
          VerdictFixed(order[1..], fetch, b, x);
          g := x;
        }
        forall y | AgreeOn(Members(order), fetch, b, y) ensures Verdict(order, fetch, b, "") {
          assert Answers(fetch, order[0], b, y);
          assert AgreeOn(Members(order[1..]), fetch, b, y);
        }
      case None =>
        g := VerdictOpen(order[1..], fetch, b);
        forall y | AgreeOn(Members(order), fetch, b, y) ensures Verdict(order, fetch, b, "") {
          assert AgreeOn(Members(order[1..]), fetch, b, y);
        }
    }
  }

  /** A probe passes exactly on agreement, unless blank and non-blank hashes are mixed. */
  lemma VerdictIsAgreement(order: seq<Backend>, cs: set<Backend>, fetch: Fetch, b: U64, h: string)
    requires IsOrder(order, cs)
    ensures Agree(cs, fetch, b, h) ==> Verdict(order, fetch, b, h)
    ensures Verdict(order, fetch, b, h) ==> Agree(cs, fetch, b, h) || (h == "" && Mixed(cs, fetch, b))
  {
    assert cs == Members(order);
    if h != "" {
      VerdictFixed(order, fetch, b, h);
      assert AgreeOn(cs, fetch, b, h) <==> Verdict(order, fetch, b, h);
    } else {
      var g := VerdictOpen(order, fetch, b);
      if Verdict(order, fetch, b, "") && !AgreeOn(cs, fetch, b, g) && !AgreeOn(cs, fetch, b, "") {
        assert Mixed(cs, fetch, b);
      }
    }
  }

  // ---------- when the order matters ----------

  ghost function Listing(cs: set<Backend>): (s: seq<Backend>)
    ensures IsOrder(s, cs)
  {
    if cs == {} then []
    else
      var be :| be in cs;
      var rest := Listing(cs - {be});
      [be] + rest
  }

  lemma JoinOrders(s: seq<Backend>, t: seq<Backend>, cs: set<Backend>, ds: set<Backend>)
    requires IsOrder(s, cs) && IsOrder(t, ds) && cs !! ds
    ensures IsOrder(s + t, cs + ds)
  {
    forall i, j | 0 <= i < j < |s + t| ensures (s + t)[i] != (s + t)[j] {
      if i < |s| <= j {
        assert s[i] in cs && t[j - |s|] in ds;
      }
    }
  }

  lemma {:induction false} BlanksKeepHashOpen(order: seq<Backend>, fetch: Fetch, b: U64)
    requires forall be :: be in order ==> Answers(fetch, be, b, "")
    ensures Verdict(order, fetch, b, "") && HashAfter(order, fetch, b, "") == ""
  {
    if order != [] {
      assert Answers(fetch, order[0], b, "");
      BlanksKeepHashOpen(order[1..], fetch, b);
    }
  }

  /** Blank answers first passes. */
  lemma BlankFirstPasses(s: seq<Backend>, t: seq<Backend>, fetch: Fetch, b: U64, g: string)
    requires forall be :: be in t ==> Answers(fetch, be, b, "")
    requires forall be :: be in s ==> Answers(fetch, be, b, g)
    ensures Verdict(t + s, fetch, b, "")
  {
    BlanksKeepHashOpen(t, fetch, b);
    VerdictConcat(t, s, fetch, b, "");
    var _ := VerdictOpen(s, fetch, b);
    assert AgreeOn(Members(s), fetch, b, g);
  }

  /** A blank answer after a named one fails. */
  lemma NamedFirstFails(s: seq<Backend>, t: seq<Backend>, fetch: Fetch, b: U64, g: string, blank: Backend)
    requires g != "" && s != [] && fetch(s[0], b) == Some((b, g))
    requires blank in t && fetch(blank, b) == Some((b, ""))
    ensures !Verdict(s + t, fetch, b, "")
  {
    VerdictFixed(s[1..] + t, fetch, b, g);
    assert (s + t)[1..] == s[1..] + t;
    assert blank in s[1..] + t && !Answers(fetch, blank, b, g);
  }

  lemma MixedSplitsOrders(cs: set<Backend>, fetch: Fetch, b: U64) returns (o1: seq<Backend>, o2: seq<Backend>)
    requires Mixed(cs, fetch, b)
    ensures IsOrder(o1, cs) && IsOrder(o2, cs)
    ensures Verdict(o1, fetch, b, "") && !Verdict(o2, fetch, b, "")
  {
    var g :| g != "" && AgreeUpToBlank(cs, fetch, b, g) && SomeAnswer(cs, fetch, b, g) && SomeAnswer(cs, fetch, b, "");
    var named := set be | be in cs && fetch(be, b) == Some((b, g));
    var rest := cs - named;
    var s, t := Listing(named), Listing(rest);
    o1, o2 := t + s, s + t;
    JoinOrders(s, t, named, rest);
    JoinOrders(t, s, rest, named);
    assert named + rest == cs && rest + named == cs;
    BlankFirstPasses(s, t, fetch, b, g);
    var first :| first in cs && fetch(first, b) == Some((b, g));
    assert first in s && s[0] in named;
    var blank :| blank in cs && fetch(blank, b) == Some((b, ""));
    assert blank in rest;
    NamedFirstFails(s, t, fetch, b, g, blank);
  }

  ghost predicate OrderMatters(cs: set<Backend>, fetch: Fetch, b: U64) {
    exists o1, o2 ::
      && IsOrder(o1, cs) && IsOrder(o2, cs)
      && Verdict(o1, fetch, b, "") && !Verdict(o2, fetch, b, "")
  }

  /** Two orders can reach different verdicts iff blank and non-blank hashes are mixed. */
  lemma OrderMattersIffMixed(cs: set<Backend>, fetch: Fetch, b: U64)
    ensures OrderMatters(cs, fetch, b) <==> Mixed(cs, fetch, b)
  {
    if Mixed(cs, fetch, b) {
      var o1, o2 := MixedSplitsOrders(cs, fetch, b);
    }
    if o1, o2 :| IsOrder(o1, cs) && IsOrder(o2, cs) && Verdict(o1, fetch, b, "") && !Verdict(o2, fetch, b, "") {
      VerdictIsAgreement(o1, cs, fetch, b, "");
      VerdictIsAgreement(o2, cs, fetch, b, "");
    }
  }

  // ---------- the loops ----------

  /** The number in the first answer that does not match, if there is one. */
  function Mismatch(order: seq<Backend>, fetch: Fetch, b: U64, h: string): (m: Option<U64>)
    ensures m.None? <==> Verdict(order, fetch, b, h)
  {
    if order == [] then None
    else match fetch(order[0], b)
      case None => Mismatch(order[1..], fetch, b, h)
      case Some((n, x)) =>
        var h' := if h == "" then x else h;
        if n == b && x == h' then Mismatch(order[1..], fetch, b, h') else Some(n)
  }

  lemma {:induction false} MismatchConcat(s: seq<Backend>, t: seq<Backend>, fetch: Fetch, b: U64, h: string)
    requires Verdict(s, fetch, b, h)
    ensures Mismatch(s + t, fetch, b, h) == Mismatch(t, fetch, b, HashAfter(s, fetch, b, h))
    decreases |s|
  {
    if s == [] {
      assert s + t == t;
    } else {
      assert (s + t)[1..] == s[1..] + t;
      var h' := if fetch(s[0], b).Some? && h == "" then fetch(s[0], b).value.1 else h;
      MismatchConcat(s[1..], t, fetch, b, h');
    }
  }

  /** A mismatch is a candidate's answer, met after only matching ones, with another number or hash than proposed. */
  lemma {:induction false} MismatchMeaning(order: seq<Backend>, fetch: Fetch, b: U64, h: string) returns (i: nat)
    requires Mismatch(order, fetch, b, h).Some?
    ensures i < |order| && Verdict(order[..i], fetch, b, h) && fetch(order[i], b).Some?
    ensures var (number, hash) := fetch(order[i], b).value;
            var proposed := HashAfter(order[..i], fetch, b, h);
            Mismatch(order, fetch, b, h) == Some(number) && (number != b || (proposed != "" && hash != proposed))
  {
    var one, rest := [order[0]], order[1..];
    var h' := if fetch(order[0], b).Some? && h == "" then fetch(order[0], b).value.1 else h;
    assert one[1..] == [] && one + rest == order;
    assert HashAfter(one, fetch, b, h) == h' by {
      assert HashAfter([], fetch, b, h') == h';
    }
    assert Verdict([], fetch, b, h');
    if Verdict(one, fetch, b, h) {
      MismatchConcat(one, rest, fetch, b, h);
      var j := MismatchMeaning(rest, fetch, b, h');
      i := j + 1;
      assert order[..i] == one + rest[..j];
      VerdictConcat(one, rest[..j], fetch, b, h);
    } else {
      i := 0;
      assert order[..0] == [];
    }
  }

  /** When backends answer the number they were asked for, a mismatch is on that number. */
  lemma {:induction false} MismatchOnAsked(order: seq<Backend>, cs: set<Backend>, fetch: Fetch, b: U64, h: string)
    requires AnswersAsked(cs, fetch) && forall be :: be in order ==> be in cs
    ensures Mismatch(order, fetch, b, h).Some? ==> Mismatch(order, fetch, b, h).value == b
  {
    if order != [] {
      var h' := if fetch(order[0], b).Some? && h == "" then fetch(order[0], b).value.1 else h;
      MismatchOnAsked(order[1..], cs, fetch, b, h');
      assert order[0] in cs;
    }
  }

  /** The inner loop: probe the candidates in this order, up to the first that does not match. */
  method Probe(order: seq<Backend>, fetch: Fetch, b: U64, h: string, current: U64) returns (agreed: bool, broken: bool)
    ensures agreed <==> Verdict(order, fetch, b, h)
    ensures broken <==> Mismatch(order, fetch, b, h).Some? && Mismatch(order, fetch, b, h).value <= current
  {
    agreed, broken := true, false;
    var proposedHash := h;
    for i := 0 to |order|
      invariant Verdict(order[..i], fetch, b, h) && proposedHash == HashAfter(order[..i], fetch, b, h)
    {
      var be := order[i];
      assert order == order[..i] + order[i..] && order[i..][0] == be;
      assert order[..i + 1] == order[..i] + [be];
      MismatchConcat(order[..i], order[i..], fetch, b, h);
      VerdictConcat(order[..i], [be], fetch, b, h);
      match fetch(be, b)
      case None =>
      case Some((number, hash)) =>
        if proposedHash == "" {
          proposedHash := hash;
        }
        if number != b || hash != proposedHash {
          broken := current >= number;
          agreed := false;
          return;
        }
    }
    assert order[..|order|] == order;
  }

  // ---------- the walk ----------

  /** The block proposed after `k` decrements of an unsigned 64-bit counter. */
  function BlockAt(start: U64, k: nat): U64 {
    (start - k) % TWO_64
  }

  /** The recorded hash binds the first probe only. */
  function HashAt(startHash: string, k: nat): string {
    if k == 0 then startHash else ""
  }

  ghost predicate AgreeAt(cs: set<Backend>, fetch: Fetch, start: U64, startHash: string, k: nat) {
    Agree(cs, fetch, BlockAt(start, k), HashAt(startHash, k))
  }

  /** At step `k` no hash is proposed yet, and some candidates answer with one and others with a blank. */
  ghost predicate OpenMixed(cs: set<Backend>, fetch: Fetch, start: U64, startHash: string, k: nat) {
    HashAt(startHash, k) == "" && Mixed(cs, fetch, BlockAt(start, k))
  }

  /** The orders in which the first steps of a walk visit the candidates. */
  type Visits = seq<seq<Backend>>

  ghost predicate AreVisits(visits: Visits, cs: set<Backend>) {
    forall k :: 0 <= k < |visits| ==> IsOrder(visits[k], cs)
  }

  /** Step `k` passes when it visits the candidates in this order. */
  predicate Passes(order: seq<Backend>, fetch: Fetch, start: U64, startHash: string, k: nat) {
    Verdict(order, fetch, BlockAt(start, k), HashAt(startHash, k))
  }

  /** The walk with these visits ends at step `k`. */
  predicate EndsAt(visits: Visits, fetch: Fetch, start: U64, startHash: string, k: nat) {
    && k < |visits|
    && Passes(visits[k], fetch, start, startHash, k)
    && (forall j :: 0 <= j < k ==> !Passes(visits[j], fetch, start, startHash, j))
  }

  ghost predicate Halts(visits: Visits, fetch: Fetch, start: U64, startHash: string) {
    exists k: nat :: EndsAt(visits, fetch, start, startHash, k)
  }

  ghost predicate EndsWith(visits: Visits, fetch: Fetch, start: U64, startHash: string, b: U64) {
    exists k: nat :: EndsAt(visits, fetch, start, startHash, k) && BlockAt(start, k) == b
  }

  /** Step `k` runs into an answer that does not match and whose number is at or below `current`. */
  predicate BreaksAt(visits: Visits, fetch: Fetch, start: U64, startHash: string, current: U64, k: nat)
    requires k < |visits|
  {
    var m := Mismatch(visits[k], fetch, BlockAt(start, k), HashAt(startHash, k));
    m.Some? && m.value <= current
  }

  ghost predicate BreaksBefore(visits: Visits, fetch: Fetch, start: U64, startHash: string, current: U64, steps: nat)
    requires steps <= |visits|
  {
    exists k :: 0 <= k < steps && BreaksAt(visits, fetch, start, startHash, current, k)
  }

  /** The outer loop. It ends iff some step passes, and that is all it needs. */
  method WalkBack(visits: Visits, fetch: Fetch, start: U64, startHash: string, current: U64)
    returns (proposed: U64, broken: bool)
    requires Halts(visits, fetch, start, startHash)
    ensures EndsWith(visits, fetch, start, startHash, proposed)
    ensures forall k: nat :: EndsAt(visits, fetch, start, startHash, k) ==>
              (broken <==> BreaksBefore(visits, fetch, start, startHash, current, k))
  {
    proposed, broken := start, false;
    var proposedHash := startHash;
    var hasConsensus := false;
    var steps := 0;
    ghost var halt: nat :| EndsAt(visits, fetch, start, startHash, halt);
    while !hasConsensus
      invariant steps <= halt && proposed == BlockAt(start, steps) && proposedHash == HashAt(startHash, steps)
      invariant forall k :: 0 <= k < steps ==> !Passes(visits[k], fetch, start, startHash, k)
      invariant hasConsensus ==> EndsAt(visits, fetch, start, startHash, steps)
      invariant broken <==> BreaksBefore(visits, fetch, start, startHash, current, steps)
      decreases halt - steps, !hasConsensus
    {
      var allAgreed, brokeHere := Probe(visits[steps], fetch, proposed, proposedHash, current);
      if allAgreed {
        hasConsensus := true;
      } else {
        assert brokeHere <==> BreaksAt(visits, fetch, start, startHash, current, steps);
        broken := broken || brokeHere;
        proposed, proposedHash := Sub64(proposed, 1), "";
        steps := steps + 1;
      }
    }
    assert forall k: nat :: EndsAt(visits, fetch, start, startHash, k) ==> k == steps;
  }

  // ---------- when the walk halts, and where ----------

  /** A step passes in every order if its block is agreed on, and in some order only if agreed or openly mixed. */
  lemma PassesIfAgreed(cs: set<Backend>, order: seq<Backend>, fetch: Fetch, start: U64, startHash: string, k: nat)
    requires IsOrder(order, cs)
    ensures AgreeAt(cs, fetch, start, startHash, k) ==> Passes(order, fetch, start, startHash, k)
    ensures Passes(order, fetch, start, startHash, k) ==>
              AgreeAt(cs, fetch, start, startHash, k) || OpenMixed(cs, fetch, start, startHash, k)
  {
    VerdictIsAgreement(order, cs, fetch, BlockAt(start, k), HashAt(startHash, k));
  }

  /** An order in which the step fails, unless its block is agreed on. */
  ghost function FailingOrder(cs: set<Backend>, fetch: Fetch, start: U64, startHash: string, k: nat): (order: seq<Backend>)
    ensures IsOrder(order, cs)
    ensures Passes(order, fetch, start, startHash, k) ==> AgreeAt(cs, fetch, start, startHash, k)
  {
    if OpenMixed(cs, fetch, start, startHash, k) then
      OrderMattersIffMixed(cs, fetch, BlockAt(start, k));
      var o1, o2 :| IsOrder(o1, cs) && IsOrder(o2, cs)
                    && Verdict(o1, fetch, BlockAt(start, k), "") && !Verdict(o2, fetch, BlockAt(start, k), "");
      o2
    else
      PassesIfAgreed(cs, Listing(cs), fetch, start, startHash, k);
      Listing(cs)
  }

  ghost function FailingVisits(cs: set<Backend>, fetch: Fetch, start: U64, startHash: string, n: nat): (visits: Visits)
    ensures |visits| == n && AreVisits(visits, cs)
    ensures forall k :: 0 <= k < n && Passes(visits[k], fetch, start, startHash, k) ==> AgreeAt(cs, fetch, start, startHash, k)
  {
    seq(n, k requires 0 <= k < n => FailingOrder(cs, fetch, start, startHash, k))
  }

  ghost predicate AllHalt(cs: set<Backend>, fetch: Fetch, start: U64, startHash: string, n: nat) {
    forall visits :: AreVisits(visits, cs) && |visits| == n ==> Halts(visits, fetch, start, startHash)
  }

  lemma {:induction false} FirstPassing(visits: Visits, fetch: Fetch, start: U64, startHash: string, k: nat)
    requires k < |visits| && Passes(visits[k], fetch, start, startHash, k)
    ensures exists j: nat :: j <= k && EndsAt(visits, fetch, start, startHash, j)
  {
    if j :| 0 <= j < k && Passes(visits[j], fetch, start, startHash, j) {
      FirstPassing(visits, fetch, start, startHash, j);
    } else {
      assert EndsAt(visits, fetch, start, startHash, k);
    }
  }

  /** The loop is sure to end, within some number of steps, iff some step of the wrapping counter agrees. */
  lemma HaltsInEveryOrderIff(cs: set<Backend>, fetch: Fetch, start: U64, startHash: string)
    ensures (exists n: nat :: AllHalt(cs, fetch, start, startHash, n)) <==>
            exists k: nat :: AgreeAt(cs, fetch, start, startHash, k)
  {
    if k: nat :| AgreeAt(cs, fetch, start, startHash, k) {
      forall visits | AreVisits(visits, cs) && |visits| == k + 1 ensures Halts(visits, fetch, start, startHash) {
        PassesIfAgreed(cs, visits[k], fetch, start, startHash, k);
        FirstPassing(visits, fetch, start, startHash, k);
      }
      assert AllHalt(cs, fetch, start, startHash, k + 1);
    }
    if n: nat :| AllHalt(cs, fetch, start, startHash, n) {
      var visits := FailingVisits(cs, fetch, start, startHash, n);
      var k: nat :| EndsAt(visits, fetch, start, startHash, k);
      assert AgreeAt(cs, fetch, start, startHash, k);
    }
  }

  ghost predicate SomeHalt(cs: set<Backend>, fetch: Fetch, start: U64, startHash: string) {
    exists visits :: AreVisits(visits, cs) && Halts(visits, fetch, start, startHash)
  }

  /** The loop can end at all iff some step agrees or openly mixes blanks with hashes. */
  lemma HaltsInSomeOrderIff(cs: set<Backend>, fetch: Fetch, start: U64, startHash: string)
    ensures SomeHalt(cs, fetch, start, startHash) <==>
            exists k: nat :: AgreeAt(cs, fetch, start, startHash, k) || OpenMixed(cs, fetch, start, startHash, k)
  {
    if visits :| AreVisits(visits, cs) && Halts(visits, fetch, start, startHash) {
      var k: nat :| EndsAt(visits, fetch, start, startHash, k);
      PassesIfAgreed(cs, visits[k], fetch, start, startHash, k);
    }
    if k: nat :| AgreeAt(cs, fetch, start, startHash, k) || OpenMixed(cs, fetch, start, startHash, k) {
      var order := PassingOrder(cs, fetch, start, startHash, k);
      var visits := FailingVisits(cs, fetch, start, startHash, k) + [order];
      FirstPassing(visits, fetch, start, startHash, k);
      assert AreVisits(visits, cs) && Halts(visits, fetch, start, startHash);
    }
  }

  lemma PassingOrder(cs: set<Backend>, fetch: Fetch, start: U64, startHash: string, k: nat) returns (order: seq<Backend>)
    requires AgreeAt(cs, fetch, start, startHash, k) || OpenMixed(cs, fetch, start, startHash, k)
    ensures IsOrder(order, cs) && Passes(order, fetch, start, startHash, k)
  {
    if AgreeAt(cs, fetch, start, startHash, k) {
      order := Listing(cs);
      PassesIfAgreed(cs, order, fetch, start, startHash, k);
    } else {
      var o1, o2 := MixedSplitsOrders(cs, fetch, BlockAt(start, k));
      order := o1;
    }
  }

  ghost predicate AllEndWith(cs: set<Backend>, fetch: Fetch, start: U64, startHash: string, n: nat, b: U64) {
    forall visits :: AreVisits(visits, cs) && |visits| == n ==> EndsWith(visits, fetch, start, startHash, b)
  }

  /** Whatever the orders, the walk ends, and always at the same block. */
  ghost predicate OneEnd(cs: set<Backend>, fetch: Fetch, start: U64, startHash: string) {
    exists n: nat, b: U64 :: AllEndWith(cs, fetch, start, startHash, n, b)
  }

  /** Step `k` agrees, and before it no step agrees or is openly mixed. */
  ghost predicate CleanEnd(cs: set<Backend>, fetch: Fetch, start: U64, startHash: string, k: nat) {
    && AgreeAt(cs, fetch, start, startHash, k)
    && (forall j :: 0 <= j < k ==>
          !AgreeAt(cs, fetch, start, startHash, j) && !OpenMixed(cs, fetch, start, startHash, j))
  }

  lemma CleanEndIsEnd(cs: set<Backend>, fetch: Fetch, start: U64, startHash: string, k: nat, visits: Visits)
    requires CleanEnd(cs, fetch, start, startHash, k) && AreVisits(visits, cs) && k < |visits|
    ensures EndsAt(visits, fetch, start, startHash, k)
  {
    PassesIfAgreed(cs, visits[k], fetch, start, startHash, k);
    forall j | 0 <= j < k ensures !Passes(visits[j], fetch, start, startHash, j) {
      PassesIfAgreed(cs, visits[j], fetch, start, startHash, j);
    }
  }

  lemma MixedIsNoAgreement(cs: set<Backend>, fetch: Fetch, b: U64)
    requires Mixed(cs, fetch, b)
    ensures !Agree(cs, fetch, b, "")
  {
    var g :| g != "" && AgreeUpToBlank(cs, fetch, b, g) && SomeAnswer(cs, fetch, b, g) && SomeAnswer(cs, fetch, b, "");
    var x :| x in cs && fetch(x, b) == Some((b, g));
    var y :| y in cs && fetch(y, b) == Some((b, ""));
    assert forall h :: AgreeOn(cs, fetch, b, h) ==> Answers(fetch, x, b, h) && Answers(fetch, y, b, h);
  }

  /** An openly mixed step that no agreement precedes can be the end of the walk. */
  lemma MixedCanEnd(cs: set<Backend>, fetch: Fetch, start: U64, startHash: string, j: nat, n: nat) returns (visits: Visits)
    requires j < n && OpenMixed(cs, fetch, start, startHash, j)
    requires forall i :: 0 <= i < j ==> !AgreeAt(cs, fetch, start, startHash, i)
    ensures AreVisits(visits, cs) && |visits| == n && EndsAt(visits, fetch, start, startHash, j)
  {
    var order := PassingOrder(cs, fetch, start, startHash, j);
    visits := FailingVisits(cs, fetch, start, startHash, n)[j := order];
  }

  /** So it must not come before the end, if all choices of orders are to end at one block. */
  lemma MixedSplitsWalks(cs: set<Backend>, fetch: Fetch, start: U64, startHash: string, k: nat, j: nat, n: nat, b: U64)
    requires j < k < n && AllEndWith(cs, fetch, start, startHash, n, b)
    requires AgreeAt(cs, fetch, start, startHash, k) && BlockAt(start, k) == b
    requires forall i :: 0 <= i < k ==> !AgreeAt(cs, fetch, start, startHash, i)
    ensures !OpenMixed(cs, fetch, start, startHash, j)
  {
    if OpenMixed(cs, fetch, start, startHash, j) {
      var visits := MixedCanEnd(cs, fetch, start, startHash, j, n);
      var i: nat :| EndsAt(visits, fetch, start, startHash, i) && BlockAt(start, i) == b;
      assert i == j;
      MixedIsNoAgreement(cs, fetch, b);
      assert false;
    }
  }

  /** All choices of orders end at one block iff no step before the first agreeing one is openly mixed. */
  lemma OneEndIff(cs: set<Backend>, fetch: Fetch, start: U64, startHash: string)
    ensures OneEnd(cs, fetch, start, startHash) <==> exists k: nat :: CleanEnd(cs, fetch, start, startHash, k)
  {
    if k: nat :| CleanEnd(cs, fetch, start, startHash, k) {
      forall visits | AreVisits(visits, cs) && |visits| == k + 1
        ensures EndsWith(visits, fetch, start, startHash, BlockAt(start, k))
      {
        CleanEndIsEnd(cs, fetch, start, startHash, k, visits);
      }
      assert AllEndWith(cs, fetch, start, startHash, k + 1, BlockAt(start, k));
    }
    if n: nat, b: U64 :| AllEndWith(cs, fetch, start, startHash, n, b) {
      var k := OneEndIsClean(cs, fetch, start, startHash, n, b);
    }
  }

  lemma OneEndIsClean(cs: set<Backend>, fetch: Fetch, start: U64, startHash: string, n: nat, b: U64) returns (k: nat)
    requires AllEndWith(cs, fetch, start, startHash, n, b)
    ensures k < n && CleanEnd(cs, fetch, start, startHash, k) && BlockAt(start, k) == b
  {
    var visits := FailingVisits(cs, fetch, start, startHash, n);
    assert EndsWith(visits, fetch, start, startHash, b);
    k :| EndsAt(visits, fetch, start, startHash, k) && BlockAt(start, k) == b;
    forall j | 0 <= j < k ensures !AgreeAt(cs, fetch, start, startHash, j) {
      PassesIfAgreed(cs, visits[j], fetch, start, startHash, j);
    }
    forall j | 0 <= j < k ensures !OpenMixed(cs, fetch, start, startHash, j) {
      MixedSplitsWalks(cs, fetch, start, startHash, k, j, n, b);
    }
  }

  // ---------- the greatest agreed block ----------

  /** The candidates agree on `b`; at the starting block, on the recorded hash. */
  ghost predicate AgreeFrom(cs: set<Backend>, fetch: Fetch, start: U64, startHash: string, b: U64) {
    Agree(cs, fetch, b, if b == start then startHash else "")
  }

  /** Some block at or below the starting one is agreed on. */
  ghost predicate AgreesBelow(cs: set<Backend>, fetch: Fetch, start: U64, startHash: string) {
    exists b: U64 :: b <= start && AgreeFrom(cs, fetch, start, startHash, b)
  }

  /** `b` is the greatest block at or below `start` on which the candidates agree. */
  ghost predicate GreatestAgreed(cs: set<Backend>, fetch: Fetch, start: U64, startHash: string, b: U64) {
    && b <= start
    && AgreeFrom(cs, fetch, start, startHash, b)
    && (forall c: U64 :: b < c <= start ==> !AgreeFrom(cs, fetch, start, startHash, c))
  }

  lemma StepOfBlock(cs: set<Backend>, fetch: Fetch, start: U64, startHash: string, b: U64)
    requires b <= start
    ensures BlockAt(start, start - b) == b
    ensures AgreeAt(cs, fetch, start, startHash, start - b) <==> AgreeFrom(cs, fetch, start, startHash, b)
  {
  }

  /** With an agreed block at or below the start, the walk ends in time: it never wraps. */
  lemma EndsBelowStart(cs: set<Backend>, visits: Visits, fetch: Fetch, start: U64, startHash: string, steps: nat)
    requires AreVisits(visits, cs) && AgreesBelow(cs, fetch, start, startHash)
    requires EndsAt(visits, fetch, start, startHash, steps)
    ensures steps <= start && BlockAt(start, steps) == start - steps
  {
    var b: U64 :| b <= start && AgreeFrom(cs, fetch, start, startHash, b);
    StepOfBlock(cs, fetch, start, startHash, b);
    if start - b < steps {
      PassesIfAgreed(cs, visits[start - b], fetch, start, startHash, start - b);
    }
  }

  /** Candidates that always name a hash are never mixed, so their verdicts never depend on the order. */
  lemma NoBlanksNoMix(cs: set<Backend>, fetch: Fetch, b: U64)
    requires NoBlankHashes(cs, fetch)
    ensures !Mixed(cs, fetch, b)
  {
    assert forall be :: be in cs && fetch(be, b).Some? ==> fetch(be, b).value.1 != "";
  }

  /** When hashes are never blank and some block at or below the start agrees, the walk ends at the greatest such block. */
  lemma WalkFindsGreatest(cs: set<Backend>, visits: Visits, fetch: Fetch, start: U64, startHash: string, steps: nat)
    requires AreVisits(visits, cs) && NoBlankHashes(cs, fetch) && AgreesBelow(cs, fetch, start, startHash)
    requires EndsAt(visits, fetch, start, startHash, steps)
    ensures GreatestAgreed(cs, fetch, start, startHash, BlockAt(start, steps))
  {
    EndsBelowStart(cs, visits, fetch, start, startHash, steps);
    StepOfBlock(cs, fetch, start, startHash, start - steps);
    PassesIfAgreed(cs, visits[steps], fetch, start, startHash, steps);
    NoBlanksNoMix(cs, fetch, BlockAt(start, steps));
    forall c: U64 | start - steps < c <= start ensures !AgreeFrom(cs, fetch, start, startHash, c) {
      StepOfBlock(cs, fetch, start, startHash, c);
      PassesIfAgreed(cs, visits[start - c], fetch, start, startHash, start - c);
    }
  }

  /** Whatever hash was recorded at the start, walks that leave the starting block meet again. */
  lemma ResultsBelowStartCoincide(
    cs: set<Backend>, fetch: Fetch, start: U64, hash1: string, hash2: string, b1: U64, b2: U64)
    requires GreatestAgreed(cs, fetch, start, hash1, b1) && GreatestAgreed(cs, fetch, start, hash2, b2)
    requires b1 < start && b2 < start
    ensures b1 == b2
  {
    assert AgreeFrom(cs, fetch, start, hash2, b1) && AgreeFrom(cs, fetch, start, hash1, b2);
  }

  lemma BreaksOnAsked(
    cs: set<Backend>, visits: Visits, fetch: Fetch, start: U64, startHash: string, current: U64, steps: nat, k: nat)
    requires AreVisits(visits, cs) && AnswersAsked(cs, fetch) && EndsAt(visits, fetch, start, startHash, steps) && k < steps
    ensures BreaksAt(visits, fetch, start, startHash, current, k) <==> BlockAt(start, k) <= current
  {
    assert !Passes(visits[k], fetch, start, startHash, k);
    MismatchOnAsked(visits[k], cs, fetch, BlockAt(start, k), HashAt(startHash, k));
  }

  /**
   When backends answer the number they were asked for, the event fires exactly when disagreement
   pushes the result below the block served before.
   */
  lemma BrokenIsForcedRollback(
    cs: set<Backend>, visits: Visits, fetch: Fetch, start: U64, startHash: string, current: U64, steps: nat)
    requires AreVisits(visits, cs) && AnswersAsked(cs, fetch) && AgreesBelow(cs, fetch, start, startHash)
    requires EndsAt(visits, fetch, start, startHash, steps)
    ensures BreaksBefore(visits, fetch, start, startHash, current, steps) <==>
            BlockAt(start, steps) < start && BlockAt(start, steps) < current
  {
    EndsBelowStart(cs, visits, fetch, start, startHash, steps);
    forall k | 0 <= k < steps
      ensures BreaksAt(visits, fetch, start, startHash, current, k) <==> start - k <= current
    {
      BreaksOnAsked(cs, visits, fetch, start, startHash, current, steps, k);
    }
    if 0 < steps && start - steps < current {
      assert BreaksAt(visits, fetch, start, startHash, current, steps - 1);
    }
  }
}
