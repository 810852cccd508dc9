/**
 The multicall strategy: one goroutine per backend sends its response into a channel with room for
 all of them, a closer waits for the wait group and closes the channel, and the receiver returns the
 first acceptable response.

 Launching, sending, finishing, closing and receiving are atomic actions that interleave
 arbitrarily. An action that is not enabled changes nothing, so every list of actions is a run; a
 send on the closed channel is the one thing that panics.
 */
module Multicall {

  import opened Words

  /** What a backend's forward produced. */
  datatype Resp = Resp(backend: nat, failed: bool, rpcError: bool)

  predicate Acceptable(checkRpcErrors: bool, r: Resp) {
    !r.failed && !(checkRpcErrors && r.rpcError)
  }

  datatype Sender = Forwarding | Sent | Finished

  /** `last` is the latest unacceptable response; a return of `None` is "no response received". */
  datatype Receiver = Waiting(received: nat, last: Option<Resp>) | Returned(resp: Option<Resp>)

  datatype State = State(
    senders: seq<Sender>,
    waitGroup: int,
    buffer: seq<Resp>,
    closed: bool,
    receiver: Receiver,
    panicked: bool,
    arrived: seq<Resp>)

  datatype Action =
    | Launch
    | Send(i: nat, failed: bool, rpcError: bool)
    | Finish(i: nat)
    | Close
    | Receive

  const INIT := State([], 0, [], false, Waiting(0, None), false, [])

  /** A sender that has its response but finds the channel full waits. */
  predicate Blocked(backends: nat, s: State, i: nat) {
    i < |s.senders| && s.senders[i].Forwarding? && !s.closed && |s.buffer| >= backends
  }

  function Act(backends: nat, check: bool, s: State, a: Action): State {
    match a
    case Launch =>
      if |s.senders| < backends then s.(senders := s.senders + [Forwarding], waitGroup := s.waitGroup + 1) else s
    case Send(i, failed, rpcError) =>
      if i >= |s.senders| || !s.senders[i].Forwarding? || Blocked(backends, s, i) then s
      else if s.closed then s.(panicked := true)
      else
        var r := Resp(i, failed, rpcError);
        s.(senders := s.senders[i := Sent], buffer := s.buffer + [r], arrived := s.arrived + [r])
    case Finish(i) =>
      if i >= |s.senders| || !s.senders[i].Sent? then s
      else s.(senders := s.senders[i := Finished], waitGroup := s.waitGroup - 1)
    case Close =>
      if |s.senders| == backends && s.waitGroup == 0 then s.(closed := true) else s
    case Receive =>
      if |s.senders| < backends || s.receiver.Returned? then s
      else if s.buffer != [] then
        var r := s.buffer[0];
        s.(buffer := s.buffer[1..],
           receiver := if Acceptable(check, r) then Returned(Some(r)) else Waiting(s.receiver.received + 1, Some(r)))
      else if s.closed then
        s.(receiver := Returned(if s.receiver.received > 0 then s.receiver.last else None))
      else s
  }

  function Run(backends: nat, check: bool, acts: seq<Action>): State {
    if acts == [] then INIT
    else Act(backends, check, Run(backends, check, acts[..|acts| - 1]), acts[|acts| - 1])
  }

  // ---------- counting ----------

  function Count(senders: seq<Sender>, x: Sender): (n: nat)
    ensures n <= |senders|
  {
    if senders == [] then 0
    else Count(senders[..|senders| - 1], x) + if senders[|senders| - 1] == x then 1 else 0
  }

  lemma {:induction false} CountUpdate(senders: seq<Sender>, i: nat, y: Sender, x: Sender)
    requires i < |senders|
    ensures Count(senders[i := y], x) ==
            Count(senders, x) - (if senders[i] == x then 1 else 0) + (if y == x then 1 else 0)
  {
    var n := |senders| - 1;
    if i == n {
      assert senders[i := y][..n] == senders[..n];
    } else {
      assert senders[i := y][..n] == senders[..n][i := y];
      CountUpdate(senders[..n], i, y, x);
    }
  }

  lemma CountAppend(senders: seq<Sender>, y: Sender, x: Sender)
    ensures Count(senders + [y], x) == Count(senders, x) + if y == x then 1 else 0
  {
    assert (senders + [y])[..|senders|] == senders;
  }

  lemma {:induction false} CountSome(senders: seq<Sender>, i: nat)
    requires i < |senders|
    ensures 0 < Count(senders, senders[i])
  {
    if i < |senders| - 1 {
      CountSome(senders[..|senders| - 1], i);
    }
  }

  // ---------- the invariant ----------

  predicate AllRejected(check: bool, rs: seq<Resp>) {
    forall k :: 0 <= k < |rs| ==> !Acceptable(check, rs[k])
  }

  /** How many responses the receiver has taken out of the channel. */
  function Taken(s: State): int {
    |s.arrived| - |s.buffer|
  }

  /** Who has sent, who is counted by the wait group, and what is on its way. */
  predicate ChannelOk(backends: nat, s: State) {
    && |s.senders| <= backends
    && s.waitGroup == Count(s.senders, Forwarding) + Count(s.senders, Sent)
    && |s.arrived| == |s.senders| - Count(s.senders, Forwarding)
    && (s.closed ==> |s.senders| == backends && s.waitGroup == 0)
    && !s.panicked
    && 0 <= Taken(s)
    && s.buffer == s.arrived[Taken(s)..]
  }

  /** Each sender that has sent has exactly one response in the arrivals. */
  predicate SendersOk(s: State) {
    && (forall k :: 0 <= k < |s.arrived| ==> s.arrived[k].backend < |s.senders| && !s.senders[s.arrived[k].backend].Forwarding?)
    && (forall j, k :: 0 <= j < k < |s.arrived| ==> s.arrived[j].backend != s.arrived[k].backend)
    && (forall i :: 0 <= i < |s.senders| && !s.senders[i].Forwarding? ==> Arrived(s.arrived, i))
  }

  predicate Arrived(arrived: seq<Resp>, i: nat) {
    exists k :: 0 <= k < |arrived| && arrived[k].backend == i
  }

  /** The receiver has seen the arrivals in order and none before the current one was acceptable. */
  ghost predicate ReceiverOk(backends: nat, check: bool, s: State)
    requires 0 <= Taken(s) <= |s.arrived|
  {
    match s.receiver
    case Waiting(received, last) =>
      && received == Taken(s)
      && AllRejected(check, s.arrived[..Taken(s)])
      && (received > 0 ==> last == Some(s.arrived[Taken(s) - 1]))
    case Returned(None) => backends == 0
    case Returned(Some(r)) =>
      if Acceptable(check, r)
      then exists k: nat :: FirstAcceptable(check, s.arrived, k, r)
      else
        && |s.arrived| == backends && s.closed && AllRejected(check, s.arrived)
        && s.arrived != [] && r == s.arrived[|s.arrived| - 1]
  }

  predicate FirstAcceptable(check: bool, arrived: seq<Resp>, k: nat, r: Resp) {
    k < |arrived| && arrived[k] == r && AllRejected(check, arrived[..k])
  }

  ghost predicate Inv(backends: nat, check: bool, s: State) {
    ChannelOk(backends, s) && SendersOk(s) && ReceiverOk(backends, check, s)
  }

  lemma SendChannel(backends: nat, s: State, s': State, i: nat, r: Resp)
    requires ChannelOk(backends, s) && i < |s.senders| && s.senders[i].Forwarding?
    requires s' == s.(senders := s.senders[i := Sent], buffer := s.buffer + [r], arrived := s.arrived + [r])
    ensures ChannelOk(backends, s') && Taken(s') == Taken(s)
  {
    CountSome(s.senders, i);
    CountUpdate(s.senders, i, Sent, Forwarding);
    CountUpdate(s.senders, i, Sent, Sent);
    assert s'.arrived[Taken(s)..] == s.arrived[Taken(s)..] + [r];
  }

  lemma SendSenders(s: State, s': State, i: nat, r: Resp)
    requires SendersOk(s) && i < |s.senders| && s.senders[i].Forwarding? && r.backend == i
    requires s'.senders == s.senders[i := Sent] && s'.arrived == s.arrived + [r]
    ensures SendersOk(s')
  {
    forall j | 0 <= j < |s'.senders| && !s'.senders[j].Forwarding? ensures Arrived(s'.arrived, j) {
      if j == i {
        assert s'.arrived[|s.arrived|].backend == i;
      } else {
        assert Arrived(s.arrived, j);
        var k :| 0 <= k < |s.arrived| && s.arrived[k].backend == j;
        assert s'.arrived[k].backend == j;
      }
    }
  }

  lemma SendReceiver(backends: nat, check: bool, s: State, s': State, r: Resp)
    requires 0 <= Taken(s) <= |s.arrived| && Taken(s') == Taken(s) && ReceiverOk(backends, check, s)
    requires s'.receiver == s.receiver && s'.arrived == s.arrived + [r] && !s.closed
    ensures ReceiverOk(backends, check, s')
  {
    assert s'.arrived[..Taken(s)] == s.arrived[..Taken(s)];
    match s.receiver
    case Waiting(_, _) =>
    case Returned(None) =>
    case Returned(Some(x)) =>
      if Acceptable(check, x) {
        var k: nat :| FirstAcceptable(check, s.arrived, k, x);
        assert s'.arrived[..k] == s.arrived[..k];
        assert FirstAcceptable(check, s'.arrived, k, x);
      }
  }

  lemma InvSend(backends: nat, check: bool, s: State, i: nat, failed: bool, rpcError: bool)
    requires Inv(backends, check, s)
    ensures Inv(backends, check, Act(backends, check, s, Send(i, failed, rpcError)))
  {
    if i < |s.senders| && s.senders[i].Forwarding? {
      CountSome(s.senders, i);
      var s' := Act(backends, check, s, Send(i, failed, rpcError));
      if s' != s {
        var r := Resp(i, failed, rpcError);
        SendChannel(backends, s, s', i, r);
        SendSenders(s, s', i, r);
        SendReceiver(backends, check, s, s', r);
      }
    }
  }

  /** Steps that touch neither the arrivals nor the receiver. */
  lemma Quiet(backends: nat, check: bool, s: State, s': State)
    requires Inv(backends, check, s) && ChannelOk(backends, s')
    requires s'.arrived == s.arrived && s'.buffer == s.buffer && s'.receiver == s.receiver
    requires s.closed ==> s'.closed
    requires |s.senders| <= |s'.senders|
    requires forall i :: 0 <= i < |s.senders| ==> s'.senders[i].Forwarding? == s.senders[i].Forwarding?
    requires forall i :: |s.senders| <= i < |s'.senders| ==> s'.senders[i].Forwarding?
    ensures Inv(backends, check, s')
  {
    QuietSenders(s, s');
    QuietReceiver(backends, check, s, s');
  }

  lemma QuietSenders(s: State, s': State)
    requires SendersOk(s) && s'.arrived == s.arrived
    requires |s.senders| <= |s'.senders|
    requires forall i :: 0 <= i < |s.senders| ==> s'.senders[i].Forwarding? == s.senders[i].Forwarding?
    requires forall i :: |s.senders| <= i < |s'.senders| ==> s'.senders[i].Forwarding?
    ensures SendersOk(s')
  {
  }

  lemma QuietReceiver(backends: nat, check: bool, s: State, s': State)
    requires 0 <= Taken(s) <= |s.arrived| && ReceiverOk(backends, check, s)
    requires s'.arrived == s.arrived && s'.buffer == s.buffer && s'.receiver == s.receiver
    requires s.closed ==> s'.closed
    ensures ReceiverOk(backends, check, s')
  {
  }

  lemma FinishChannel(backends: nat, s: State, s': State, i: nat)
    requires ChannelOk(backends, s) && i < |s.senders| && s.senders[i].Sent?
    requires s' == s.(senders := s.senders[i := Finished], waitGroup := s.waitGroup - 1)
    ensures ChannelOk(backends, s')
  {
    CountSome(s.senders, i);
    CountUpdate(s.senders, i, Finished, Forwarding);
    CountUpdate(s.senders, i, Finished, Sent);
  }

  lemma InvFinish(backends: nat, check: bool, s: State, i: nat)
    requires Inv(backends, check, s)
    ensures Inv(backends, check, Act(backends, check, s, Finish(i)))
  {
    if i < |s.senders| && s.senders[i].Sent? {
      var s' := Act(backends, check, s, Finish(i));
      FinishChannel(backends, s, s', i);
      Quiet(backends, check, s, s');
    }
  }

  lemma InvLaunch(backends: nat, check: bool, s: State)
    requires Inv(backends, check, s)
    ensures Inv(backends, check, Act(backends, check, s, Launch))
  {
    if |s.senders| < backends {
      CountAppend(s.senders, Forwarding, Forwarding);
      CountAppend(s.senders, Forwarding, Sent);
      Quiet(backends, check, s, Act(backends, check, s, Launch));
    }
  }

  /** The receiver takes the oldest arrival it has not seen. */
  lemma TakeOne(backends: nat, check: bool, s: State, s': State, r: Resp)
    requires 0 <= Taken(s) < |s.arrived| && r == s.arrived[Taken(s)]
    requires s.receiver.Waiting? && ReceiverOk(backends, check, s)
    requires s'.arrived == s.arrived && |s'.buffer| == |s.buffer| - 1
    requires s'.receiver == if Acceptable(check, r) then Returned(Some(r)) else Waiting(s.receiver.received + 1, Some(r))
    ensures ReceiverOk(backends, check, s')
  {
    var t := Taken(s);
    if Acceptable(check, r) {
      assert FirstAcceptable(check, s'.arrived, t, r);
    } else {
      assert s'.arrived[..t + 1] == s.arrived[..t] + [r];
    }
  }

  /** The channel is drained and closed: whatever was seen last is the result. */
  lemma TakeNone(backends: nat, check: bool, s: State, s': State)
    requires ChannelOk(backends, s) && s.receiver.Waiting? && s.buffer == [] && s.closed
    requires ReceiverOk(backends, check, s)
    requires s' == s.(receiver := Returned(if s.receiver.received > 0 then s.receiver.last else None))
    ensures ReceiverOk(backends, check, s')
  {
    assert s.arrived[..Taken(s)] == s.arrived;
  }

  lemma ReceiveChannel(backends: nat, s: State, s': State)
    requires ChannelOk(backends, s) && s.buffer != []
    requires s' == s.(buffer := s.buffer[1..], receiver := s'.receiver)
    ensures ChannelOk(backends, s')
  {
    assert s'.buffer == s'.arrived[Taken(s')..];
  }

  lemma ReceiveOne(backends: nat, check: bool, s: State, s': State, r: Resp)
    requires Inv(backends, check, s) && s.buffer != [] && r == s.buffer[0] && s.receiver.Waiting?
    requires s' == s.(buffer := s.buffer[1..],
                      receiver := if Acceptable(check, r) then Returned(Some(r)) else Waiting(s.receiver.received + 1, Some(r)))
    ensures Inv(backends, check, s')
  {
    ReceiveChannel(backends, s, s');
    TakeOne(backends, check, s, s', r);
    SameSenders(s, s');
  }

  lemma ReceiveEnd(backends: nat, check: bool, s: State, s': State)
    requires Inv(backends, check, s) && s.buffer == [] && s.closed && s.receiver.Waiting?
    requires s' == s.(receiver := Returned(if s.receiver.received > 0 then s.receiver.last else None))
    ensures Inv(backends, check, s')
  {
    TakeNone(backends, check, s, s');
    SameSenders(s, s');
  }

  lemma InvReceive(backends: nat, check: bool, s: State)
    requires Inv(backends, check, s)
    ensures Inv(backends, check, Act(backends, check, s, Receive))
  {
    if |s.senders| >= backends && s.receiver.Waiting? {
      if s.buffer != [] {
        ReceiveOne(backends, check, s, Act(backends, check, s, Receive), s.buffer[0]);
      } else if s.closed {
        ReceiveEnd(backends, check, s, Act(backends, check, s, Receive));
      }
    }
  }

  lemma SameSenders(s: State, s': State)
    requires SendersOk(s) && s'.senders == s.senders && s'.arrived == s.arrived
    ensures SendersOk(s')
  {
  }

  lemma InvStep(backends: nat, check: bool, s: State, a: Action)
    requires Inv(backends, check, s)
    ensures Inv(backends, check, Act(backends, check, s, a))
  {
    match a
    case Launch =>
      InvLaunch(backends, check, s);
    case Send(i, failed, rpcError) =>
      InvSend(backends, check, s, i, failed, rpcError);
    case Finish(i) =>
      InvFinish(backends, check, s, i);
    case Close =>
      Quiet(backends, check, s, Act(backends, check, s, Close));
    case Receive =>
      InvReceive(backends, check, s);
  }

  lemma {:induction false} InvHolds(backends: nat, check: bool, acts: seq<Action>)
    ensures Inv(backends, check, Run(backends, check, acts))
  {
    if acts != [] {
      InvHolds(backends, check, acts[..|acts| - 1]);
      InvStep(backends, check, Run(backends, check, acts[..|acts| - 1]), acts[|acts| - 1]);
    }
  }

  // ---------- what every run guarantees ----------

  /** No interleaving sends on the closed channel or makes a sender wait. */
  lemma NoPanicNoBlock(backends: nat, check: bool, acts: seq<Action>, i: nat)
    ensures !Run(backends, check, acts).panicked
    ensures !Blocked(backends, Run(backends, check, acts), i)
  {
    InvHolds(backends, check, acts);
    var s := Run(backends, check, acts);
    if i < |s.senders| && s.senders[i].Forwarding? {
      CountSome(s.senders, i);
    }
  }

  /** An acceptable result is the earliest acceptable arrival. */
  lemma AcceptableIsEarliest(backends: nat, check: bool, acts: seq<Action>, r: Resp) returns (k: nat)
    requires Run(backends, check, acts).receiver == Returned(Some(r)) && Acceptable(check, r)
    ensures FirstAcceptable(check, Run(backends, check, acts).arrived, k, r)
  {
    InvHolds(backends, check, acts);
    k :| FirstAcceptable(check, Run(backends, check, acts).arrived, k, r);
  }

  /** An unacceptable result means every backend answered, all unacceptably, and this was the last to arrive. */
  lemma UnacceptableIsLast(backends: nat, check: bool, acts: seq<Action>, r: Resp)
    requires Run(backends, check, acts).receiver == Returned(Some(r)) && !Acceptable(check, r)
    ensures var s := Run(backends, check, acts);
            && AllRejected(check, s.arrived)
            && |s.arrived| == backends > 0 && r == s.arrived[backends - 1]
            && (forall i :: 0 <= i < backends ==> Arrived(s.arrived, i))
  {
    InvHolds(backends, check, acts);
    var s := Run(backends, check, acts);
    forall i | 0 <= i < backends ensures Arrived(s.arrived, i) {
      if s.senders[i].Forwarding? {
        CountSome(s.senders, i);
      }
    }
  }

  /** Only a group without backends goes without a response. */
  lemma EmptyOnlyWithoutBackends(backends: nat, check: bool, acts: seq<Action>)
    requires Run(backends, check, acts).receiver == Returned(None)
    ensures backends == 0
  {
    InvHolds(backends, check, acts);
  }

  /** A response not worth returning while others may come: it failed, or it carries an RPC error and these are checked. */
  predicate Bad(check: bool, r: Resp) {
    r.failed || (check && r.rpcError)
  }

  /**
   What a returned response means: the first to arrive that is not bad; or, if all backends answered
   badly, the last to arrive.
   */
  lemma ReturnedMeaning(backends: nat, check: bool, acts: seq<Action>, r: Resp) returns (k: nat)
    requires Run(backends, check, acts).receiver == Returned(Some(r))
    ensures var s := Run(backends, check, acts);
            && k < |s.arrived| && s.arrived[k] == r
            && (forall j :: 0 <= j < k ==> Bad(check, s.arrived[j]))
            && (Bad(check, r) ==> k == |s.arrived| - 1 == backends - 1)
  {
    InvHolds(backends, check, acts);
    var s := Run(backends, check, acts);
    if Bad(check, r) {
      k := |s.arrived| - 1;
    } else {
      k := AcceptableIsEarliest(backends, check, acts, r);
      assert forall j :: 0 <= j < k ==> s.arrived[..k][j] == s.arrived[j];
    }
  }

  lemma ArrivedStep(backends: nat, check: bool, s: State, a: Action)
    ensures var arrived := Act(backends, check, s, a).arrived;
            arrived == s.arrived || (a.Send? && arrived == s.arrived + [Resp(a.i, a.failed, a.rpcError)])
  {
  }

  /** Whatever arrives was sent, as it was sent. */
  lemma {:induction false} ArrivedWasSent(backends: nat, check: bool, acts: seq<Action>, k: nat) returns (i: nat)
    requires k < |Run(backends, check, acts).arrived|
    ensures var r := Run(backends, check, acts).arrived[k];
            i < |acts| && acts[i] == Send(r.backend, r.failed, r.rpcError)
  {
    var n := |acts| - 1;
    ArrivedStep(backends, check, Run(backends, check, acts[..n]), acts[n]);
    if k < |Run(backends, check, acts[..n]).arrived| {
      i := ArrivedWasSent(backends, check, acts[..n], k);
    } else {
      i := n;
    }
  }

  // ---------- the call comes to an end ----------

  /** What is still to happen. */
  function ToDo(backends: nat, s: State): int {
    4 * (backends - |s.senders|) + 3 * Count(s.senders, Forwarding) + Count(s.senders, Sent) + |s.buffer|
    + (if s.closed then 0 else 1) + (if s.receiver.Waiting? then 1 else 0)
  }

  /** Every action that changes anything leaves less to do, so only finitely many do. */
  lemma EveryActionCounts(backends: nat, check: bool, s: State, a: Action)
    requires ChannelOk(backends, s) && Act(backends, check, s, a) != s
    ensures 0 <= ToDo(backends, Act(backends, check, s, a)) < ToDo(backends, s)
  {
    match a
    case Launch =>
      CountAppend(s.senders, Forwarding, Forwarding);
      CountAppend(s.senders, Forwarding, Sent);
    case Send(i, _, _) =>
      CountSome(s.senders, i);
      CountUpdate(s.senders, i, Sent, Forwarding);
      CountUpdate(s.senders, i, Sent, Sent);
    case Finish(i) =>
      CountSome(s.senders, i);
      CountUpdate(s.senders, i, Finished, Forwarding);
      CountUpdate(s.senders, i, Finished, Sent);
    case Close =>
    case Receive =>
  }

  lemma {:induction false} SomeSender(senders: seq<Sender>, x: Sender) returns (i: nat)
    requires Count(senders, x) > 0
    ensures i < |senders| && senders[i] == x
  {
    var n := |senders| - 1;
    if senders[n] == x {
      i := n;
    } else {
      i := SomeSender(senders[..n], x);
    }
  }

  /** As long as the receiver waits, some action is possible that changes something: the call is never stuck. */
  lemma NeverStuck(backends: nat, check: bool, acts: seq<Action>) returns (a: Action)
    requires Run(backends, check, acts).receiver.Waiting?
    ensures Act(backends, check, Run(backends, check, acts), a) != Run(backends, check, acts)
  {
    InvHolds(backends, check, acts);
    var s := Run(backends, check, acts);
    if |s.senders| < backends {
      a := Launch;
    } else if s.buffer != [] {
      a := Receive;
    } else if Count(s.senders, Forwarding) > 0 {
      var i := SomeSender(s.senders, Forwarding);
      a := Send(i, false, false);
      assert Act(backends, check, s, a).senders[i] == Sent;
    } else if Count(s.senders, Sent) > 0 {
      var i := SomeSender(s.senders, Sent);
      a := Finish(i);
      assert Act(backends, check, s, a).senders[i] == Finished;
    } else if !s.closed {
      a := Close;
    } else {
      a := Receive;
    }
  }
}
