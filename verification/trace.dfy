/** The callbacks of one batch, replayed sequentially. The reactor threads are
    replaced by a trace of events, each naming the connection (the index of
    its URI in the batch) it is fired for. The client state holds what the
    source keeps: the latch count and one context per session. It also holds
    two observation logs: the requests handed to the reactor and the
    connection behind each `count_down()` call. */
module Trace {
  import opened Wrappers
  import opened RequestExecution
  import SessionCallback
  import Latch
  import Client
  import Options

  datatype Event =
    | SessionEvent(conn: nat, outcome: SessionCallback.Outcome)
    | Init(conn: nat)
    | Submit(conn: nat)
    | Response(conn: nat)
    | Finalize(conn: nat)

  datatype Sent = Sent(conn: nat, request: Request)

  datatype State = State(
    latch: nat,
    contexts: map<nat, Context>,
    sent: seq<Sent>,
    countDowns: seq<nat>)

  /** The state right after `Client#initialize` has issued its connects. */
  function Initial(b: Client.Batch): State {
    State(b.latch, map[], [], [])
  }

  /** The session context of connection `i`; a session nothing has touched
      yet has an empty context. */
  function ContextOf(s: State, i: nat): Context {
    if i in s.contexts then s.contexts[i] else Fresh
  }

  /** Applies a callback's effect on connection `i`'s context and the latch. */
  function Apply(s: State, i: nat, e: Effect): State {
    State(
      if e.countsDown then Latch.CountDown(s.latch) else s.latch,
      s.contexts[i := e.ctx],
      if e.request.Some? then s.sent + [Sent(i, e.request.value)] else s.sent,
      if e.countsDown then s.countDowns + [i] else s.countDowns)
  }

  /** One callback. `attachments[i]` is the attachment of connection `i`; an
      `Init` for a connection that was never requested changes nothing. */
  function Step(attachments: seq<Attachment>, s: State, e: Event): State {
    match e
    case SessionEvent(i, o) =>
      if SessionCallback.CountsDown(o) then
        s.(latch := Latch.CountDown(s.latch), countDowns := s.countDowns + [i])
      else s
    case Init(i) =>
      if i < |attachments| then
        s.(contexts := s.contexts[i := InitializeContext(ContextOf(s, i), attachments[i])])
      else s
    case Submit(i) => Apply(s, i, SubmitRequest(ContextOf(s, i)))
    case Response(i) => Apply(s, i, HandleResponse(ContextOf(s, i)))
    case Finalize(i) => Apply(s, i, FinalizeContext(ContextOf(s, i)))
  }

  function Run(attachments: seq<Attachment>, s: State, trace: seq<Event>): State
    decreases |trace|
  {
    if trace == [] then s else Run(attachments, Step(attachments, s, trace[0]), trace[1..])
  }

  // ---------------------------------------------------------------------
  // What the reactor promises about the order of callbacks per connection.

  /** Where a connection stands from the reactor's point of view. `Open`
      records whether a response has been delivered. */
  datatype Phase = Pending | Abandoned | Open(responded: bool) | Closed

  /** The callbacks the reactor may fire next for a connection in phase `ph`,
      and the phase afterwards: a cancelled, failed or timed-out connect
      ends a pending connection; a successful one opens it; write readiness
      may fire any number of times while it is open; at most one response
      arrives; teardown closes it. The completed-connect report is a no-op
      that may arrive at any time before an abandonment. */
  function Advance(ph: Phase, e: Event): Option<Phase> {
    match e
    case SessionEvent(_, o) =>
      if o == SessionCallback.Completed then (if ph == Abandoned then None else Some(ph))
      else if ph == Pending then Some(Abandoned) else None
    case Init(_) => if ph == Pending then Some(Open(false)) else None
    case Submit(_) => if ph.Open? then Some(ph) else None
    case Response(_) => if ph == Open(false) then Some(Open(true)) else None
    case Finalize(_) => if ph.Open? then Some(Closed) else None
  }

  /** Replays a trace against the per-connection phases; `None` when the
      trace names an unknown connection or fires a callback out of order. */
  function Replay(phs: seq<Phase>, trace: seq<Event>): (r: Option<seq<Phase>>)
    ensures r.Some? ==> |r.value| == |phs|
    decreases |trace|
  {
    if trace == [] then Some(phs)
    else
      var i := trace[0].conn;
      if i >= |phs| then None
      else match Advance(phs[i], trace[0])
        case None => None
        case Some(p) => Replay(phs[i := p], trace[1..])
  }

  /** Replaying two traces one after the other is replaying their
      concatenation. */
  lemma {:induction false} ReplayAppend(phs: seq<Phase>, a: seq<Event>, b: seq<Event>)
    ensures Replay(phs, a + b) == (if Replay(phs, a).Some? then Replay(Replay(phs, a).value, b) else None)
    decreases |a|
  {
    if a != [] {
      assert (a + b)[0] == a[0] && (a + b)[1..] == a[1..] + b;
      var i := a[0].conn;
      if i < |phs| && Advance(phs[i], a[0]).Some? {
        ReplayAppend(phs[i := Advance(phs[i], a[0]).value], a[1..], b);
      }
    } else {
      assert a + b == b;
    }
  }

  /** A connection has made its contribution to the latch once it was
      abandoned, answered or torn down. */
  predicate Signalled(ph: Phase) {
    ph == Abandoned || ph == Open(true) || ph == Closed
  }

  predicate Terminal(ph: Phase) {
    ph == Abandoned || ph == Closed
  }

  function NumSignalled(phs: seq<Phase>): (r: nat)
    ensures r <= |phs|
  {
    if phs == [] then 0 else (if Signalled(phs[0]) then 1 else 0) + NumSignalled(phs[1..])
  }

  lemma {:induction false} NumSignalledUpdate(phs: seq<Phase>, i: nat, p: Phase)
    requires i < |phs|
    ensures NumSignalled(phs[i := p]) + (if Signalled(phs[i]) then 1 else 0)
         == NumSignalled(phs) + (if Signalled(p) then 1 else 0)
    decreases |phs|
  {
    if i > 0 {
      assert phs[i := p][1..] == phs[1..][i - 1 := p];
      NumSignalledUpdate(phs[1..], i - 1, p);
    }
  }

  lemma {:induction false} NumSignalledAll(phs: seq<Phase>)
    ensures NumSignalled(phs) == |phs| <==> forall i :: 0 <= i < |phs| ==> Signalled(phs[i])
    decreases |phs|
  {
    if phs != [] {
      NumSignalledAll(phs[1..]);
      if forall i :: 0 <= i < |phs[1..]| ==> Signalled(phs[1..][i]) {
        if Signalled(phs[0]) {
          forall i | 0 <= i < |phs|
            ensures Signalled(phs[i])
          {
            if i > 0 {
              assert phs[i] == phs[1..][i - 1];
            }
          }
        }
      } else {
        var j :| 0 <= j < |phs[1..]| && !Signalled(phs[1..][j]);
        assert !Signalled(phs[j + 1]);
      }
    }
  }

  // ---------------------------------------------------------------------
  // The invariant tying the client state to the phases.

  /** How many requests were handed to the reactor for connection `i`. */
  function SentTo(log: seq<Sent>, i: nat): nat {
    if log == [] then 0
    else SentTo(log[..|log| - 1], i) + (if log[|log| - 1].conn == i then 1 else 0)
  }

  lemma SentToAppend(log: seq<Sent>, x: Sent, i: nat)
    ensures SentTo(log + [x], i) == SentTo(log, i) + (if x.conn == i then 1 else 0)
  {
    assert (log + [x])[..|log|] == log;
  }

  /** The per-connection part of the invariant. */
  predicate ConnInv(a: Attachment, ph: Phase, s: State, i: nat) {
    var ctx := ContextOf(s, i);
    match ph
    case Pending => i !in s.contexts && SentTo(s.sent, i) == 0
    case Abandoned => i !in s.contexts && SentTo(s.sent, i) == 0
    case Open(r) =>
      && i in s.contexts
      && ctx.targetHost == Some(a.host)
      && ctx.targetPath == Some(a.path)
      && ctx.responseReceived == r
      && SentTo(s.sent, i) == (if ctx.requestSent then 1 else 0)
    case Closed => SentTo(s.sent, i) <= 1
  }

  ghost predicate Inv(att: seq<Attachment>, phs: seq<Phase>, s: State) {
    && |phs| == |att|
    && s.latch + NumSignalled(phs) == |att|
    && |s.countDowns| == NumSignalled(phs)
    && (forall x :: x in s.countDowns ==> x < |att|)
    && (forall i :: 0 <= i < |att| ==> multiset(s.countDowns)[i] == (if Signalled(phs[i]) then 1 else 0))
    && (forall k :: 0 <= k < |s.sent| ==>
          s.sent[k].conn < |att| && s.sent[k].request == Get(Some(att[s.sent[k].conn].path)))
    && (forall i :: 0 <= i < |att| ==> ConnInv(att[i], phs[i], s, i))
  }

  /** Steps that count down on connection `i`, moving it from unsignalled to
      signalled, keep the counting part of the invariant. */
  lemma CountDownStep(att: seq<Attachment>, phs: seq<Phase>, s: State, i: nat, p: Phase)
    requires Inv(att, phs, s)
    requires i < |phs| && !Signalled(phs[i]) && Signalled(p)
    ensures var s' := s.(latch := Latch.CountDown(s.latch), countDowns := s.countDowns + [i]);
      && s'.latch + NumSignalled(phs[i := p]) == |att|
      && |s'.countDowns| == NumSignalled(phs[i := p])
      && (forall x :: x in s'.countDowns ==> x < |att|)
      && (forall j :: 0 <= j < |att| ==> multiset(s'.countDowns)[j] == (if Signalled(phs[i := p][j]) then 1 else 0))
  {
    NumSignalledUpdate(phs, i, p);
  }

  /** The connect-attempt callback keeps the invariant. */
  lemma SessionStepInv(att: seq<Attachment>, phs: seq<Phase>, s: State, i: nat, o: SessionCallback.Outcome)
    requires Inv(att, phs, s)
    requires i < |phs| && Advance(phs[i], SessionEvent(i, o)).Some?
    ensures Inv(att, phs[i := Advance(phs[i], SessionEvent(i, o)).value], Step(att, s, SessionEvent(i, o)))
  {
    var p := Advance(phs[i], SessionEvent(i, o)).value;
    var s' := Step(att, s, SessionEvent(i, o));
    if SessionCallback.CountsDown(o) {
      CountDownStep(att, phs, s, i, p);
    } else {
      assert phs[i := p] == phs;
    }
    assert forall j :: 0 <= j < |att| ==> ContextOf(s', j) == ContextOf(s, j);
  }

  /** `initalize_context` keeps the invariant. */
  lemma InitStepInv(att: seq<Attachment>, phs: seq<Phase>, s: State, i: nat)
    requires Inv(att, phs, s)
    requires i < |phs| && Advance(phs[i], Init(i)).Some?
    ensures Inv(att, phs[i := Open(false)], Step(att, s, Init(i)))
  {
    var phs' := phs[i := Open(false)];
    var s' := Step(att, s, Init(i));
    NumSignalledUpdate(phs, i, Open(false));
    forall j | 0 <= j < |att|
      ensures ConnInv(att[j], phs'[j], s', j)
    {
      if j != i {
        assert ContextOf(s', j) == ContextOf(s, j);
      }
    }
  }

  /** `submit_request` keeps the invariant. */
  lemma SubmitStepInv(att: seq<Attachment>, phs: seq<Phase>, s: State, i: nat)
    requires Inv(att, phs, s)
    requires i < |phs| && phs[i].Open?
    ensures Inv(att, phs, Step(att, s, Submit(i)))
  {
    var s' := Step(att, s, Submit(i));
    var ef := SubmitRequest(ContextOf(s, i));
    forall j | 0 <= j < |att|
      ensures ConnInv(att[j], phs[j], s', j)
    {
      if ef.request.Some? {
        SentToAppend(s.sent, Sent(i, ef.request.value), j);
      }
      if j != i {
        assert ContextOf(s', j) == ContextOf(s, j);
      }
    }
  }

  /** `handle_response` keeps the invariant. */
  lemma ResponseStepInv(att: seq<Attachment>, phs: seq<Phase>, s: State, i: nat)
    requires Inv(att, phs, s)
    requires i < |phs| && phs[i] == Open(false)
    ensures Inv(att, phs[i := Open(true)], Step(att, s, Response(i)))
  {
    var phs' := phs[i := Open(true)];
    var s' := Step(att, s, Response(i));
    CountDownStep(att, phs, s, i, Open(true));
    forall j | 0 <= j < |att|
      ensures ConnInv(att[j], phs'[j], s', j)
    {
      if j != i {
        assert ContextOf(s', j) == ContextOf(s, j);
      }
    }
  }

  /** `finalize_context` keeps the invariant. */
  lemma FinalizeStepInv(att: seq<Attachment>, phs: seq<Phase>, s: State, i: nat)
    requires Inv(att, phs, s)
    requires i < |phs| && phs[i].Open?
    ensures Inv(att, phs[i := Closed], Step(att, s, Finalize(i)))
  {
    var phs' := phs[i := Closed];
    var s' := Step(att, s, Finalize(i));
    if !phs[i].responded {
      CountDownStep(att, phs, s, i, Closed);
    } else {
      NumSignalledUpdate(phs, i, Closed);
    }
    forall j | 0 <= j < |att|
      ensures ConnInv(att[j], phs'[j], s', j)
    {
      if j != i {
        assert ContextOf(s', j) == ContextOf(s, j);
      }
    }
  }

  lemma StepPreservesInv(att: seq<Attachment>, phs: seq<Phase>, s: State, e: Event)
    requires Inv(att, phs, s)
    requires e.conn < |phs| && Advance(phs[e.conn], e).Some?
    ensures Inv(att, phs[e.conn := Advance(phs[e.conn], e).value], Step(att, s, e))
  {
    var i := e.conn;
    match e {
      case SessionEvent(_, o) => SessionStepInv(att, phs, s, i, o);
      case Init(_) => InitStepInv(att, phs, s, i);
      case Submit(_) =>
        assert phs[i := phs[i]] == phs;
        SubmitStepInv(att, phs, s, i);
      case Response(_) => ResponseStepInv(att, phs, s, i);
      case Finalize(_) => FinalizeStepInv(att, phs, s, i);
    }
  }

  lemma {:induction false} RunPreservesInv(att: seq<Attachment>, phs: seq<Phase>, s: State, trace: seq<Event>)
    requires Inv(att, phs, s)
    requires Replay(phs, trace).Some?
    ensures Inv(att, Replay(phs, trace).value, Run(att, s, trace))
    decreases |trace|
  {
    if trace != [] {
      var e := trace[0];
      StepPreservesInv(att, phs, s, e);
      RunPreservesInv(att, phs[e.conn := Advance(phs[e.conn], e).value], Step(att, s, e), trace[1..]);
    }
  }

  // ---------------------------------------------------------------------
  // The batch theorems.

  /** Every connection of a fresh batch is pending. */
  function Start(n: nat): seq<Phase> {
    seq(n, _ => Pending)
  }

  lemma InitialInv(uris: seq<Client.Uri>, options: Options.Options)
    ensures Inv(Client.Attachments(Client.Setup(uris, options)), Start(|uris|), Initial(Client.Setup(uris, options)))
  {
    var phs := Start(|uris|);
    if NumSignalled(phs) != 0 {
      NumSignalledZero(phs);
    }
  }

  lemma {:induction false} NumSignalledZero(phs: seq<Phase>)
    requires forall i :: 0 <= i < |phs| ==> phs[i] == Pending
    ensures NumSignalled(phs) == 0
    decreases |phs|
  {
    if phs != [] {
      assert phs[0] == Pending;
      NumSignalledZero(phs[1..]);
    }
  }

  /** During any run the reactor can produce, the latch is lowered by exactly
      one per signalled connection (it never saturates), no connection has
      counted down twice, every request handed out is the GET for the path of
      its own URI and no connection is handed more than one. The caller's
      `await()` returns exactly when every connection is signalled. */
  lemma {:induction false} BatchAccounting(uris: seq<Client.Uri>, options: Options.Options, trace: seq<Event>)
    requires Replay(Start(|uris|), trace).Some?
    ensures var b := Client.Setup(uris, options);
      var s := Run(Client.Attachments(b), Initial(b), trace);
      var phs := Replay(Start(|uris|), trace).value;
      && s.latch == |uris| - |s.countDowns|
      && (forall i :: 0 <= i < |uris| ==> multiset(s.countDowns)[i] == (if Signalled(phs[i]) then 1 else 0))
      && (forall x :: x in s.countDowns ==> x < |uris|)
      && (forall k :: 0 <= k < |s.sent| ==> s.sent[k].conn < |uris| && s.sent[k].request == Get(Some(uris[s.sent[k].conn].path)))
      && (forall i :: 0 <= i < |uris| ==> SentTo(s.sent, i) <= 1)
      && (Latch.Released(s.latch) <==> forall i :: 0 <= i < |uris| ==> Signalled(phs[i]))
  {
    var b := Client.Setup(uris, options);
    var att := Client.Attachments(b);
    InitialInv(uris, options);
    RunPreservesInv(att, Start(|uris|), Initial(b), trace);
    var phs := Replay(Start(|uris|), trace).value;
    var s := Run(att, Initial(b), trace);
    NumSignalledAll(phs);
    forall i | 0 <= i < |uris|
      ensures SentTo(s.sent, i) <= 1
    {
      assert ConnInv(att[i], phs[i], s, i);
    }
  }

  /** Once every connection has reached a terminal outcome, each one has
      counted down exactly once and the latch sized to the batch is at zero,
      whatever mix of responses, failures, cancellations and timeouts. */
  lemma BatchDrains(uris: seq<Client.Uri>, options: Options.Options, trace: seq<Event>)
    requires Replay(Start(|uris|), trace).Some?
    requires forall i :: 0 <= i < |uris| ==> Terminal(Replay(Start(|uris|), trace).value[i])
    ensures var b := Client.Setup(uris, options);
      var s := Run(Client.Attachments(b), Initial(b), trace);
      && Latch.Released(s.latch)
      && |s.countDowns| == |uris|
      && (forall i :: 0 <= i < |uris| ==> multiset(s.countDowns)[i] == 1)
  {
    var b := Client.Setup(uris, options);
    var att := Client.Attachments(b);
    InitialInv(uris, options);
    RunPreservesInv(att, Start(|uris|), Initial(b), trace);
    NumSignalledAll(Replay(Start(|uris|), trace).value);
  }
}
