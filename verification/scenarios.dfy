/** Concrete batches, each an instance of the batch theorems. */
module Scenarios {
  import opened Wrappers
  import opened Trace
  import opened SessionCallback
  import Client
  import Latch

  const Uris3 := [Client.Uri("a", 80, "/1"), Client.Uri("b", 80, "/2"), Client.Uri("c", 8080, "/3")]

  function Served(i: nat): seq<Event> {
    [SessionEvent(i, Completed), Init(i), Submit(i), Submit(i), Response(i), Finalize(i)]
  }

  /** A pending connection that is served goes to `Closed` and touches no
      other connection's phase. */
  lemma ServedReplay(phs: seq<Phase>, i: nat)
    requires i < |phs| && phs[i] == Pending
    ensures Replay(phs, Served(i)) == Some(phs[i := Closed])
  {
    var t := Served(i);
    var o0 := phs[i := Open(false)];
    var o1 := o0[i := Open(true)];
    assert o0[i := Open(false)] == o0;
    assert o1[i := Open(true)] == o1;
    assert o1[i := Closed] == phs[i := Closed];
    assert Replay(o1, t[5..]) == Some(phs[i := Closed]);
    assert Replay(o0, t[4..]) == Replay(o1, t[5..]);
    assert Replay(o0, t[3..]) == Replay(o0, t[4..]);
    assert Replay(o0, t[2..]) == Replay(o0, t[3..]);
    assert Replay(phs, t[1..]) == Replay(o0, t[2..]);
    assert phs[i := Pending] == phs;
  }

  /** Three URIs, the first connect fails and the other two are answered:
      one decrement from the connect callback and two from responses. */
  lemma OneFailedTwoServed()
    ensures var b := Client.Setup(Uris3, map[]);
      var s := Run(Client.Attachments(b), Initial(b), [SessionEvent(0, Failed)] + Served(1) + Served(2));
      && Latch.Released(s.latch)
      && forall i :: 0 <= i < 3 ==> multiset(s.countDowns)[i] == 1
  {
    var t1 := [SessionEvent(0, Failed)];
    var p1 := [Abandoned, Pending, Pending];
    var p2 := [Abandoned, Closed, Pending];
    var p3 := [Abandoned, Closed, Closed];
    assert Start(3) == [Pending, Pending, Pending];
    assert Start(3)[0 := Abandoned] == p1;
    assert Replay(p1, t1[1..]) == Some(p1);
    assert Replay(Start(3), t1) == Some(p1);
    ServedReplay(p1, 1);
    assert p1[1 := Closed] == p2;
    ServedReplay(p2, 2);
    assert p2[2 := Closed] == p3;
    ReplayAppend(Start(3), t1, Served(1));
    ReplayAppend(Start(3), t1 + Served(1), Served(2));
    BatchDrains(Uris3, map[], t1 + Served(1) + Served(2));
  }

  /** Three URIs, all answered with repeated write readiness: the latch is
      released and each connection has counted down exactly once. */
  lemma AllServed()
    ensures var b := Client.Setup(Uris3, map[]);
      var s := Run(Client.Attachments(b), Initial(b), Served(0) + Served(1) + Served(2));
      && Latch.Released(s.latch)
      && forall i :: 0 <= i < 3 ==> multiset(s.countDowns)[i] == 1
  {
    var p0 := [Pending, Pending, Pending];
    var p1 := [Closed, Pending, Pending];
    var p2 := [Closed, Closed, Pending];
    var p3 := [Closed, Closed, Closed];
    assert Start(3) == p0;
    ServedReplay(p0, 0);
    assert p0[0 := Closed] == p1;
    ServedReplay(p1, 1);
    assert p1[1 := Closed] == p2;
    ServedReplay(p2, 2);
    assert p2[2 := Closed] == p3;
    ReplayAppend(Start(3), Served(0), Served(1));
    ReplayAppend(Start(3), Served(0) + Served(1), Served(2));
    BatchDrains(Uris3, map[], Served(0) + Served(1) + Served(2));
  }

  /** One URI whose connection is reset after the request was sent: the
      decrement comes from `finalize_context`. */
  lemma ResetAfterSend()
    ensures var uris := [Client.Uri("a", 80, "/")];
      var b := Client.Setup(uris, map[]);
      var s := Run(Client.Attachments(b), Initial(b), [Init(0), Submit(0), SessionEvent(0, Completed), Finalize(0)]);
      Latch.Released(s.latch) && s.countDowns == [0]
  {
  }

  /** An empty batch is released before any callback. */
  lemma EmptyBatch()
    ensures Latch.Released(Initial(Client.Setup([], map[])).latch)
  {
  }
}
