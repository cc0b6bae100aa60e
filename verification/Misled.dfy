/** What happens when a pipe terminates although it should not, as `PubSub.Safe` says: a subscriber loses touch with
    a pipe that works, and then misleads its publisher. */
module Misled {
  import opened Options
  import opened Tree
  import opened Listing
  import opened Subscriptions
  import opened Streams
  import opened Sockets
  import opened PubSub
  import Fanout
  import Topics

  // ----- putting a run together

  predicate Goes(s: System, e: Step, n: System) {
    Enabled(s, e) && Next(s, e) == Some(n)
  }

  lemma {:induction false} RunChain(ss: seq<System>, es: seq<Step>)
    requires |ss| == |es| + 1 && forall i :: 0 <= i < |es| ==> Goes(ss[i], es[i], ss[i + 1])
    ensures Run(ss[0], es) == Some(ss[|es|])
    decreases |es|
  {
    if es != [] {
      assert Goes(ss[0], es[0], ss[1]);
      forall i | 0 <= i < |es[1..]| ensures Goes(ss[1..][i], es[1..][i], ss[1..][i + 1]) {
        assert Goes(ss[i + 1], es[i + 1], ss[i + 2]);
      }
      RunChain(ss[1..], es[1..]);
    }
  }

  lemma {:induction false} RunConcat(s: System, a: seq<Step>, b: seq<Step>)
    ensures Run(s, a + b) == if Run(s, a).None? then None else Run(Run(s, a).value, b)
    decreases |a|
  {
    if a == [] {
      assert a + b == b;
    } else {
      assert (a + b)[0] == a[0] && (a + b)[1..] == a[1..] + b;
      if !Enabled(s, a[0]) {
        RunConcat(s, a[1..], b);
      } else if Next(s, a[0]).Some? {
        RunConcat(Next(s, a[0]).value, a[1..], b);
      }
    }
  }

  /** One subscriber and one publisher. */
  function Sys(n: Node<nat>, c: Fan, links: map<Pipe, Link>, x: Xpub): System {
    System(map[0 := Subscriber(n, c)], links, map[0 := Publisher(x, [])])
  }

  function Pub(subs: Node<Pipes>): Xpub {
    Xpub(subs, [], false, false)
  }

  function Pipeline(log: seq<Blob>, taken: nat): Link {
    Link(0, 0, log, taken, Attached, true, false)
  }

  /** A new pipe. */
  lemma NewPipe(n: Node<nat>, c: Fan, links: map<Pipe, Link>, x: Xpub, p: Pipe)
    requires p !in links
    ensures Run(Sys(n, c, links, x), [Open(p, 0, 0), SubAttach(p)]) ==
            Some(Sys(n, Fanout.Attach(c, p), links[p := Pipeline(Greeting(n), 0)], x))
  {
    var s := Sys(n, c, links, x);
    var s1 := Sys(n, c, links[p := Link(0, 0, [], 0, New, true, false)], x);
    var s2 := Sys(n, Fanout.Attach(c, p), links[p := Pipeline(Greeting(n), 0)], x);
    hide Fanout.Attach, Greeting;
    assert AfterOpen(s, p, 0, 0) == s1;
    assert AfterAttach(s1, p) == s2;
    RunChain([s, s1, s2], [Open(p, 0, 0), SubAttach(p)]);
  }

  // ----- the subscriptions

  const ALL: Topic := []
  const X: Topic := [88]

  /** Subscribed to everything, and to `X` as well. */
  const BOTH: Node<nat> := Node(1, 88, 1, [Some(Leaf(1))])

  lemma SendsAll()
    ensures Send(Leaf(0), On(ALL)) == Passed(Leaf(1))
  {
  }

  lemma SendsX()
    ensures Send(Leaf(1), On(X)) == Passed(BOTH)
  {
    var b := On(X);
    assert b == [1, 88] && b[1..] == [88] && X[1..] == [];
    assert At(Leaf(1), X, 0) == 0;
    var g := Widen(Leaf(1), 88);
    assert g == Node(1, 88, 0, [None]);
    assert Upsert(Leaf(0), X[1..], 1, 0) == Leaf(1);
    assert SetKid(g, 88, Some(Leaf(1))) == BOTH;
  }

  lemma EndsX()
    ensures Send(BOTH, Off(X)) == Passed(Topics.Rm(BOTH, X))
  {
    var b := Off(X);
    assert b == [0, 88] && b[1..] == [88] && X[1..] == [];
    assert At(Leaf(1), [], 0) == 1;
    assert Kid(BOTH, 88) == Some(Leaf(1));
    assert At(BOTH, X, 0) == 1;
  }

  lemma Greets()
    ensures Greeting(Leaf(0)) == []
    ensures Greeting(BOTH) == [On(ALL), On(X)]
  {
    assert Listed(Leaf(0), Topics.Stored(), []) == [];
    assert Listed(Leaf(1), Topics.Stored(), [88]) == [[88]];
    assert ALL + [88] == X;
    assert ListedByKid(BOTH, Topics.Stored(), [], 0) == [X];
    assert ListedBelow(BOTH, Topics.Stored(), [], 1) == [X];
    assert Topics.Applied(BOTH) == [ALL, X];
  }

  // ----- the publisher

  /** The publisher when pipe 5 has subscribed to both topics and pipe 2 to everything. */
  const HEARD: Node<Pipes> := Node({2, 5}, 88, 1, [Some(Leaf({5}))])

  lemma Hears()
    ensures Hear(Pub(Empty()), 2, On(ALL)) == Some(Pub(Leaf({2})))
    ensures Hear(Pub(Leaf({2})), 5, On(ALL)) == Some(Pub(Leaf({2, 5})))
  {
    assert NOBODY + {2} == {2} && {2} + {5} == {2, 5};
    assert Add(Empty(), ALL, 2) == Leaf({2});
    assert Pub(Empty()).pending + [] == [];
  }

  lemma HearsX()
    ensures Hear(Pub(Leaf({2, 5})), 5, On(X)) == Some(Pub(HEARD))
  {
    var b := On(X);
    assert b[1..] == X && X[1..] == [];
    var n: Node<Pipes> := Leaf({2, 5});
    assert At(n, X, NOBODY) == NOBODY;
    var g := Widen(n, 88);
    assert g == Node({2, 5}, 88, 0, [None]);
    assert Upsert(Leaf(NOBODY), X[1..], {5}, NOBODY) == Leaf({5});
    assert SetKid(g, 88, Some(Leaf({5}))) == HEARD;
    assert NOBODY + {5} == {5};
    assert Add(n, X, 5) == HEARD;
    assert Pub(n).pending + [] == [];
  }

  /** Pipe 2 ends a subscription that only pipe 5 has. */
  lemma Misheard()
    ensures Hear(Pub(HEARD), 2, Off(X)) == None
  {
    var b := Off(X);
    assert b[1..] == X && X[1..] == [];
    assert Kid(HEARD, 88) == Some(Leaf({5}));
    assert At(Leaf<Pipes>({5}), [], NOBODY) == {5};
    assert At(HEARD, X, NOBODY) == {5};
    assert HasNode(HEARD, X);
  }

  // ----- the subscriber

  function Order(pipes: seq<Pipe>, matching: nat, active: nat): Fan
    requires matching <= active <= |pipes|
  {
    Fanout.Cursors(pipes, matching, active, active, false)
  }

  /** Pipe 3 refuses: it is passive from then on. */
  lemma Refuses(takes: set<Pipe>)
    requires 1 in takes && 2 in takes && 3 !in takes
    ensures Fanout.SentToAll(Order([1, 2, 3], 0, 3), takes, false) == Order([1, 2, 3], 2, 2)
  {
    var c := Order([1, 2, 3], 3, 3);
    assert Fanout.Refused(c, 2) == Order([1, 2, 3], 2, 2);
    assert Fanout.Push(Order([1, 2, 3], 2, 2), 2, takes) == Order([1, 2, 3], 2, 2);
    assert Fanout.Push(c, 2, takes) == Order([1, 2, 3], 2, 2);
    assert Fanout.Push(c, 1, takes) == Order([1, 2, 3], 2, 2);
  }

  /** Then pipe 1 terminates, and pipe 3 is taken for active and pipe 2 for passive. */
  lemma Terminates()
    ensures Fanout.Terminated(Order([1, 2, 3], 2, 2), 0) == Order([3, 2], 1, 1)
  {
  }

  lemma RefusesAgain(takes: set<Pipe>)
    requires 3 !in takes
    ensures Fanout.SentToAll(Order([3, 2], 1, 1), takes, false) == Order([3, 2], 0, 0)
  {
    var c := Order([3, 2], 1, 1);
    assert Fanout.Refused(c, 0) == Order([3, 2], 0, 0);
  }

  lemma Joins()
    ensures Fanout.Attach(Order([], 0, 0), 1) == Order([1], 0, 1)
    ensures Fanout.Attach(Order([1], 0, 1), 2) == Order([1, 2], 0, 2)
    ensures Fanout.Attach(Order([1, 2], 0, 2), 3) == Order([1, 2, 3], 0, 3)
    ensures Fanout.Attach(Order([3, 2], 0, 0), 4) == Order([4, 2, 3], 0, 1)
    ensures Fanout.Attach(Order([4, 2, 3], 0, 1), 5) == Order([4, 5, 3, 2], 0, 2)
  {
  }

  /** Pipe 4 terminates, and pipe 2 is taken for active and pipe 5 for passive. */
  lemma TerminatesAgain(takes: set<Pipe>)
    requires 2 in takes
    ensures Fanout.Terminated(Order([4, 5, 3, 2], 0, 2), 0) == Order([2, 5, 3], 0, 1)
    ensures Fanout.SentToAll(Order([2, 5, 3], 0, 1), takes, false) == Order([2, 5, 3], 1, 1)
  {
  }

  // ----- the runs

  /** Three pipes. */
  function Before(): System {
    Sys(Leaf(0), Order([1, 2, 3], 0, 3), Links([], [], [], 0), Pub(Empty()))
  }

  function Links(log1: seq<Blob>, log2: seq<Blob>, log3: seq<Blob>, taken2: nat): map<Pipe, Link> {
    map[1 := Pipeline(log1, 0), 2 := Pipeline(log2, taken2), 3 := Pipeline(log3, 0)]
  }

  /** The first pipe has gone, the third refuses; the second, which works, has heard of everything but not of
      `X`. */
  function Between(taken: nat, x: Xpub): System {
    Sys(BOTH, Order([3, 2], 0, 0),
        map[1 := Pipeline([On(ALL)], 0).(stage := Gone), 2 := Pipeline([On(ALL)], taken),
            3 := Pipeline([], 0).(refuses := true)],
        x)
  }

  const SETUP := [NewSub(0), NewPub(0, false, false)] +
                 ([Open(1, 0, 0), SubAttach(1)] + ([Open(2, 0, 0), SubAttach(2)] + [Open(3, 0, 0), SubAttach(3)]))

  const MISSED := [PeerCloses(3), SubSend(0, On(ALL), false), SubTerminated(1), SubSend(0, On(X), false), PubRead(2)]

  lemma Setup()
    ensures Run(START, SETUP) == Some(Before())
  {
    var e: map<Pipe, Link> := map[];
    var s0 := Sys(Leaf(0), Order([], 0, 0), e, Pub(Empty()));
    var s := AfterNewSub(START, 0);
    assert AfterNewPub(s, 0, false, false) == s0;
    RunChain([START, s, s0], [NewSub(0), NewPub(0, false, false)]);
    Greets();
    Joins();
    var p := Pipeline([], 0);
    hide Fanout.Attach, Run, Greeting, AfterNewSub, AfterNewPub;
    NewPipe(Leaf(0), Order([], 0, 0), e, Pub(Empty()), 1);
    NewPipe(Leaf(0), Order([1], 0, 1), e[1 := p], Pub(Empty()), 2);
    NewPipe(Leaf(0), Order([1, 2], 0, 2), e[1 := p][2 := p], Pub(Empty()), 3);
    assert e[1 := p][2 := p][3 := p] == Links([], [], [], 0);
    var a, b, c := [Open(1, 0, 0), SubAttach(1)], [Open(2, 0, 0), SubAttach(2)], [Open(3, 0, 0), SubAttach(3)];
    RunConcat(Sys(Leaf(0), Order([1], 0, 1), e[1 := p], Pub(Empty())), b, c);
    RunConcat(s0, a, b + c);
    RunConcat(START, [NewSub(0), NewPub(0, false, false)], a + (b + c));
  }

  function Closed(log1: seq<Blob>, log2: seq<Blob>, stage: Stage): map<Pipe, Link> {
    map[1 := Pipeline(log1, 0).(stage := stage), 2 := Pipeline(log2, 0), 3 := Pipeline([], 0).(refuses := true)]
  }

  /** The third refuses. */
  function Missed1(): System {
    Sys(Leaf(0), Order([1, 2, 3], 0, 3), Closed([], [], Attached), Pub(Empty()))
  }

  function Missed2(): System {
    Sys(Leaf(1), Order([1, 2, 3], 2, 2), Closed([On(ALL)], [On(ALL)], Attached), Pub(Empty()))
  }

  function Missed3(): System {
    Sys(Leaf(1), Order([3, 2], 1, 1), Closed([On(ALL)], [On(ALL)], Gone), Pub(Empty()))
  }

  lemma ClosesThird()
    ensures Goes(Before(), PeerCloses(3), Missed1())
  {
    assert AfterClosing(Before(), 3) == Missed1();
  }

  lemma SendsAllToTwo()
    ensures Goes(Missed1(), SubSend(0, On(ALL), false), Missed2())
  {
    var m := Closed([], [], Attached);
    SendsAll();
    Refuses(Takers(m));
    assert [1, 2, 3][..3] == [1, 2, 3];
    assert [] + [On(ALL)] == [On(ALL)];
    assert Tell(m, [1, 2, 3], On(ALL)) == Closed([On(ALL)], [On(ALL)], Attached);
    hide Send, Fanout.SentToAll, Tell, On;
    assert AfterSend(Missed1(), 0, On(ALL), false) == Missed2();
    hide AfterSend;
  }

  lemma LosesFirst()
    ensures Goes(Missed2(), SubTerminated(1), Missed3())
  {
    Terminates();
    hide Fanout.Terminated, On;
    assert Place([1, 2, 3], 1) == 0;
    assert AfterTermination(Missed2(), 1) == Missed3();
  }

  lemma SendsXToNobody()
    ensures Goes(Missed3(), SubSend(0, On(X), false), Between(0, Pub(Empty())))
  {
    var m := Closed([On(ALL)], [On(ALL)], Gone);
    SendsX();
    RefusesAgain(Takers(m));
    assert [3, 2][..1] == [3];
    assert Tell(m, [3], On(X)) == m;
    hide Send, Fanout.SentToAll, Tell, On;
    assert AfterSend(Missed3(), 0, On(X), false) == Between(0, Pub(Empty()));
    hide AfterSend;
  }

  lemma ReadsAll()
    ensures Goes(Between(0, Pub(Empty())), PubRead(2), Between(1, Pub(Leaf({2}))))
  {
    Hears();
    hide Hear, On;
    var s, t := Between(0, Pub(Empty())), Between(1, Pub(Leaf({2})));
    assert s.links[2 := Pipeline([On(ALL)], 1)] == t.links;
    assert s.pubs[0 := Publisher(Pub(Leaf({2})), [])] == t.pubs;
  }

  lemma MissedRun()
    ensures Run(Before(), MISSED) == Some(Between(1, Pub(Leaf({2}))))
  {
    ClosesThird();
    SendsAllToTwo();
    LosesFirst();
    SendsXToNobody();
    ReadsAll();
    var es := [PeerCloses(3), SubSend(0, On(ALL), false), SubTerminated(1), SubSend(0, On(X), false), PubRead(2)];
    assert MISSED == es;
    hide *;
    RunChain([Before(), Missed1(), Missed2(), Missed3(), Between(0, Pub(Empty())), Between(1, Pub(Leaf({2})))], es);
  }

  /** So the two ends of a pipe that works and is drained do not agree: its subscriber has subscribed to a topic that
      its publisher does not know of. */
  lemma TerminationMisses()
    ensures var r := Run(START, SETUP + MISSED);
            && r.Some? && Drained(r.value, 2)
            && !Agreed(r.value.subs[r.value.links[2].sub].topics, r.value.pubs[r.value.links[2].pub].x, 2)
  {
    Setup();
    MissedRun();
    RunConcat(START, SETUP, MISSED);
    hide Run;
    assert X[1..] == [] && Kid(BOTH, 88) == Some(Leaf(1)) && At(Leaf(1), [], 0) == 1;
    assert Topics.Count(BOTH, X) == 1 && 2 !in Holders(Leaf({2}), X);
  }

  // ----- and then

  const TWO_MORE := [Open(4, 0, 0), SubAttach(4)] + [Open(5, 0, 0), SubAttach(5)]

  const MISLED := [SubTerminated(4), SubSend(0, Off(X), false), PubRead(5), PubRead(5), PubRead(2)]

  function After4(n: Node<nat>, c: Fan, log2: seq<Blob>, stage4: Stage, taken5: nat, subs: Node<Pipes>): System {
    Sys(n, c,
        map[1 := Pipeline([On(ALL)], 0).(stage := Gone), 2 := Pipeline(log2, 1), 3 := Pipeline([], 0).(refuses := true),
            4 := Pipeline([On(ALL), On(X)], 0).(stage := stage4), 5 := Pipeline([On(ALL), On(X)], taken5)],
        Pub(subs))
  }

  lemma TwoMore()
    ensures Run(Between(1, Pub(Leaf({2}))), TWO_MORE) == Some(Misled1())
  {
    var s := Between(1, Pub(Leaf({2})));
    var p := Pipeline([On(ALL), On(X)], 0);
    Greets();
    Joins();
    hide Fanout.Attach, Run, Greeting, On;
    NewPipe(BOTH, Order([3, 2], 0, 0), s.links, Pub(Leaf({2})), 4);
    NewPipe(BOTH, Order([4, 2, 3], 0, 1), s.links[4 := p], Pub(Leaf({2})), 5);
    RunConcat(s, [Open(4, 0, 0), SubAttach(4)], [Open(5, 0, 0), SubAttach(5)]);
    assert s.links[4 := p][5 := p] == Misled1().links;
  }

  function Misled1(): System {
    After4(BOTH, Order([4, 5, 3, 2], 0, 2), [On(ALL)], Attached, 0, Leaf({2}))
  }

  function Misled2(): System {
    After4(BOTH, Order([2, 5, 3], 0, 1), [On(ALL)], Gone, 0, Leaf({2}))
  }

  /** The second has been told of the end of `X`. */
  function Misled3(taken5: nat, subs: Node<Pipes>): System {
    After4(Topics.Rm(BOTH, X), Order([2, 5, 3], 1, 1), [On(ALL), Off(X)], Gone, taken5, subs)
  }

  lemma LosesFourth()
    ensures Goes(Misled1(), SubTerminated(4), Misled2())
  {
    TerminatesAgain({2});
    hide Fanout.Terminated, On;
    assert Place([4, 5, 3, 2], 4) == 0;
    assert AfterTermination(Misled1(), 4) == Misled2();
  }

  lemma TellsSecond()
    ensures Tell(Misled2().links, [2], Off(X)) == Misled3(0, Leaf({2})).links
  {
    hide On, Off, Topics.Rm;
    assert [On(ALL)] + [Off(X)] == [On(ALL), Off(X)];
  }

  lemma EndsXAtSecond()
    ensures Goes(Misled2(), SubSend(0, Off(X), false), Misled3(0, Leaf({2})))
  {
    var s := Misled2();
    EndsX();
    TerminatesAgain(Takers(s.links));
    TellsSecond();
    hide Send, Fanout.SentToAll, On, Off, Topics.Rm, Tell;
    assert [2, 5, 3][..1] == [2];
    assert AfterSend(s, 0, Off(X), false) == Misled3(0, Leaf({2}));
    hide AfterSend;
  }

  lemma FifthIsRead()
    ensures Goes(Misled3(0, Leaf({2})), PubRead(5), Misled3(1, Leaf({2, 5})))
  {
    Hears();
    hide Hear, On, Off, Topics.Rm;
    var s, t := Misled3(0, Leaf({2})), Misled3(1, Leaf({2, 5}));
    assert s.links[5 := Pipeline([On(ALL), On(X)], 1)] == t.links;
    assert s.pubs[0 := Publisher(Pub(Leaf({2, 5})), [])] == t.pubs;
  }

  lemma FifthIsReadAgain()
    ensures Goes(Misled3(1, Leaf({2, 5})), PubRead(5), Misled3(2, HEARD))
  {
    HearsX();
    hide Hear, On, Off, Topics.Rm;
    var s, t := Misled3(1, Leaf({2, 5})), Misled3(2, HEARD);
    assert s.links[5 := Pipeline([On(ALL), On(X)], 2)] == t.links;
    assert s.pubs[0 := Publisher(Pub(HEARD), [])] == t.pubs;
  }

  lemma SecondFails()
    ensures Run(Misled3(2, HEARD), [PubRead(2)]) == None
  {
    Misheard();
    hide Hear, On, Off, Topics.Rm;
  }

  lemma MisledRun()
    ensures Run(Misled1(), MISLED) == None
  {
    LosesFourth();
    EndsXAtSecond();
    FifthIsRead();
    FifthIsReadAgain();
    SecondFails();
    var es := [SubTerminated(4), SubSend(0, Off(X), false), PubRead(5), PubRead(5)];
    assert MISLED == es + [PubRead(2)];
    hide *;
    RunChain([Misled1(), Misled2(), Misled3(0, Leaf({2})), Misled3(1, Leaf({2, 5})), Misled3(2, HEARD)], es);
    RunConcat(Misled1(), es, [PubRead(2)]);
  }

  /** So the assertion of `rm` fails. */
  lemma TerminationMisleads()
    ensures Run(START, SETUP + MISSED + TWO_MORE + MISLED) == None
  {
    Setup();
    MissedRun();
    TwoMore();
    MisledRun();
    hide *;
    RunConcat(START, SETUP, MISSED);
    RunConcat(START, SETUP + MISSED, TWO_MORE);
    RunConcat(START, SETUP + MISSED + TWO_MORE, MISLED);
  }
}
