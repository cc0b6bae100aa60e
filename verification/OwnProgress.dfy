/** Shutdown of an ownership tree does not get stuck: when nothing is in flight any more, every object
    that was told to terminate is gone. */
module OwnProgress {
  import opened Options
  import opened OwnTree

  /** Whatever terminates and is not gone still waits for something. */
  ghost predicate Settled(s: State, o: Id)
    requires o in s.objs
  {
    var obj := s.objs[o];
    obj.terminating && !obj.gone ==> obj.procSeq != obj.sentSeq || obj.termAcks != 0
  }

  /** Children are one level below their owners. */
  ghost predicate Level(s: State, c: Id)
    requires c in s.objs
  {
    var obj := s.objs[c];
    obj.owner.Some? ==> obj.owner.value in s.objs && obj.depth == s.objs[obj.owner.value].depth + 1
  }

  ghost predicate Lively(s: State) {
    forall o :: o in s.objs ==> Settled(s, o) && Level(s, o)
  }

  /** `s'` differs from `s` in object `o`, whose place in the tree stays the same. */
  ghost predicate Touches(s: State, s': State, o: Id) {
    && o in s.objs && s'.objs.Keys == s.objs.Keys
    && (forall x :: x in s.objs && x != o ==> s'.objs[x] == s.objs[x])
    && s'.objs[o].owner == s.objs[o].owner && s'.objs[o].depth == s.objs[o].depth
  }

  lemma TouchedLively(s: State, s': State, o: Id)
    requires Lively(s) && Touches(s, s', o) && Settled(s', o)
    ensures Lively(s')
  {
    forall x | x in s'.objs ensures Settled(s', x) && Level(s', x) {
      assert Settled(s, x) && Level(s, x);
    }
  }

  /** `check_term_acks` leaves its object settled. */
  lemma SettleLively(s: State, s': State, o: Id)
    requires Lively(s) && Touches(s, s', o) && !Settle(s', o).failed && !s'.failed
    ensures Lively(Settle(s', o))
  {
    TouchedLively(s, Settle(s', o), o);
  }

  lemma DeliverLively(s: State, i: nat, order: seq<Id>)
    requires Lively(s) && Enabled(s, Deliver(i, order)) && !Step(s, Deliver(i, order)).failed
    ensures Lively(Step(s, Deliver(i, order)))
  {
    var s1 := s.(flight := Remove(s.flight, i));
    DeliverIs(s, i, order);
    hide Step, Settle, Remove, Lively, Settled, Level;
    match s.flight[i] {
      case Plug(dst, _) => SettleLively(s, CountOne(s1, dst), dst);
      case Seq(dst, _) => SettleLively(s, CountOne(s1, dst), dst);
      case Own(dst, child) => SettleLively(s, CountOne(ProcessOwn(s1, dst, child), dst), dst);
      case TermReq(dst, child) => TouchedLively(s, ProcessTermReq(s1, dst, child), dst);
      case Term(dst, _) => SettleLively(s, TellAll(s1, dst, order), dst);
      case TermAck(dst, child) =>
        SettleLively(s, Put(s1.(acked := s1.acked + {child}), dst, s.objs[dst].(termAcks := s.objs[dst].termAcks - 1)), dst);
    }
  }

  lemma NewLively(s: State, a: Action)
    requires Lively(s) && Enabled(s, a) && (a.NewRoot? || a.LaunchChild?)
    requires a.LaunchChild? ==> s.objs[a.o].procSeq <= s.objs[a.o].sentSeq
    ensures Lively(Step(s, a))
  {
    var s' := Step(s, a);
    forall x | x in s'.objs ensures Settled(s', x) && Level(s', x) {
      if x in s.objs { assert Settled(s, x) && Level(s, x); }
    }
  }

  lemma TerminateLively(s: State, o: Id, order: seq<Id>)
    requires Lively(s) && Enabled(s, Terminate(o, order)) && !Step(s, Terminate(o, order)).failed
    ensures Lively(Step(s, Terminate(o, order)))
  {
    if !s.objs[o].terminating && s.objs[o].owner == None {
      SettleLively(s, TellAll(s, o, order), o);
    } else {
      assert Settled(s, o);
      TouchedLively(s, Step(s, Terminate(o, order)), o);
    }
  }

  lemma CountsLively(s: State, a: Action)
    requires Lively(s) && Enabled(s, a) && (a.Reserve? || a.SendReserved? || a.RegisterEvents? || a.TermChild?)
    requires s.objs[a.o].termAcks >= 0
    ensures Lively(Step(s, a))
  {
    assert Settled(s, a.o);
    TouchedLively(s, Step(s, a), a.o);
  }

  lemma SendToOwnerLively(s: State, o: Id)
    requires Lively(s) && Inv(s) && Enabled(s, SendToOwner(o))
    ensures Lively(Step(s, SendToOwner(o)))
  {
    OwnerIsLive(s, o);
    var p := s.objs[o].owner.value;
    EventsAreCounted(s, p);
    SendToOwnerIs(s, o);
    TouchedLively(s, OneMore(s, p, o), p);
  }

  lemma UnregisterLively(s: State, o: Id)
    requires Lively(s) && Inv(s) && Enabled(s, UnregisterEvent(o)) && !Step(s, UnregisterEvent(o)).failed
    ensures Lively(Step(s, UnregisterEvent(o)))
  {
    EventsAreCounted(s, o);
    UnregisterIs(s, o);
    SettleLively(s, AfterEvent(s, o), o);
  }

  lemma StepLively(s: State, a: Action)
    requires Lively(s) && Enabled(s, a) && Inv(s)
    ensures Lively(Step(s, a))
  {
    StepInv(s, a);
    hide Tree, Channel;
    match a {
      case NewRoot(_) => NewLively(s, a);
      case LaunchChild(o, _, _) => EventsAreCounted(s, o); NewLively(s, a);
      case Reserve(o) => EventsAreCounted(s, o); CountsLively(s, a);
      case SendReserved(o, _) => EventsAreCounted(s, o); CountsLively(s, a);
      case SendToOwner(o) => SendToOwnerLively(s, o);
      case Terminate(o, order) => TerminateLively(s, o, order);
      case TermChild(o, _) => EventsAreCounted(s, o); CountsLively(s, a);
      case RegisterEvents(o, n) => EventsAreCounted(s, o); CountsLively(s, a);
      case UnregisterEvent(o) => UnregisterLively(s, o);
      case Deliver(i, order) => DeliverLively(s, i, order);
    }
  }

  lemma {:induction false} RunLively(acts: seq<Action>, ss: seq<State>, n: nat)
    requires Run(acts, ss) && n <= |acts|
    ensures Inv(ss[n]) && Lively(ss[n])
  {
    hide *;
    RunInv(acts, ss, n);
    if n == 0 {
      StartLively(acts, ss);
    } else {
      RunAt(acts, ss, n - 1);
      RunLively(acts, ss, n - 1);
      StepLively(ss[n - 1], acts[n - 1]);
    }
  }

  lemma StartLively(acts: seq<Action>, ss: seq<State>)
    requires Run(acts, ss)
    ensures Lively(ss[0])
  {
    hide Enabled, Step;
  }

  lemma RunAt(acts: seq<Action>, ss: seq<State>, i: nat)
    requires Run(acts, ss) && i < |acts|
    ensures i + 1 < |ss| && Enabled(ss[i], acts[i]) && ss[i + 1] == Step(ss[i], acts[i])
  {
    hide Enabled, Step;
  }

  /** Nothing in flight, nothing announced, no event outstanding. */
  ghost predicate Quiet(s: State) {
    s.flight == [] && forall o :: o in s.objs ==> s.objs[o].reserved == 0 && s.objs[o].events == 0
  }

  /** In a quiet state an object that is terminating but not gone has a child in the same situation. */
  lemma StuckBelow(s: State, o: Id) returns (c: Id)
    requires Inv(s) && Lively(s) && Quiet(s) && Live(s, o) && s.objs[o].terminating
    ensures Live(s, c) && s.objs[c].terminating && s.objs[c].owner == Some(o)
    ensures s.objs[c].depth == s.objs[o].depth + 1
  {
    assert ObjectOk(s, o) && Settled(s, o);
    assert |Awaited(s, o)| > 0;
    c :| c in Awaited(s, o);
    assert ChildInv(s, o, c) && Level(s, c);
  }

  lemma {:induction false} DepthBound(objs: map<Id, Obj>) returns (d: nat)
    ensures forall o :: o in objs ==> objs[o].depth <= d
    decreases |objs|
  {
    if objs == map[] {
      return 0;
    }
    var o :| o in objs;
    var rest := objs - {o};
    assert |rest.Keys| < |objs.Keys| by { assert rest.Keys == objs.Keys - {o}; }
    var d' := DepthBound(rest);
    d := if objs[o].depth > d' then objs[o].depth else d';
    forall x | x in objs ensures objs[x].depth <= d {
      if x != o { assert x in rest && rest[x] == objs[x]; }
    }
  }

  lemma {:induction false} NotStuck(s: State, o: Id, bound: nat)
    requires Inv(s) && Lively(s) && Quiet(s) && o in s.objs && s.objs[o].terminating
    requires forall x :: x in s.objs ==> s.objs[x].depth <= bound
    ensures s.objs[o].gone
    decreases bound - s.objs[o].depth
  {
    if !s.objs[o].gone {
      var c := StuckBelow(s, o);
      NotStuck(s, c, bound);
    }
  }

  /** Whatever interleaving led there: once nothing is in flight, every object that started to terminate,
      and every object that was told to, is gone. */
  lemma QuietMeansGone(acts: seq<Action>, ss: seq<State>)
    requires Run(acts, ss) && Quiet(ss[|acts|])
    ensures var s := ss[|acts|];
            && (forall o :: o in s.objs && s.objs[o].terminating ==> s.objs[o].gone)
            && (forall o :: o in s.told && o in s.objs && s.objs[o].owner.Some? ==> s.objs[o].gone)
  {
    var s := ss[|acts|];
    RunLively(acts, ss, |acts|);
    var d := DepthBound(s.objs);
    forall o | o in s.objs && s.objs[o].terminating ensures s.objs[o].gone { NotStuck(s, o, d); }
    forall o | o in s.told && o in s.objs && s.objs[o].owner.Some? ensures s.objs[o].gone {
      assert ChildInv(s, s.objs[o].owner.value, o);
    }
  }
}
