/** What the invariant of `PipePair` means for the users of a pipe, in every reachable state. */
module PipeTheorems {
  import opened PipeEnd
  import opened PipePair

  // ----- shutdown is safe

  /** What holds of end `x` and its peer `y` throughout the shutdown. */
  ghost predicate Orderly<T>(x: Side<T>, y: Side<T>) {
    && Terms(x.sent) <= 1
    && Acks(x.sent) <= 1
    && (Acks(x.sent) == 1 ==> x.sent != [] && x.sent[|x.sent| - 1].PipeTermAck?)
    && (x.me.gone ==> x.taken == |y.sent| && !y.me.linked)
    && (Acks(x.sent) == 1 ==> !x.me.linked)
  }

  lemma OrderlyFromInv<T>(x: Side<T>, y: Side<T>)
    requires Handshake(x, y) && Handshake(y, x)
    ensures Orderly(x, y)
  {
    PrefixCounts(y.sent, x.taken);
  }

  /** An end that acknowledged, or whose peer is deallocated, has let go of its queue. */
  lemma AckedState<T>(p: Pair<T>)
    requires Inv(p) && !p.a.me.gone && (Acks(p.a.sent) > 0 || p.b.me.gone)
    ensures !p.a.me.linked && (p.a.me.state == Terminating || p.a.me.state == DoubleTerminated)
  {
    hide Stream, Closing, Wakes, Awake, Tallied, Reports, Credit;
    OrderlyFromInv(p.b, p.a);
  }

  lemma SilentCall<T>(l: Local<T>, act: Action<T>)
    requires !act.Deliver? && !l.me.linked && (l.me.state == Terminating || l.me.state == DoubleTerminated)
    ensures UserOp(l, act).sent == l.sent && UserOp(l, act).outq == l.outq
  {
  }

  lemma SilentDelivery<T>(l: Local<T>, c: Command)
    requires Expected(l.me, c) && (l.me.state == Terminating || l.me.state == DoubleTerminated)
    ensures Process(l, c).sent == l.sent && Process(l, c).outq == l.outq
  {
  }

  /** After its acknowledgement, or once its peer is deallocated, an end sends no command and leaves
      the queue it used to write alone. */
  lemma SilentAfterAck<T>(p: Pair<T>, act: Action<T>)
    requires Inv(p) && EnabledA(p, act)
    requires Acks(p.a.sent) > 0 || p.b.me.gone
    ensures StepA(p, act).a.sent == p.a.sent && StepA(p, act).a.out == p.a.out
  {
    AckedState(p);
    if act.Deliver? {
      ExpectedNext(p);
      SilentDelivery(Here(p), p.b.sent[p.a.taken]);
      DeliveryIs(p);
    } else {
      SilentCall(Here(p), act);
      CallIs(p, act);
    }
    hide StepA, UserOp, Process, Inv;
  }

  lemma ExpectedNext<T>(p: Pair<T>)
    requires Inv(p) && EnabledA(p, Deliver)
    ensures Expected(p.a.me, p.b.sent[p.a.taken])
  {
    hide Stream, Closing, Wakes, Awake, Tallied, Reports, Credit;
    NothingUnexpected(p);
  }

  /** In every interleaving: no handler meets a state it asserts against, each end asks for
      termination at most once and acknowledges at most once, the acknowledgement being its last
      command; and when an end deallocates itself nothing is in flight to it and its peer has
      already let go of their queue. */
  lemma ShutdownIsSafe<T(!new)>(calls: seq<Call<T>>, ps: seq<Pair<T>>)
    requires Run(calls, ps)
    ensures var p := ps[|calls|]; !p.failed && Orderly(p.a, p.b) && Orderly(p.b, p.a)
  {
    RunInv(calls, ps, |calls|);
    OrderlyFromInv(ps[|calls|].a, ps[|calls|].b);
    OrderlyFromInv(ps[|calls|].b, ps[|calls|].a);
  }

  // ----- shutdown does not stick

  /** The steps that drive the shutdown: processing commands, and a pending end reading what is left. */
  predicate DrivesA<T>(p: Pair<T>, act: Action<T>) {
    && EnabledA(p, act)
    && (act.Deliver? || (act.DoRead? && p.a.me.state == Pending && MayRead(p.a.me) && p.b.out.unread != []))
  }

  predicate Drives<T>(p: Pair<T>, who: Who, act: Action<T>) {
    if who == A then DrivesA(p, act) else DrivesA(Swap(p), act)
  }

  predicate Begun<T>(p: Pair<T>) {
    Terms(p.a.sent) + Terms(p.b.sent) > 0
  }

  predicate Over<T>(p: Pair<T>) {
    p.a.me.gone && p.b.me.gone
  }

  /** Shutdown commands not yet processed or not yet sent. */
  function Handshakes<T>(p: Pair<T>): int {
    4 - Terms(Heard(p.a, p.b)) - Acks(Heard(p.a, p.b)) - Terms(Heard(p.b, p.a)) - Acks(Heard(p.b, p.a))
  }

  /** Commands in flight, and items to read, each of which may cause one more command. */
  function Work<T>(p: Pair<T>): int {
    |p.a.sent| - p.b.taken + |p.b.sent| - p.a.taken + 2 * |p.a.out.unread| + 2 * |p.b.out.unread|
  }

  lemma RankIsNatural<T>(p: Pair<T>)
    requires Inv(p)
    ensures Handshakes(p) >= 0 && Work(p) >= 0
  {
    hide Stream, Closing, Wakes, Awake, Tallied, Reports, Credit;
  }

  lemma DeliverLowersRank<T>(p: Pair<T>)
    requires Inv(p) && EnabledA(p, Deliver)
    ensures var p' := StepA(p, Deliver);
            Handshakes(p') < Handshakes(p) || (Handshakes(p') == Handshakes(p) && Work(p') < Work(p))
  {
    NothingUnexpected(p);
    HeardNext(p);
    DeliverSends(p);
    hide Terms, Acks, Table, Process;
    assert StepA(p, Deliver).a.sent[..p.b.taken] == p.a.sent[..p.b.taken];
  }

  /** Processing a command sends at most one, and that only in answer to a shutdown command. */
  lemma DeliverSends<T>(p: Pair<T>)
    requires EnabledA(p, Deliver) && Expected(p.a.me, p.b.sent[p.a.taken])
    ensures var c, p' := p.b.sent[p.a.taken], StepA(p, Deliver);
            && p.a.sent <= p'.a.sent && |p'.a.sent| <= |p.a.sent| + 1
            && (!c.PipeTerm? && !c.PipeTermAck? ==> p'.a.sent == p.a.sent)
            && p'.a.out == p.a.out && |p'.b.out.unread| <= |p.b.out.unread|
            && p'.a.taken == p.a.taken + 1 && p'.b == p.b.(out := p'.b.out)
  {
  }

  lemma ReadLowersRank<T>(p: Pair<T>)
    requires Inv(p) && DrivesA(p, DoRead)
    ensures var p' := StepA(p, DoRead); Handshakes(p') == Handshakes(p) && Work(p') < Work(p)
  {
    assert StepA(p, DoRead).a.sent[..p.b.taken] == p.a.sent[..p.b.taken];
  }

  lemma DriveLowersRank<T>(p: Pair<T>, who: Who, act: Action<T>)
    requires Inv(p) && Drives(p, who, act)
    ensures var p' := Step(p, who, act);
            Handshakes(p') < Handshakes(p) || (Handshakes(p') == Handshakes(p) && Work(p') < Work(p))
  {
    var q := if who == A then p else Swap(p);
    if act.Deliver? { DeliverLowersRank(q); } else { ReadLowersRank(q); }
  }

  lemma DeliverKeepsTerms<T>(p: Pair<T>)
    requires Inv(p) && EnabledA(p, Deliver)
    ensures Terms(StepA(p, Deliver).a.sent) == Terms(p.a.sent)
  {
    NothingUnexpected(p);
    Appended(p.a.sent, PipeTermAck);
  }

  /** No step of anybody undoes progress of the handshake, and a begun shutdown stays begun. */
  lemma NeverBackwards<T>(p: Pair<T>, act: Action<T>)
    requires Inv(p) && EnabledA(p, act)
    ensures Handshakes(StepA(p, act)) <= Handshakes(p)
    ensures Begun(p) ==> Begun(StepA(p, act))
  {
    hide Stream, Closing, Wakes, Awake, Tallied, Reports, Credit;
    StepShape(p, act);
    if act.Deliver? {
      DeliverLowersRank(p);
      DeliverKeepsTerms(p);
      hide StepA, Handshakes, Inv;
    } else {
      UserMoves(Here(p), act);
      assert StepA(p, act).a.sent[..p.b.taken] == p.a.sent[..p.b.taken];
    }
  }

  lemma StaysBegun<T>(p: Pair<T>, who: Who, act: Action<T>)
    requires Inv(p) && Enabled(p, who, act)
    ensures Begun(p) ==> Begun(Step(p, who, act))
  {
    NeverBackwards(if who == A then p else Swap(p), act);
  }

  /** With nothing in flight, the only end that can be waited for is a pending one with items to read. */
  lemma QuietPending<T>(p: Pair<T>)
    requires Inv(p) && p.a.taken == |p.b.sent| && p.b.taken == |p.a.sent|
    requires Terms(p.b.sent) > 0 && !(p.a.me.gone && p.b.me.gone)
    ensures DrivesA(p, DoRead)
  {
    assert p.a.sent[..p.b.taken] == p.a.sent;
    assert p.b.sent[..p.a.taken] == p.b.sent;
    assert p.a.me.state == Pending;
    var q := p.b.out;
    assert Delimiter in p.a.got + q.unread + q.staged;
  }

  /** Once `terminate` was called on either end, either both ends are deallocated or a driving step is
      enabled: a command is in flight, or a pending end has its delimiter still to read. */
  lemma NeverStuck<T>(p: Pair<T>) returns (who: Who, act: Action<T>)
    requires Inv(p) && Begun(p) && !Over(p)
    ensures Drives(p, who, act)
  {
    OrderlyFromInv(p.a, p.b);
    OrderlyFromInv(p.b, p.a);
    if p.a.taken < |p.b.sent| {
      return A, Deliver;
    } else if p.b.taken < |p.a.sent| {
      return B, Deliver;
    } else if Terms(p.b.sent) > 0 {
      QuietPending(p);
      return A, DoRead;
    } else {
      QuietPending(Swap(p));
      return B, DoRead;
    }
  }

  /** A continuation of a run from `p` by driving steps only. */
  ghost predicate DrivenFrom<T(!new)>(p: Pair<T>, calls: seq<Call<T>>, ps: seq<Pair<T>>) {
    && |ps| == |calls| + 1
    && ps[0] == p
    && forall i :: 0 <= i < |calls| ==>
         Drives(ps[i], calls[i].who, calls[i].act) && ps[i + 1] == Step(ps[i], calls[i].who, calls[i].act)
  }

  /** There is a driving step, and it brings the shutdown closer to its end. */
  lemma Drive<T>(p: Pair<T>) returns (who: Who, act: Action<T>, p': Pair<T>)
    requires Inv(p) && Begun(p) && !Over(p)
    ensures Drives(p, who, act) && p' == Step(p, who, act) && Inv(p') && Begun(p')
    ensures Handshakes(p) >= 0 && Work(p) >= 0 && Handshakes(p') >= 0 && Work(p') >= 0
    ensures Handshakes(p') < Handshakes(p) || (Handshakes(p') == Handshakes(p) && Work(p') < Work(p))
  {
    who, act := NeverStuck(p);
    p' := Step(p, who, act);
    StepInv(p, who, act);
    RankIsNatural(p);
    RankIsNatural(p');
    DriveLowersRank(p, who, act);
    StaysBegun(p, who, act);
  }

  /** From every reachable state of a shutdown, driving steps alone reach the end: both ends deallocated.
      (By `DriveLowersRank` no driving step can be put off by the others for ever.) */
  lemma ReachesTheEnd<T(!new)>(p: Pair<T>) returns (calls: seq<Call<T>>, ps: seq<Pair<T>>)
    requires Inv(p) && Begun(p)
    ensures DrivenFrom(p, calls, ps) && Over(ps[|calls|])
    decreases Handshakes(p), Work(p)
  {
    hide Inv, Step, Drives, Begun, Over, Handshakes, Work;
    if Over(p) {
      calls, ps := [], [p];
    } else {
      var who, act, p' := Drive(p);
      var calls', ps' := ReachesTheEnd(p');
      calls, ps := [Call(who, act)] + calls', [p] + ps';
      DriveFirst(p, who, act, calls', ps');
    }
  }

  lemma DriveFirst<T(!new)>(p: Pair<T>, who: Who, act: Action<T>, calls: seq<Call<T>>, ps: seq<Pair<T>>)
    requires Drives(p, who, act) && DrivenFrom(Step(p, who, act), calls, ps)
    ensures DrivenFrom(p, [Call(who, act)] + calls, [p] + ps)
  {
    hide EnabledA, Step;
    var calls', ps' := [Call(who, act)] + calls, [p] + ps;
    forall i | 0 <= i < |calls'|
      ensures Drives(ps'[i], calls'[i].who, calls'[i].act) && ps'[i + 1] == Step(ps'[i], calls'[i].who, calls'[i].act)
    {
      if i > 0 {
        assert calls'[i] == calls[i - 1] && ps'[i] == ps[i - 1] && ps'[i + 1] == ps[i];
      }
    }
  }

  // ----- flow control

  /** The low watermark lies between 1 and the high one, whatever positive high watermark is chosen; it is
      less than the high one exactly when that is more than 1. It is at least half of the high one, and at most 1024
      below it. */
  lemma Watermarks(hwm: int)
    ensures hwm > 0 ==> 1 <= ComputeLwm(hwm) <= hwm
    ensures hwm > 0 ==> (ComputeLwm(hwm) < hwm <==> hwm > 1)
    ensures hwm > 0 ==> hwm - ComputeLwm(hwm) <= 1024 && 2 * ComputeLwm(hwm) >= hwm
    ensures hwm <= 0 ==> ComputeLwm(hwm) <= 0
  {
  }

  lemma {:induction false} CountedInTheRest(s: seq<Command>, n: nat)
    requires n <= |s| && LastCount(s) != LastCount(s[..n])
    ensures exists i :: n <= i < |s| && s[i] == ActivateWrite(LastCount(s))
    decreases |s|
  {
    assert s[..|s|] == s;
    if !s[|s| - 1].ActivateWrite? {
      var t := s[..|s| - 1];
      assert t[..n] == s[..n];
      CountedInTheRest(t, n);
      var i :| n <= i < |t| && t[i] == ActivateWrite(LastCount(t));
      assert s[i] == t[i];
    } else {
      assert s[|s| - 1] == ActivateWrite(LastCount(s));
    }
  }

  lemma {:induction false} EndsOfPrefix<T>(s: seq<Item<T>>, t: seq<Item<T>>)
    requires s <= t
    ensures Ends(s) <= Ends(t)
  {
    EndsConcat(s, t[|s|..]);
    assert t == s + t[|s|..];
  }

  /** The credit of writer `x` in every reachable state: its window is never overrun although only
      equality is tested, the count it knows trails the true one, and no more than `hwm` whole
      messages wait between the two ends. */
  lemma WindowHolds<T>(x: Side<T>, y: Side<T>)
    requires OneWay(x, y) && OneWay(y, x)
    ensures x.me.peersMsgsRead <= y.me.msgsRead <= x.me.msgsWritten
    ensures x.me.hwm > 0 ==> x.me.msgsWritten - x.me.peersMsgsRead <= x.me.hwm
    ensures !y.me.gone ==> Ends(x.out.unread) + Ends(x.out.staged) == x.me.msgsWritten - y.me.msgsRead
    ensures !y.me.gone && x.me.hwm > 0 ==> Ends(x.out.unread) + Ends(x.out.staged) <= x.me.hwm
  {
    EndsOfPrefix(y.got, x.put);
    assert y.sent[..|y.sent|] == y.sent;
    assert LastCount(y.sent[..x.taken]) <= LastCount(y.sent[..|y.sent|]);
    EndsConcat(y.got, x.out.unread);
    EndsConcat(y.got + x.out.unread, x.out.staged);
  }

  /** A report of more messages read than `x` knows of is on its way to it. */
  ghost predicate CreditInFlight<T>(x: Side<T>, y: Side<T>) {
    exists i :: x.taken <= i < |y.sent| && y.sent[i].ActivateWrite? && y.sent[i].msgsRead > x.me.peersMsgsRead
  }

  /** An active end refuses a message exactly when as many whole messages as its high watermark, which is positive, are
      written and not known to be read. */
  lemma RefusesExactlyWhenFull<T>(p: Pair<T>, body: T, more: bool)
    requires Inv(p) && p.a.me.state == Active
    ensures CheckWrite(Here(p)).1 <==> !(p.a.me.hwm > 0 && p.a.me.msgsWritten - p.a.me.peersMsgsRead == p.a.me.hwm)
    ensures Write(Here(p), body, more).1 <==> CheckWrite(Here(p)).1
    ensures p.a.me.peersMsgsRead == LastCount(Heard(p.a, p.b))
  {
    hide Handshake, Stream, Closing, Wakes, Awake, Tallied, Reports;
  }

  /** No deadlock of credit: if writer `x` is full although `y` has read everything `x` wrote, a
      report with a larger count is on its way. */
  lemma CreditIsComing<T>(x: Side<T>, y: Side<T>)
    requires OneWay(x, y) && OneWay(y, x)
    requires Full(x.me) && y.me.msgsRead == x.me.msgsWritten
    ensures CreditInFlight(x, y)
  {
    Watermarks(x.me.hwm);
    assert LastCount(y.sent) > y.me.msgsRead - y.me.lwm;
    assert LastCount(y.sent) > x.me.peersMsgsRead;
    CountedInTheRest(y.sent, x.taken);
  }

  /** Processing such a report lets an active writer write again. */
  lemma CreditResumes<T>(p: Pair<T>, body: T, more: bool)
    requires Inv(p) && EnabledA(p, Deliver) && p.a.me.state == Active
    requires var c := p.b.sent[p.a.taken]; c.ActivateWrite? && c.msgsRead > p.a.me.peersMsgsRead
    ensures Write(Here(StepA(p, Deliver)), body, more).1
  {
    StepInvA(p, Deliver);
  }

  /** In every run, both windows hold, and a full writer whose peer has read everything will hear of it. */
  lemma FlowControlHolds<T(!new)>(calls: seq<Call<T>>, ps: seq<Pair<T>>)
    requires Run(calls, ps)
    ensures var p := ps[|calls|];
            && (p.a.me.hwm > 0 ==> p.a.me.msgsWritten - p.b.me.msgsRead <= p.a.me.hwm)
            && (p.b.me.hwm > 0 ==> p.b.me.msgsWritten - p.a.me.msgsRead <= p.b.me.hwm)
            && (Full(p.a.me) && p.b.me.msgsRead == p.a.me.msgsWritten ==> CreditInFlight(p.a, p.b))
            && (Full(p.b.me) && p.a.me.msgsRead == p.b.me.msgsWritten ==> CreditInFlight(p.b, p.a))
  {
    var p := ps[|calls|];
    RunInv(calls, ps, |calls|);
    WindowHolds(p.a, p.b);
    WindowHolds(p.b, p.a);
    if Full(p.a.me) && p.b.me.msgsRead == p.a.me.msgsWritten { CreditIsComing(p.a, p.b); }
    if Full(p.b.me) && p.a.me.msgsRead == p.b.me.msgsWritten { CreditIsComing(p.b, p.a); }
  }

  // ----- messages stay whole

  /** While the end is active, having accepted a part flagged `more` commits it to accept every later
      part of the message, whatever happened in between. */
  lemma LaterPartsAccepted<T>(p: Pair<T>, body: T, more: bool)
    requires Inv(p) && p.a.me.state == Active && p.a.out.partial != []
    ensures Write(Here(p), body, more).1
  {
  }

  /** Accepting a part flagged `more` puts the end into that situation; only writing the last part or
      rolling back leaves it. */
  lemma CommittedUntil<T>(p: Pair<T>, act: Action<T>)
    requires EnabledA(p, act)
    requires p.a.out.partial != [] || (act.DoWrite? && act.more && Write(Here(p), act.body, act.more).1)
    ensures StepA(p, act).a.out.partial != []
            || (act.DoWrite? && !act.more) || act.DoRollback? || act.DoTerminate?
  {
  }

  /** Everything `rollback` drops is flagged `more`. */
  lemma RollbackDropsParts<T>(p: Pair<T>)
    requires Inv(p)
    ensures forall i: Item<T> :: i in p.a.out.partial ==> IsMore(i)
    ensures Rollback(Here(p)).outq.unread == p.a.out.unread && Rollback(Here(p)).outq.staged == p.a.out.staged
    ensures Rollback(Here(p)).put == p.a.put
  {
  }

  /** A reader that took a part flagged `more` and is still reading gets the next part at once. */
  lemma NextPartIsThere<T>(p: Pair<T>)
    requires Inv(p) && !p.a.me.gone && (p.a.me.state == Active || p.a.me.state == Pending)
    requires p.a.got != [] && IsMore(p.a.got[|p.a.got| - 1])
    ensures Read(Here(p)).1.Some? && Read(Here(p)).1.value.Part?
  {
    MidMessage(p.b, p.a);
  }

  /** In every reachable state, what one end read is the beginning of what the other completed:
      whole messages in order, at most one delimiter and nothing after it. */
  lemma ReadsWholeMessages<T(!new)>(calls: seq<Call<T>>, ps: seq<Pair<T>>)
    requires Run(calls, ps)
    ensures var p := ps[|calls|];
            && p.a.got <= p.b.put && Framed(p.b.put)
            && p.b.got <= p.a.put && Framed(p.a.put)
            && (forall i :: 0 <= i < |p.a.got| - 1 ==> p.a.got[i].Part?)
            && (forall i :: 0 <= i < |p.b.got| - 1 ==> p.b.got[i].Part?)
  {
    RunInv(calls, ps, |calls|);
  }
}
