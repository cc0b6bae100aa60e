/** What the users of a pipe get from it: the parts that one of them wrote and did not take back, in order, and all of
    them if the reader waits for the end. */
module PipeDelivery {
  import opened Options
  import opened PipeEnd
  import opened PipePair
  import opened PipeTheorems
  import Fifo

  /** A history without its delimiters. */
  function Parts<T>(s: seq<Item<T>>): seq<Item<T>> {
    if s == [] then [] else Parts(s[..|s| - 1]) + if s[|s| - 1].Part? then [s[|s| - 1]] else []
  }

  lemma {:induction false} PartsConcat<T>(s: seq<Item<T>>, t: seq<Item<T>>)
    ensures Parts(s + t) == Parts(s) + Parts(t)
    decreases |t|
  {
    if t == [] {
      assert s + t == s;
    } else {
      PartsConcat(s, t[..|t| - 1]);
      assert (s + t)[..|s + t| - 1] == s + t[..|t| - 1];
    }
  }

  lemma {:induction false} PartsOnly<T>(s: seq<Item<T>>)
    requires forall i :: 0 <= i < |s| ==> s[i].Part?
    ensures Parts(s) == s
  {
    if s != [] {
      PartsOnly(s[..|s| - 1]);
      assert s == s[..|s| - 1] + [s[|s| - 1]];
    }
  }

  lemma PartsPrefix<T>(s: seq<Item<T>>, t: seq<Item<T>>)
    requires s <= t
    ensures Parts(s) <= Parts(t)
  {
    assert t == s + t[|s|..];
    PartsConcat(s, t[|s|..]);
  }

  // ----- one call

  /** `read` returns just the part that it takes, and nothing when it takes nothing or the delimiter. */
  lemma ReadReturns<T>(l: Local<T>)
    ensures Read(l).1.Some? ==> Read(l).1.value.Part? && Read(l).0.got == l.got + [Read(l).1.value]
    ensures Read(l).1.None? ==> Read(l).0.got == l.got || Read(l).0.got == l.got + [Delimiter]
    ensures forall i :: Read(l).1 == Some(i) <==> i.Part? && Read(l).0.got == l.got + [i]
  {
    assert forall i, j: Item<T> :: l.got + [i] == l.got + [j] ==> i == j by {
      forall i, j: Item<T> | l.got + [i] == l.got + [j] ensures i == j {
        assert (l.got + [i])[|l.got|] == i && (l.got + [j])[|l.got|] == j;
      }
    }
  }

  /** With every part read, the count of whole messages read is reported exactly if it is a multiple of the low watermark,
      which may repeat a report within a message. */
  lemma ReadReportsCount<T>(l: Local<T>)
    requires Read(l).1.Some?
    ensures var n, l' := l.me.msgsRead + (if Read(l).1.value.more then 0 else 1), Read(l).0;
            && l'.me.msgsRead == n
            && l'.sent == l.sent + if l.me.lwm > 0 && n % l.me.lwm == 0 then [ActivateWrite(n)] else []
  {
    assert l.sent + [] == l.sent;
  }

  /** `check_read` tells whether `read` is going to return a part, and changes nothing if it is. */
  lemma CheckReadTells<T>(l: Local<T>)
    ensures CheckRead(l).1 <==> Read(l).1.Some?
    ensures CheckRead(l).1 ==> CheckRead(l).0 == l
    ensures !CheckRead(l).1 ==> Read(CheckRead(l).0).1 == None
  {
  }

  /** An end that may read and finds nothing sleeps, and so does the queue; `activate_read` then wakes the end, which
      is what its sink is told. */
  lemma ReaderIsTold<T>(l: Local<T>)
    requires MayRead(l.me) && l.inq.unread == []
    ensures Read(l) == (CheckRead(l).0, None) && !CheckRead(l).1
    ensures var l1 := Read(l).0;
            && !l1.me.inActive && l1.inq.asleep && l1.me.state == l.me.state && l1.got == l.got
            && ProcessActivateRead(l1) == l1.(me := l1.me.(inActive := true)) && MayRead(ProcessActivateRead(l1).me)
  {
  }

  /** An active end that refuses a message is no longer active for writing; the next `activate_write` makes it so
      again, which is what its sink is told. An end that accepts stays as it is. */
  lemma WriterIsTold<T>(l: Local<T>, n: nat)
    requires l.me.state == Active
    ensures CheckWrite(l).1 ==> CheckWrite(l).0 == l
    ensures !CheckWrite(l).1 ==>
              var l1 := CheckWrite(l).0;
              && l1 == l.(me := l.me.(outActive := false))
              && ProcessActivateWrite(l1, n) == l1.(me := l1.me.(outActive := true, peersMsgsRead := n))
  {
  }

  /** A part that is accepted follows everything accepted before; one that is refused leaves no trace. */
  lemma WriteAppends<T>(l: Local<T>, body: T, more: bool)
    ensures var (l', ok) := Write(l, body, more);
            && l'.put + l'.outq.partial == l.put + l.outq.partial + (if ok then [Part(body, more)] else [])
            && (if ok && !more then l'.outq.partial == [] else l'.put == l.put)
            && l'.got == l.got && l'.sent == l.sent && l'.inq == l.inq && l'.outq.unread == l.outq.unread
  {
  }

  /** `flush` makes all that is complete readable, and wakes a peer that sleeps. */
  lemma FlushShows<T>(l: Local<T>)
    requires l.me.linked && l.me.state != Terminating
    ensures var l' := Flush(l);
            && l'.outq.unread == l.outq.unread + l.outq.staged && l'.outq.staged == []
            && l'.outq.partial == l.outq.partial && l'.put == l.put && l'.me == l.me
            && l'.sent == l.sent + if l.outq.asleep && l.outq.staged != [] then [ActivateRead] else []
  {
    if l.outq.staged == [] { assert l.outq.unread + [] == l.outq.unread; }
    assert l.sent + [] == l.sent;
  }

  /** An end that is not yet closing asks its peer, ends its stream behind everything complete, and shows it. */
  lemma TerminateAsks<T>(l: Local<T>, delay: bool)
    requires l.me.linked && (l.me.state == Active || l.me.state == Delimited)
    ensures var l' := Terminate(l, delay);
            && l'.me.state == Terminated && l'.me.linked && !MayRead(l'.me)
            && l'.sent == l.sent + [PipeTerm] + (if l.outq.asleep then [ActivateRead] else [])
            && l'.put == l.put + [Delimiter]
            && l'.outq == Fifo.Queue(l.outq.unread + l.outq.staged + [Delimiter], [], [], false)
  {
    assert l.put + [] + [Delimiter] == l.put + [Delimiter];
    assert l.outq.staged + [] + [Delimiter] == l.outq.staged + [Delimiter];
    assert l.outq.unread + (l.outq.staged + [Delimiter]) == l.outq.unread + l.outq.staged + [Delimiter];
    assert l.sent + [PipeTerm] + [] == l.sent + [PipeTerm];
  }

  /** The last acknowledgement empties the inbound queue, of which nothing counts as read, and is answered only by an end
      that asked and did not acknowledge yet. */
  lemma LastAck<T>(l: Local<T>)
    requires AckExpected(l.me)
    ensures var l' := ProcessPipeTermAck(l);
            && l'.me.gone && l'.inq.unread == [] && l'.got == l.got && l'.put == l.put && l'.outq == l.outq
            && l'.sent == l.sent + if l.me.state == Terminated then [PipeTermAck] else []
  {
    assert l.sent + [] == l.sent;
  }

  // ----- what `delay` is for

  /** An active end whose peer asks for termination goes on reading with `delay`, and acknowledges at once without. */
  lemma AskedWhileActive<T>(l: Local<T>)
    requires l.me.state == Active
    ensures var l' := ProcessPipeTerm(l);
            && l'.inq == l.inq && l'.got == l.got
            && (l.me.delay ==>
                  && l'.sent == l.sent && (MayRead(l'.me) <==> MayRead(l.me)) && l'.me.delay && l'.me.state == Pending
                  && Read(l').1 == Read(l).1)
            && (!l.me.delay ==> l'.sent == l.sent + [PipeTermAck] && !MayRead(l'.me) && Read(l').1 == None)
  {
  }

  /** An end that is still reading when its own user terminates it goes on with `delay`, and acknowledges at once
      without. */
  lemma TerminatedWhilePending<T>(l: Local<T>, delay: bool)
    requires l.me.state == Pending && l.me.linked
    ensures var l' := Terminate(l, delay);
            && l'.inq == l.inq && l'.got == l.got
            && (delay ==>
                  && Acks(l'.sent) == Acks(l.sent) && (MayRead(l'.me) <==> MayRead(l.me)) && l'.me.state == Pending
                  && l'.put == l.put + [Delimiter])
            && (!delay ==> l'.sent == l.sent + [PipeTermAck] && !MayRead(l'.me) && l'.put == l.put)
  {
    Appended(l.sent, ActivateRead);
    assert l.put + [] + [Delimiter] == l.put + [Delimiter];
  }

  // ----- an end that waits reads everything

  /** An end that keeps `delay` and acknowledges without having asked itself has read up to the delimiter. */
  ghost predicate Waits<T>(x: Side<T>) {
    x.me.delay && (Acks(x.sent) > 0 && Terms(x.sent) == 0 ==> Delimiter in x.got)
  }

  /** An end that asked has ended its stream, once. */
  ghost predicate Ended<T>(x: Side<T>) {
    Terms(x.sent) > 0 ==>
      x.put != [] && x.put[|x.put| - 1] == Delimiter && forall i :: 0 <= i < |x.put| - 1 ==> x.put[i].Part?
  }

  /** `a` waits for what `b` sends. */
  ghost predicate Attends<T>(p: Pair<T>) {
    Waits(p.a) && Ended(p.b)
  }

  lemma TerminateAcks<T>(l: Local<T>, delay: bool)
    requires delay
    ensures var l' := Terminate(l, delay);
            l'.me.delay && l'.got == l.got && (l'.me.state == Terminating ==> l.me.state == Terminating)
  {
    hide Fifo.Flush, Fifo.FlushOk, Fifo.Write;
  }

  lemma UserAcks<T>(l: Local<T>, act: Action<T>)
    requires !act.Deliver? && l.me.delay && (act.DoTerminate? ==> act.delay)
    ensures var l' := UserOp(l, act);
            && l'.me.delay && l.got <= l'.got
            && (l'.me.state == Terminating && l.me.state != Terminating ==> Delimiter in l'.got)
  {
    if act.DoTerminate? { TerminateAcks(l, act.delay); }
    hide Terminate, Fifo.Flush, Fifo.FlushOk, Fifo.Write;
  }

  lemma HandshakeState<T>(p: Pair<T>)
    requires Inv(p)
    ensures MayMove(Here(p)) && Handshake(p.a, p.b)
    ensures p.a.me.state == Active || p.a.me.state == Delimited ==> Terms(p.a.sent) == 0 && Delimiter !in p.a.put
    ensures Terms(p.a.sent) > 0 ==> p.a.me.state == Terminated || p.a.me.state == DoubleTerminated
    ensures p.a.me.state == Delimited ==> Delimiter in p.a.got
  {
    hide Stream, Wakes, Awake, Tallied, Reports, Credit;
  }

  lemma WaitsCall<T>(p: Pair<T>, act: Action<T>)
    requires Inv(p) && EnabledA(p, act) && !act.Deliver? && Waits(p.a) && (act.DoTerminate? ==> act.delay)
    ensures Waits(StepA(p, act).a)
  {
    HandshakeState(p);
    UserMoves(Here(p), act);
    UserAcks(Here(p), act);
    CallIs(p, act);
    hide Inv, StepA, UserOp, Handshake, Terms, Acks, AckIsLast;
  }

  lemma ProcessAcks<T>(l: Local<T>, c: Command)
    requires Expected(l.me, c) && l.me.delay
    ensures var l' := Process(l, c);
            && l'.me.delay && l'.got == l.got
            && (l'.sent == l.sent
                || (l'.sent == l.sent + [PipeTermAck] && (l.me.state == Delimited || l.me.state == Terminated)))
  {
  }

  lemma WaitsDelivery<T>(p: Pair<T>)
    requires Inv(p) && EnabledA(p, Deliver) && Waits(p.a)
    ensures Waits(StepA(p, Deliver).a)
  {
    ExpectedNext(p);
    HandshakeState(p);
    ProcessAcks(Here(p), p.b.sent[p.a.taken]);
    Appended(p.a.sent, PipeTermAck);
    TerminatedAsked(p);
    DeliveryIs(p);
    hide Inv, StepA, Process, Handshake, Terms, Acks, AckIsLast;
  }

  lemma TerminatedAsked<T>(p: Pair<T>)
    requires Inv(p)
    ensures p.a.me.state == Terminated ==> Terms(p.a.sent) > 0
  {
    hide Stream, Closing, Wakes, Awake, Tallied, Reports, Credit;
  }

  lemma TerminatePuts<T>(l: Local<T>, delay: bool)
    ensures var l' := Terminate(l, delay); l'.put == l.put || l'.put == l.put + [Delimiter]
    ensures l.me.state == Terminated || l.me.state == DoubleTerminated ==> Terminate(l, delay).put == l.put
  {
    hide Fifo.Flush, Fifo.FlushOk;
  }

  /** What an end completes in one call. */
  lemma UserPuts<T>(l: Local<T>, act: Action<T>)
    requires !act.Deliver?
    ensures var l' := UserOp(l, act);
            && l.put <= l'.put
            && (!act.DoWrite? && !act.DoTerminate? ==> l'.put == l.put)
            && (l.me.state == Terminated || l.me.state == DoubleTerminated ==> l'.put == l.put)
            && (l'.me.state == Terminated && l.me.state != Terminated ==>
                  act.DoTerminate? && (l.me.state == Active || l.me.state == Delimited))
  {
    if act.DoTerminate? { TerminatePuts(l, act.delay); }
    hide Fifo.Flush, Fifo.FlushOk;
  }

  /** Asking is the only call that ends the stream of an end that has not asked. */
  lemma AskingEnds<T>(l: Local<T>, act: Action<T>)
    requires !act.Deliver? && MayMove(l) && l.me.state != Terminated
    ensures var l' := UserOp(l, act);
            if l'.me.state == Terminated then
              (l.me.state == Active || l.me.state == Delimited) && l'.put == l.put + [Delimiter]
            else Terms(l'.sent) == Terms(l.sent)
  {
    UserMoves(l, act);
    UserPuts(l, act);
    if act.DoTerminate? && (l.me.state == Active || l.me.state == Delimited) {
      TerminateAsks(l, act.delay);
    }
    hide Terms, Acks, AckIsLast, Terminate, Read, CheckRead, Write, CheckWrite, Flush, Rollback;
  }

  lemma EndsOrStays<T>(x: Side<T>, x': Side<T>)
    requires Ended(x)
    requires (x'.put == x.put && (Terms(x'.sent) > 0 ==> Terms(x.sent) > 0))
             || (x'.put == x.put + [Delimiter] && Delimiter !in x.put)
    ensures Ended(x')
  {
    hide Terms;
  }

  lemma EndedCall<T>(p: Pair<T>, act: Action<T>)
    requires Inv(p) && EnabledA(p, act) && !act.Deliver? && Ended(p.a)
    ensures Ended(StepA(p, act).a)
  {
    HandshakeState(p);
    TerminatedAsked(p);
    CallIs(p, act);
    var l, x := Here(p), p.a;
    var x' := StepA(p, act).a;
    hide Inv, StepA, UserOp, Handshake, MayMove, Terms, Ended;
    UserPuts(l, act);
    if x.me.state == Terminated {
      EndsOrStays(x, x');
    } else {
      AskingEnds(l, act);
      if x'.me.state == Terminated {
        EndsOrStays(x, x');
      } else {
        assert Terms(x'.sent) == Terms(x.sent);
        if x'.put == x.put { EndsOrStays(x, x'); } else { PutsUnasked(p, act); EndsUnasked(x'); }
      }
    }
  }

  lemma EndsUnasked<T>(x: Side<T>)
    requires Terms(x.sent) == 0
    ensures Ended(x)
  {
  }

  /** Only an end that has not asked completes anything. */
  lemma PutsUnasked<T>(p: Pair<T>, act: Action<T>)
    requires Inv(p) && EnabledA(p, act) && !act.Deliver? && UserOp(Here(p), act).put != p.a.put
    ensures Terms(p.a.sent) == 0
  {
    HandshakeState(p);
    UserPuts(Here(p), act);
    hide Inv, UserOp, Handshake, MayMove, Terms;
  }

  lemma EndedDelivery<T>(p: Pair<T>)
    requires Inv(p) && EnabledA(p, Deliver) && Ended(p.a)
    ensures Ended(StepA(p, Deliver).a)
  {
    DeliverKeepsTerms(p);
    DeliverPuts(p);
    var x' := StepA(p, Deliver).a;
    hide StepA, Inv, Terms, Ended;
    EndsOrStays(p.a, x');
  }

  lemma DeliverPuts<T>(p: Pair<T>)
    requires EnabledA(p, Deliver)
    ensures StepA(p, Deliver).a.put == p.a.put
    ensures StepA(p, Deliver).a.me.state == Active ==> p.a.me.state == Active
  {
  }

  lemma AttendsHere<T>(p: Pair<T>, act: Action<T>)
    requires Inv(p) && EnabledA(p, act) && Attends(p) && (act.DoTerminate? ==> act.delay)
    ensures Attends(StepA(p, act))
  {
    StepShape(p, act);
    hide Inv, StepA, Waits, Terms;
    if act.Deliver? { WaitsDelivery(p); } else { WaitsCall(p, act); }
  }

  lemma AttendsThere<T>(p: Pair<T>, act: Action<T>)
    requires Inv(p) && EnabledA(Swap(p), act) && Attends(p)
    ensures Attends(Swap(StepA(Swap(p), act)))
  {
    var q := Swap(p);
    SwapKeeps(p);
    StepShape(q, act);
    hide Inv, StepA, Ended, Terms, Acks;
    if act.Deliver? { EndedDelivery(q); } else { EndedCall(q, act); }
  }

  lemma SwapKeeps<T>(p: Pair<T>)
    requires Inv(p)
    ensures Inv(Swap(p))
  {
    hide OneWay;
  }

  /** When such an end acknowledges, it has taken all that its peer completed. */
  lemma AllRead<T>(p: Pair<T>)
    requires Inv(p) && Attends(p) && Acks(p.a.sent) > 0 && Terms(p.a.sent) == 0
    ensures p.a.got == p.b.put && p.a.got != [] && p.a.got[|p.a.got| - 1] == Delimiter
  {
    AskedByPeer(p);
    hide Handshake, Wakes, Awake, Tallied, Reports, Credit, Terms, Acks;
    var k :| 0 <= k < |p.a.got| && p.a.got[k] == Delimiter;
    assert p.b.put[k] == Delimiter;
  }

  lemma AskedByPeer<T>(p: Pair<T>)
    requires Inv(p) && Acks(p.a.sent) > 0 && Terms(p.a.sent) == 0
    ensures Terms(p.b.sent) > 0
  {
    hide Stream, Closing, Wakes, Awake, Tallied, Reports, Credit;
    PrefixCounts(p.b.sent, p.a.taken);
  }

  // ----- what a user gets and what a user gave

  /** The pair seen from one of its ends. */
  function From<T>(p: Pair<T>, who: Who): Pair<T> {
    if who == A then p else Swap(p)
  }

  function Other(who: Who): Who {
    if who == A then B else A
  }

  /** What the call returns to the reader. */
  function Returned<T>(l: Local<T>, act: Action<T>): seq<Item<T>> {
    if act.DoRead? && Read(l).1.Some? then [Read(l).1.value] else []
  }

  /** All that the user at one end got from `read` in the first `n` calls of a run. */
  ghost function Returns<T(!new)>(calls: seq<Call<T>>, ps: seq<Pair<T>>, who: Who, n: nat): seq<Item<T>>
    requires n <= |calls| && |ps| == |calls| + 1
  {
    if n == 0 then []
    else
      Returns(calls, ps, who, n - 1)
      + if calls[n - 1].who == who then Returned(Here(From(ps[n - 1], who)), calls[n - 1].act) else []
  }

  /** Without an unfinished message at the end. */
  function Completed<T>(s: seq<Item<T>>): seq<Item<T>> {
    if s != [] && IsMore(s[|s| - 1]) then Completed(s[..|s| - 1]) else s
  }

  /** What the user of an end knows to have written: a part that was accepted, unless it was taken back. */
  function Noted<T>(l: Local<T>, act: Action<T>, s: seq<Item<T>>): seq<Item<T>> {
    match act
    case DoWrite(body, more) => if Write(l, body, more).1 then s + [Part(body, more)] else s
    case DoRollback => Completed(s)
    case DoTerminate(_) => Completed(s)
    case _ => s
  }

  ghost function Writes<T(!new)>(calls: seq<Call<T>>, ps: seq<Pair<T>>, who: Who, n: nat): seq<Item<T>>
    requires n <= |calls| && |ps| == |calls| + 1
  {
    if n == 0 then []
    else
      var s := Writes(calls, ps, who, n - 1);
      if calls[n - 1].who == who then Noted(Here(From(ps[n - 1], who)), calls[n - 1].act, s) else s
  }

  lemma UserReturns<T>(l: Local<T>, act: Action<T>)
    requires !act.Deliver?
    ensures Parts(UserOp(l, act).got) == Parts(l.got) + Returned(l, act)
  {
    if act.DoRead? {
      ReadReturns(l);
      var l' := Read(l).0;
      assert l'.got != l.got ==> l'.got[..|l'.got| - 1] == l.got;
      hide Read;
    } else if act.DoCheckRead? {
      CheckTakes(l);
      var l' := CheckRead(l).0;
      assert l'.got != l.got ==> l'.got[..|l'.got| - 1] == l.got;
      hide CheckRead;
    } else {
      OthersTake(l, act);
      hide UserOp;
    }
  }

  lemma CheckTakes<T>(l: Local<T>)
    ensures CheckRead(l).0.got == l.got || CheckRead(l).0.got == l.got + [Delimiter]
  {
  }

  lemma OthersTake<T>(l: Local<T>, act: Action<T>)
    requires !act.Deliver? && !act.DoRead? && !act.DoCheckRead?
    ensures UserOp(l, act).got == l.got
  {
    if act.DoTerminate? { TerminateKeepsReading(l, act.delay); }
    hide Terminate, Fifo.Flush, Fifo.FlushOk, Fifo.Write;
  }

  /** A call at one end adds what it returned to the parts that this end took. */
  lemma StepReturns<T>(p: Pair<T>, act: Action<T>)
    requires EnabledA(p, act)
    ensures Parts(StepA(p, act).a.got) == Parts(p.a.got) + Returned(Here(p), act)
    ensures StepA(p, act).b.got == p.b.got && StepA(p, act).b.put == p.b.put
  {
    StepShape(p, act);
    if act.Deliver? {
      DeliverGoesOn(p);
    } else {
      UserReturns(Here(p), act);
      CallIs(p, act);
    }
    hide StepA, UserOp, Read;
  }

  /** In every run the user of an end got just the parts that this end took, with their flags and in order. */
  lemma {:induction false} ReturnsAreTaken<T(!new)>(calls: seq<Call<T>>, ps: seq<Pair<T>>, who: Who, n: nat)
    requires Run(calls, ps) && n <= |calls|
    ensures Returns(calls, ps, who, n) == Parts(From(ps[n], who).a.got)
  {
    if n == 0 {
      assert ps[0].a.got == [] && ps[0].b.got == [];
    } else {
      ReturnsAreTaken(calls, ps, who, n - 1);
      assert ps[n] == Step(ps[n - 1], calls[n - 1].who, calls[n - 1].act);
      StepReturns(From(ps[n - 1], calls[n - 1].who), calls[n - 1].act);
      hide StepA, Returned, Parts;
    }
  }

  /** What was completed of the writes is what was put; an active end has put the rest into its queue. */
  ghost predicate Kept<T>(x: Side<T>, s: seq<Item<T>>) {
    Completed(s) == Parts(x.put) && (x.me.state == Active ==> s == Parts(x.put) + x.out.partial)
  }

  lemma {:induction false} CompletedTwice<T>(s: seq<Item<T>>)
    ensures Completed(Completed(s)) == Completed(s)
    decreases |s|
  {
    if s != [] && IsMore(s[|s| - 1]) { CompletedTwice(s[..|s| - 1]); }
  }

  lemma WritePuts<T>(l: Local<T>, body: T, more: bool)
    ensures var (l', ok) := Write(l, body, more);
            && (ok ==> l.me.state == Active) && l'.me.state == l.me.state
            && (!ok ==> l'.put == l.put && l'.outq == l.outq)
            && (ok && more ==> l'.put == l.put && l'.outq.partial == l.outq.partial + [Part(body, more)])
            && (ok && !more ==> l'.put == l.put + l.outq.partial + [Part(body, more)] && l'.outq.partial == [])
  {
  }

  lemma Regroup<T>(s: seq<T>, t: seq<T>, x: T)
    ensures s + t + [x] == s + (t + [x])
  {
  }

  lemma MoreKept<T>(s: seq<Item<T>>, part: Item<T>)
    ensures IsMore(part) ==> Completed(s + [part]) == Completed(s)
    ensures !IsMore(part) ==> Completed(s + [part]) == s + [part]
  {
    assert (s + [part])[..|s|] == s;
  }

  lemma PartsOfMessage<T>(put: seq<Item<T>>, open: seq<Item<T>>, part: Item<T>)
    requires part.Part? && forall i :: 0 <= i < |open| ==> IsMore(open[i])
    ensures Parts(put + open + [part]) == Parts(put) + open + [part]
  {
    var t := open + [part];
    Regroup(put, open, part);
    PartsConcat(put, t);
    PartsOnly(t);
    hide Parts;
    Regroup(Parts(put), open, part);
  }

  lemma WriteKept<T>(p: Pair<T>, body: T, more: bool, s: seq<Item<T>>)
    requires Inv(p) && EnabledA(p, DoWrite(body, more)) && Kept(p.a, s)
    ensures Kept(StepA(p, DoWrite(body, more)).a, Noted(Here(p), DoWrite(body, more), s))
  {
    var l, part := Here(p), Part(body, more);
    OpenAreMore(p);
    WritePuts(l, body, more);
    CallIs(p, DoWrite(body, more));
    var x, x' := p.a, StepA(p, DoWrite(body, more)).a;
    assert x'.put == Write(l, body, more).0.put && x'.out == Write(l, body, more).0.outq;
    assert x'.me.state == x.me.state;
    hide Inv, StepA, Write, Parts, Completed;
    if Write(l, body, more).1 {
      MoreKept(s, part);
      Regroup(Parts(x.put), x.out.partial, part);
      if !more {
        PartsOfMessage(x.put, x.out.partial, part);
        WholeKept(x', s + [part]);
      }
    }
  }

  lemma WholeKept<T>(x: Side<T>, s: seq<Item<T>>)
    requires Completed(s) == s == Parts(x.put) && x.out.partial == []
    ensures Kept(x, s)
  {
    assert s + [] == s;
  }

  lemma OpenAreMore<T>(p: Pair<T>)
    requires Inv(p)
    ensures forall i :: 0 <= i < |p.a.out.partial| ==> IsMore(p.a.out.partial[i])
    ensures p.a.me.state == Active ==> p.a.me.linked
  {
    hide Closing, Wakes, Awake, Tallied, Reports, Credit;
  }

  lemma OthersPut<T>(l: Local<T>, act: Action<T>)
    requires !act.Deliver? && !act.DoWrite?
    ensures var l' := UserOp(l, act);
            && (l'.put == l.put || l'.put == l.put + [Delimiter])
            && (l'.me.state == Active ==>
                  && l.me.state == Active && l'.put == l.put
                  && l'.outq.partial == if act.DoRollback? && l.me.linked then [] else l.outq.partial)
            && (l'.me.state == Active ==> !act.DoTerminate?)
  {
    if act.DoTerminate? { TerminatePuts(l, act.delay); TerminateIsNotActive(l, act.delay); }
    hide Terminate;
  }

  lemma TerminateIsNotActive<T>(l: Local<T>, delay: bool)
    ensures Terminate(l, delay).me.state != Active
  {
    hide Fifo.Flush, Fifo.FlushOk, Fifo.Write;
  }

  lemma DelimiterKept<T>(x: Side<T>, x': Side<T>, s: seq<Item<T>>, rolled: bool)
    requires Kept(x, s) && (x'.put == x.put || x'.put == x.put + [Delimiter])
    requires x'.me.state == Active ==>
               x.me.state == Active && x'.put == x.put && x'.out.partial == if rolled then [] else x.out.partial
    ensures Kept(x', if rolled then Completed(s) else s)
    ensures x'.me.state != Active ==> Kept(x', Completed(s))
  {
    CompletedTwice(s);
    assert (x.put + [Delimiter])[..|x.put|] == x.put;
    assert Parts(x.put + [Delimiter]) == Parts(x.put) + [] == Parts(x.put);
    hide Parts, Completed;
    assert Parts(x.put) + [] == Parts(x.put);
  }

  lemma OthersKept<T>(p: Pair<T>, act: Action<T>, s: seq<Item<T>>)
    requires Inv(p) && EnabledA(p, act) && !act.Deliver? && !act.DoWrite? && Kept(p.a, s)
    ensures Kept(StepA(p, act).a, Noted(Here(p), act, s))
  {
    OthersPut(Here(p), act);
    CallIs(p, act);
    OpenAreMore(p);
    var x' := StepA(p, act).a;
    assert x'.me == UserOp(Here(p), act).me && x'.put == UserOp(Here(p), act).put;
    assert x'.out == UserOp(Here(p), act).outq;
    hide Inv, StepA, UserOp, Kept;
    DelimiterKept(p.a, x', s, act.DoRollback?);
  }

  lemma DeliveryKept<T>(p: Pair<T>, s: seq<Item<T>>)
    requires EnabledA(p, Deliver) && Kept(p.a, s)
    ensures Kept(StepA(p, Deliver).a, s)
  {
    DeliverPuts(p);
    DeliverKeepsOut(p);
    hide StepA, Parts, Completed;
  }

  lemma StepKept<T>(p: Pair<T>, act: Action<T>, s: seq<Item<T>>)
    requires Inv(p) && EnabledA(p, act) && Kept(p.a, s)
    ensures Kept(StepA(p, act).a, Noted(Here(p), act, s))
  {
    hide Inv, StepA, Kept;
    match act
    case Deliver => DeliveryKept(p, s);
    case DoWrite(body, more) => WriteKept(p, body, more, s);
    case _ => OthersKept(p, act, s);
  }

  lemma PeerKept<T>(p: Pair<T>, act: Action<T>, s: seq<Item<T>>)
    requires EnabledA(p, act) && Kept(p.b, s)
    ensures Kept(StepA(p, act).b, s)
  {
    StepShape(p, act);
    hide StepA, Parts, Completed;
  }

  lemma {:induction false} WritesAreKept<T(!new)>(calls: seq<Call<T>>, ps: seq<Pair<T>>, who: Who, n: nat)
    requires Run(calls, ps) && n <= |calls|
    ensures Kept(From(ps[n], who).a, Writes(calls, ps, who, n))
  {
    if n > 0 {
      WritesAreKept(calls, ps, who, n - 1);
      RunInv(calls, ps, n - 1);
      assert ps[n] == Step(ps[n - 1], calls[n - 1].who, calls[n - 1].act);
      var q := From(ps[n - 1], calls[n - 1].who);
      SwapKeeps(ps[n - 1]);
      hide StepA, Inv, Kept, Noted;
      if calls[n - 1].who == who {
        StepKept(q, calls[n - 1].act, Writes(calls, ps, who, n - 1));
      } else {
        PeerKept(q, calls[n - 1].act, Writes(calls, ps, who, n - 1));
      }
    }
  }

  // ----- from end to end

  /** In every run, what the user of one end got is a beginning of what the user of the other end wrote and completed:
      the same parts, with the same flags, in the same order. */
  lemma GotWhatWasWritten<T(!new)>(calls: seq<Call<T>>, ps: seq<Pair<T>>, who: Who)
    requires Run(calls, ps)
    ensures Returns(calls, ps, who, |calls|) <= Completed(Writes(calls, ps, Other(who), |calls|))
  {
    var n := |calls|;
    ReturnsAreTaken(calls, ps, who, n);
    WritesAreKept(calls, ps, Other(who), n);
    TakenIsPut(calls, ps, who);
    PartsPrefix(From(ps[n], who).a.got, From(ps[n], who).b.put);
    hide Run, Parts, Completed, Returns, Writes;
  }

  lemma TakenIsPut<T(!new)>(calls: seq<Call<T>>, ps: seq<Pair<T>>, who: Who)
    requires Run(calls, ps)
    ensures From(ps[|calls|], who).a.got <= From(ps[|calls|], who).b.put
  {
    ReadsWholeMessages(calls, ps);
    hide Run;
  }

  /** The end is created with `delay`, and its user never terminates it without. */
  ghost predicate Patient<T>(calls: seq<Call<T>>, ps: seq<Pair<T>>, who: Who) {
    && ps != [] && From(ps[0], who).a.me.delay
    && forall i :: 0 <= i < |calls| && calls[i].who == who && calls[i].act.DoTerminate? ==> calls[i].act.delay
  }

  lemma StartAttends<T(!new)>(calls: seq<Call<T>>, ps: seq<Pair<T>>, who: Who)
    requires Run(calls, ps) && Patient(calls, ps, who)
    ensures Attends(From(ps[0], who))
  {
  }

  /** Whoever moves, the end at `who` goes on attending. */
  lemma AttendsGoesOn<T>(p: Pair<T>, who: Who, call: Call<T>)
    requires Inv(p) && Enabled(p, call.who, call.act) && Attends(From(p, who))
    requires call.who == who && call.act.DoTerminate? ==> call.act.delay
    ensures Attends(From(Step(p, call.who, call.act), who))
  {
    hide StepA, Inv, Attends, EnabledA;
    SwapKeeps(p);
    if call.who == who { AttendsHere(From(p, who), call.act); } else { AttendsThere(From(p, who), call.act); }
  }

  lemma {:induction false} PatientAttends<T(!new)>(calls: seq<Call<T>>, ps: seq<Pair<T>>, who: Who, n: nat)
    requires Run(calls, ps) && Patient(calls, ps, who) && n <= |calls|
    ensures Attends(From(ps[n], who))
  {
    if n == 0 {
      StartAttends(calls, ps, who);
    } else {
      hide Step, Enabled, Inv, Attends, From;
      PatientAttends(calls, ps, who, n - 1);
      RunInv(calls, ps, n - 1);
      AttendsGoesOn(ps[n - 1], who, calls[n - 1]);
      assert ps[n - 1 + 1] == Step(ps[n - 1], calls[n - 1].who, calls[n - 1].act);
    }
  }

  /** In every run, an end that is patient, and acknowledges because its peer asked, loses nothing: it has taken all that
      its peer completed, and its user got all that the other user wrote and completed. */
  lemma NothingIsLost<T(!new)>(calls: seq<Call<T>>, ps: seq<Pair<T>>, who: Who)
    requires Run(calls, ps) && Patient(calls, ps, who)
    requires var p := From(ps[|calls|], who); Acks(p.a.sent) > 0 && Terms(p.a.sent) == 0
    ensures From(ps[|calls|], who).a.got == From(ps[|calls|], who).b.put
    ensures Returns(calls, ps, who, |calls|) == Completed(Writes(calls, ps, Other(who), |calls|))
  {
    var n := |calls|;
    RunInv(calls, ps, n);
    SwapKeeps(ps[n]);
    PatientAttends(calls, ps, who, n);
    hide Inv, Attends, Run, Parts, Completed, Returns, Writes, Terms, Acks;
    AllRead(From(ps[n], who));
    ReturnsAreTaken(calls, ps, who, n);
    WritesAreKept(calls, ps, Other(who), n);
  }

  // ----- an end that asks itself

  /** An end that asks for termination reads no more, with `delay` or without, and when its peer asks, too, it
      acknowledges without having read what is there. */
  lemma AskingDrops<T>(l: Local<T>, delay: bool)
    requires l.me.linked && l.me.state == Active
    ensures var l' := ProcessPipeTerm(Terminate(l, delay));
            && l'.got == l.got && l'.inq == l.inq && !MayRead(l'.me)
            && l'.sent == l.sent + [PipeTerm] + (if l.outq.asleep then [ActivateRead] else []) + [PipeTermAck]
  {
    TerminateAsks(l, delay);
    TerminateKeepsReading(l, delay);
    hide Terminate;
  }

  lemma ClosedReads<T>(l: Local<T>, act: Action<T>)
    requires !act.Deliver? && (l.me.state == Terminated || l.me.state == DoubleTerminated)
    ensures UserOp(l, act).got == l.got && Returned(l, act) == []
  {
    if !act.DoRead? && !act.DoCheckRead? { OthersTake(l, act); }
    hide Terminate, Write, CheckWrite, Rollback, Flush;
  }

  /** From then on it takes nothing, so that all it had not read when it asked is lost. */
  lemma AskedReadsNoMore<T>(p: Pair<T>, act: Action<T>)
    requires Inv(p) && EnabledA(p, act) && Terms(p.a.sent) > 0
    ensures StepA(p, act).a.got == p.a.got && Returned(Here(p), act) == []
  {
    HandshakeState(p);
    hide Inv, Handshake, MayMove, Terms;
    if act.Deliver? {
      DeliverGoesOn(p);
    } else {
      ClosedReads(Here(p), act);
      CallIs(p, act);
      hide UserOp, Returned;
    }
    hide StepA;
  }

  // ----- exactly when messages are lost

  /** The steps by which an end stops reading before it has read the delimiter: its user terminates it while it is
      active, or without `delay` while it is pending, or it is asked while it is active and has no `delay`. */
  predicate GivesUp<T>(p: Pair<T>, act: Action<T>)
    requires EnabledA(p, act)
  {
    if act.Deliver? then p.a.me.state == Active && !p.a.me.delay && p.b.sent[p.a.taken].PipeTerm?
    else act.DoTerminate? && (p.a.me.state == Active || (p.a.me.state == Pending && !act.delay))
  }

  predicate Closed(e: End) {
    e.state == Terminating || e.state == Terminated || e.state == DoubleTerminated
  }

  ghost predicate GaveUp<T>(x: Side<T>) {
    Closed(x.me) && Delimiter !in x.got
  }

  /** Terminating an end closes it, unless it is pending and has `delay`; no other call closes one that has not read
      the delimiter. */
  lemma CallCloses<T>(l: Local<T>, act: Action<T>)
    requires !act.Deliver? && (l.me.state == Active || l.me.state == Pending || l.me.state == Delimited ==> l.me.linked)
    ensures var l' := UserOp(l, act);
            && (Closed(l.me) ==> Closed(l'.me) && l'.got == l.got)
            && (act.DoTerminate? ==>
                  l'.got == l.got && (Closed(l'.me) <==> Closed(l.me) || l.me.state != Pending || !act.delay))
            && (!act.DoTerminate? && !Closed(l.me) && Closed(l'.me) ==> l'.got == l.got + [Delimiter])
  {
    if act.DoTerminate? { TerminateKeepsReading(l, act.delay); TerminateStates(l, act.delay); }
    hide Terminate, Fifo.Flush, Fifo.FlushOk, Fifo.Write;
  }

  lemma TerminateStates<T>(l: Local<T>, delay: bool)
    requires l.me.state == Active || l.me.state == Pending || l.me.state == Delimited ==> l.me.linked
    ensures Closed(Terminate(l, delay).me) <==> Closed(l.me) || l.me.state != Pending || !delay
  {
    hide Fifo.Flush, Fifo.FlushOk, Fifo.Write;
  }

  /** What a command closes: an active end without `delay`, or one that has read the delimiter. */
  lemma CommandCloses<T>(l: Local<T>, c: Command)
    requires Expected(l.me, c)
    ensures var l' := Process(l, c);
            && l'.got == l.got
            && (Closed(l'.me) <==>
                  Closed(l.me) || (c.PipeTerm? && (l.me.state == Delimited || (l.me.state == Active && !l.me.delay))))
  {
  }

  /** What the state of an end says about the delimiter. */
  lemma HasDelimiter<T>(p: Pair<T>)
    requires Inv(p)
    ensures p.a.me.state == Active || p.a.me.state == Pending ==> Delimiter !in p.a.got
    ensures p.a.me.state == Delimited ==> Delimiter in p.a.got
  {
    hide Stream, Wakes, Awake, Tallied, Reports, Credit, Handshake;
  }

  lemma GivesUpCall<T>(p: Pair<T>, act: Action<T>)
    requires Inv(p) && EnabledA(p, act) && !act.Deliver?
    ensures GaveUp(StepA(p, act).a) <==> GaveUp(p.a) || GivesUp(p, act)
  {
    HandshakeState(p);
    HasDelimiter(p);
    CallCloses(Here(p), act);
    CallIs(p, act);
    hide Inv, StepA, UserOp, Handshake, Terms, Acks, AckIsLast;
  }

  lemma GivesUpDelivery<T>(p: Pair<T>)
    requires Inv(p) && EnabledA(p, Deliver)
    ensures GaveUp(StepA(p, Deliver).a) <==> GaveUp(p.a) || GivesUp(p, Deliver)
  {
    ExpectedNext(p);
    HasDelimiter(p);
    CommandCloses(Here(p), p.b.sent[p.a.taken]);
    DeliveryIs(p);
    hide Inv, StepA, Process;
  }

  /** One of the first `n` calls of a run gave up at this end. */
  ghost predicate GivenUp<T(!new)>(calls: seq<Call<T>>, ps: seq<Pair<T>>, who: Who, n: nat)
    requires Run(calls, ps) && n <= |calls|
  {
    exists i :: 0 <= i < n && calls[i].who == who && GivesUp(From(ps[i], who), calls[i].act)
  }

  lemma GaveUpStep<T>(p: Pair<T>, who: Who, call: Call<T>)
    requires Inv(p) && Enabled(p, call.who, call.act)
    ensures GaveUp(From(Step(p, call.who, call.act), who).a) <==>
              GaveUp(From(p, who).a) || (call.who == who && GivesUp(From(p, who), call.act))
  {
    SwapKeeps(p);
    var q := From(p, call.who);
    StepShape(q, call.act);
    hide Inv, StepA, GaveUp, GivesUp;
    if call.who == who {
      if call.act.Deliver? { GivesUpDelivery(q); } else { GivesUpCall(q, call.act); }
    } else {
      SameGaveUp(q.b, StepA(q, call.act).b);
    }
  }

  lemma SameGaveUp<T>(x: Side<T>, x': Side<T>)
    requires x'.me == x.me && x'.got == x.got
    ensures GaveUp(x') <==> GaveUp(x)
  {
  }

  lemma NotAtFirst<T(!new)>(calls: seq<Call<T>>, ps: seq<Pair<T>>, who: Who)
    requires Run(calls, ps)
    ensures !GaveUp(From(ps[0], who).a) && !GivenUp(calls, ps, who, 0)
  {
  }

  lemma NextGivenUp<T(!new)>(calls: seq<Call<T>>, ps: seq<Pair<T>>, who: Who, n: nat)
    requires Run(calls, ps) && n < |calls|
    ensures Enabled(ps[n], calls[n].who, calls[n].act) && ps[n + 1] == Step(ps[n], calls[n].who, calls[n].act)
    ensures GivenUp(calls, ps, who, n + 1) <==>
              GivenUp(calls, ps, who, n) || (calls[n].who == who && GivesUp(From(ps[n], who), calls[n].act))
  {
    hide Step, GivesUp;
  }

  lemma {:induction false} GaveUpMeans<T(!new)>(calls: seq<Call<T>>, ps: seq<Pair<T>>, who: Who, n: nat)
    requires Run(calls, ps) && n <= |calls|
    ensures GaveUp(From(ps[n], who).a) <==> GivenUp(calls, ps, who, n)
  {
    if n == 0 {
      NotAtFirst(calls, ps, who);
    } else {
      GaveUpMeans(calls, ps, who, n - 1);
      RunInv(calls, ps, n - 1);
      NextGivenUp(calls, ps, who, n - 1);
      hide Run, Step, Inv, GaveUp, GivenUp, GivesUp;
      GaveUpStep(ps[n - 1], who, calls[n - 1]);
    }
  }

  lemma EndedGoesOn<T>(p: Pair<T>, who: Who, call: Call<T>)
    requires Inv(p) && Enabled(p, call.who, call.act) && Ended(From(p, who).a)
    ensures Ended(From(Step(p, call.who, call.act), who).a)
  {
    SwapKeeps(p);
    var q := From(p, call.who);
    StepShape(q, call.act);
    hide Inv, StepA, Ended;
    if call.who == who {
      if call.act.Deliver? { EndedDelivery(q); } else { EndedCall(q, call.act); }
    } else {
      SameEnded(q.b, StepA(q, call.act).b);
    }
  }

  lemma SameEnded<T>(x: Side<T>, x': Side<T>)
    requires Ended(x) && x'.sent == x.sent && x'.put == x.put
    ensures Ended(x')
  {
  }

  lemma {:induction false} AlwaysEnded<T(!new)>(calls: seq<Call<T>>, ps: seq<Pair<T>>, who: Who, n: nat)
    requires Run(calls, ps) && n <= |calls|
    ensures Ended(From(ps[n], who).a)
  {
    if n > 0 {
      AlwaysEnded(calls, ps, who, n - 1);
      RunInv(calls, ps, n - 1);
      EndedGoesOn(ps[n - 1], who, calls[n - 1]);
      hide Step, Enabled, Inv, Ended, From;
      assert ps[n - 1 + 1] == Step(ps[n - 1], calls[n - 1].who, calls[n - 1].act);
    }
  }

  lemma AckedClosed<T>(p: Pair<T>)
    requires Inv(p) && Acks(p.a.sent) > 0
    ensures Closed(p.a.me)
  {
    hide Stream, Closing, Wakes, Awake, Tallied, Reports, Credit;
  }

  lemma AckedReads<T>(p: Pair<T>)
    requires Inv(p) && Ended(p.b) && p.a.got <= p.b.put && Acks(p.a.sent) > 0 && Terms(p.b.sent) > 0
    ensures p.a.got == p.b.put <==> !GaveUp(p.a)
  {
    AckedClosed(p);
    hide Inv, Terms, Acks, Closed;
    UpToDelimiter(p.a.got, p.b.put);
  }

  /** In every run, an end that has acknowledged, and whose peer asked, has taken all that its peer completed exactly if
      it never gave up; its user then got all that the other user wrote and completed. */
  lemma AllIsReadIff<T(!new)>(calls: seq<Call<T>>, ps: seq<Pair<T>>, who: Who)
    requires Run(calls, ps)
    requires var p := From(ps[|calls|], who); Acks(p.a.sent) > 0 && Terms(p.b.sent) > 0
    ensures From(ps[|calls|], who).a.got == From(ps[|calls|], who).b.put <==> !GivenUp(calls, ps, who, |calls|)
    ensures !GivenUp(calls, ps, who, |calls|) ==>
              Returns(calls, ps, who, |calls|) == Completed(Writes(calls, ps, Other(who), |calls|))
  {
    var n := |calls|;
    EndsOfRun(calls, ps, who);
    hide Inv, Ended, Run, Parts, Completed, Returns, Writes, Terms, Acks, GivenUp, GaveUp, From;
    AckedReads(From(ps[n], who));
    GaveUpMeans(calls, ps, who, n);
    ReturnsAreTaken(calls, ps, who, n);
    KeptOfPeer(calls, ps, who);
  }

  lemma EndsOfRun<T(!new)>(calls: seq<Call<T>>, ps: seq<Pair<T>>, who: Who)
    requires Run(calls, ps)
    ensures Inv(From(ps[|calls|], who)) && Ended(From(ps[|calls|], who).b)
    ensures From(ps[|calls|], who).a.got <= From(ps[|calls|], who).b.put
  {
    var p := ps[|calls|];
    hide Inv, Ended, Run;
    RunInv(calls, ps, |calls|);
    SwapKeeps(p);
    AlwaysEnded(calls, ps, Other(who), |calls|);
    TakenIsPut(calls, ps, who);
  }

  lemma KeptOfPeer<T(!new)>(calls: seq<Call<T>>, ps: seq<Pair<T>>, who: Who)
    requires Run(calls, ps)
    ensures Parts(From(ps[|calls|], who).b.put) == Completed(Writes(calls, ps, Other(who), |calls|))
  {
    WritesAreKept(calls, ps, Other(who), |calls|);
    hide Run, Parts, Completed, Writes;
  }

  lemma UpToDelimiter<T>(got: seq<Item<T>>, put: seq<Item<T>>)
    requires got <= put && put != [] && put[|put| - 1] == Delimiter
    requires forall i :: 0 <= i < |put| - 1 ==> put[i].Part?
    ensures got == put <==> Delimiter in got
  {
    if Delimiter in got {
      var k :| 0 <= k < |got| && got[k] == Delimiter;
      assert put[k] == Delimiter;
    }
  }

  const FRESH := Created(10, 10, true)
  const LAST: Item<int> := Part(7, false)
  const ASKED := FRESH.(state := Terminated, outActive := false)

  /** One end has written a message. */
  function Wrote(): Pair<int> {
    Pair(NewSide(FRESH), Side(FRESH.(msgsWritten := 1), Fifo.Queue([], [LAST], [], false), [], 0, [], [LAST]), false)
  }

  /** It has asked for termination. */
  function AskedOnce(): Pair<int> {
    Pair(NewSide(FRESH),
         Side(ASKED.(msgsWritten := 1), Fifo.Queue([LAST, Delimiter], [], [], false), [PipeTerm], 0, [], [LAST, Delimiter]),
         false)
  }

  /** So has the other end. */
  function AskedTwice(): Pair<int> {
    AskedOnce().(a := Side(ASKED, Fifo.Queue([Delimiter], [], [], false), [PipeTerm], 0, [], [Delimiter]))
  }

  /** Which then hears that it is asked. */
  function Crossed(): Pair<int> {
    AskedTwice().(a := AskedTwice().a.(me := ASKED.(state := DoubleTerminated, linked := false),
                                       sent := [PipeTerm, PipeTermAck], taken := 1))
  }

  lemma WritesOne()
    ensures Enabled(Create<int>(10, 10, true, true), B, DoWrite(7, false))
    ensures Step(Create<int>(10, 10, true, true), B, DoWrite(7, false)) == Wrote()
  {
    var l := Here(Swap(Create<int>(10, 10, true, true)));
    assert [] + [] + [LAST] == [LAST];
    assert Write(l, 7, false).0 == l.(me := FRESH.(msgsWritten := 1), outq := Fifo.Queue([], [LAST], [], false), put := [LAST]);
  }

  lemma AsksOnce()
    ensures Enabled(Wrote(), B, DoTerminate(true)) && Step(Wrote(), B, DoTerminate(true)) == AskedOnce()
  {
    var l := Here(Swap(Wrote()));
    TerminateAsks(l, true);
    TerminateKeepsReading(l, true);
    TerminateFields(l, true);
    assert [] + [LAST] + [Delimiter] == [LAST, Delimiter] && [] + [PipeTerm] + [] == [PipeTerm];
    hide Terminate;
  }

  lemma TerminateFields<T>(l: Local<T>, delay: bool)
    requires l.me.linked && (l.me.state == Active || l.me.state == Delimited)
    ensures Terminate(l, delay).me == l.me.(state := Terminated, outActive := false, delay := delay)
  {
    hide Fifo.Flush, Fifo.FlushOk, Fifo.Write;
  }

  lemma AsksTwice()
    ensures Enabled(AskedOnce(), A, DoTerminate(true)) && Step(AskedOnce(), A, DoTerminate(true)) == AskedTwice()
  {
    var l := Here(AskedOnce());
    TerminateAsks(l, true);
    TerminateKeepsReading(l, true);
    TerminateFields(l, true);
    var none: seq<Item<int>> := [];
    assert none + none + [Delimiter] == [Delimiter] && [] + [PipeTerm] + [] == [PipeTerm];
    hide Terminate;
  }

  lemma Crosses()
    ensures Enabled(AskedTwice(), A, Deliver) && Step(AskedTwice(), A, Deliver) == Crossed()
  {
    assert [PipeTerm] + [PipeTermAck] == [PipeTerm, PipeTermAck];
  }

  /** For instance: both ends have `delay`, one writes a message, and both ask; then the message is never read. */
  lemma BothAsk()
    ensures var calls := [Call(B, DoWrite(7, false)), Call(B, DoTerminate(true)), Call(A, DoTerminate(true)),
                          Call(A, Deliver)];
            var ps := [Create<int>(10, 10, true, true), Wrote(), AskedOnce(), AskedTwice(), Crossed()];
            && Run(calls, ps) && Patient(calls, ps, A)
            && Acks(Crossed().a.sent) > 0 && Crossed().a.got == [] && Crossed().b.put == [LAST, Delimiter]
            && !MayRead(Crossed().a.me)
  {
    WritesOne();
    AsksOnce();
    AsksTwice();
    Crosses();
    Appended([PipeTerm], PipeTermAck);
    assert [PipeTerm] + [PipeTermAck] == [PipeTerm, PipeTermAck];
    hide Step, Enabled;
  }
}
