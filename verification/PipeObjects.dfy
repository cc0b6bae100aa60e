/** Two pipe objects that share their queues: what one of them does is a step of `PipePair`. */
module PipeObjects {
  import opened Options
  import opened PipeEnd
  import opened PipePair
  import opened PipeTheorems
  import opened PipeObject
  import Fifo
  import Y = YPipe

  /** What one end writes the other reads. */
  ghost predicate Joined<T>(x: Pipe<T>, y: Pipe<T>)
    reads x, x.inpipe, x.outq, y, y.inpipe, y.outq
  {
    x != y && x.inpipe == y.outq && y.inpipe == x.outq && x.Valid() && y.Valid()
  }

  ghost function SideOf<T>(l: Local<T>, taken: nat): Side<T> {
    Side(l.me, l.outq, l.sent, taken, l.got, l.put)
  }

  /** The pair from the side of `x`, which has processed `n` commands of `y`, and `y` has `m` of `x`. */
  ghost function PairOf<T>(x: Pipe<T>, y: Pipe<T>, n: nat, m: nat): Pair<T>
    reads x, x.inpipe, x.outq, y, y.inpipe, y.outq
  {
    Pair(SideOf(x.View(), n), SideOf(y.View(), m), false)
  }

  lemma HereIsView<T>(x: Pipe<T>, y: Pipe<T>, n: nat, m: nat)
    requires Joined(x, y)
    ensures Here(PairOf(x, y, n, m)) == x.View()
    ensures PairOf(y, x, m, n) == Swap(PairOf(x, y, n, m))
  {
  }

  /** What one end did to itself and to the queues is what happened to the pair. */
  lemma Merged<T>(x: Pipe<T>, y: Pipe<T>, n: nat, m: nat, p: Pair<T>, l: Local<T>)
    requires x != y && x.inpipe == y.outq && y.inpipe == x.outq && x.Valid() && x.View().inq.partial == p.b.out.partial
    requires forall i :: 0 <= i < |p.b.out.partial| ==> p.b.out.partial[i].Part? && p.b.out.partial[i].more
    requires y.outpipe == null || y.outpipe == y.outq
    requires l == y.View() && !p.failed && p.a.taken == n
    requires p.b == SideOf(l, m).(out := p.b.out)
    ensures Joined(x, y) && PairOf(x, y, n, m) == Merge(p, x.View())
  {
  }

  method CallOne<T>(x: Pipe<T>, act: Action<T>)
    requires x.Valid() && !act.Deliver? && (x.state == Active ==> x.outpipe != null)
    modifies x, x.inpipe, x.outq
    ensures x.Valid() && x.View() == UserOp(old(x.View()), act)
  {
    hide PipeEnd.CheckRead, PipeEnd.Read, PipeEnd.CheckWrite, PipeEnd.Write, PipeEnd.Rollback, PipeEnd.Flush;
    hide PipeEnd.Terminate;
    match act
    case DoCheckRead => var r := x.CheckRead();
    case DoRead => var r := x.Read();
    case DoCheckWrite => var r := x.CheckWrite();
    case DoWrite(body, more) => var r := x.Write(body, more);
    case DoRollback => x.Rollback();
    case DoFlush => x.Flush();
    case DoTerminate(delay) => x.Terminate(delay);
  }

  method HandleOne<T>(x: Pipe<T>, c: Command)
    requires x.Valid() && Expected(x.View().me, c)
    modifies x, x.inpipe
    ensures x.Valid() && x.View() == Process(old(x.View()), c)
  {
    hide PipeEnd.ProcessActivateRead, PipeEnd.ProcessActivateWrite, PipeEnd.ProcessPipeTerm;
    hide PipeEnd.ProcessPipeTermAck;
    match c
    case ActivateRead => var r := x.HandleActivateRead();
    case ActivateWrite(k) => var r := x.HandleActivateWrite(k);
    case PipeTerm => x.HandlePipeTerm();
    case PipeTermAck => x.HandlePipeTermAck();
  }

  lemma ActiveIsLinked<T>(p: Pair<T>)
    requires Inv(p)
    ensures p.a.me.state == Active ==> p.a.me.linked
  {
    hide Stream, Closing, Wakes, Awake, Tallied, Reports, Credit;
  }

  lemma ProcessShape<T>(l: Local<T>, c: Command)
    requires Expected(l.me, c)
    ensures Process(l, c).inq.partial == l.inq.partial
  {
  }

  /** A call at end `x` of the pair `p`. */
  method CallAt<T>(x: Pipe<T>, ghost y: Pipe<T>, ghost n: nat, ghost m: nat, ghost p: Pair<T>, act: Action<T>)
    requires Joined(x, y) && p == PairOf(x, y, n, m) && Inv(p) && EnabledA(p, act) && !act.Deliver?
    modifies x, x.inpipe, x.outq
    ensures Joined(x, y) && PairOf(x, y, n, m) == StepA(p, act)
  {
    hide Inv;
    ActiveIsLinked(p);
    UserShape(x.View(), act);
    HereIsView(x, y, n, m);
    CallIs(p, act);
    hide StepA, UserOp, Merge;
    CallOne(x, act);
    Merged(x, y, n, m, p, y.View());
  }

  /** End `x` processes its next command. */
  method ReceiveAt<T>(x: Pipe<T>, y: Pipe<T>, n: nat, ghost m: nat, ghost p: Pair<T>)
    requires Joined(x, y) && p == PairOf(x, y, n, m) && Inv(p) && EnabledA(p, Deliver)
    modifies x, x.inpipe
    ensures Joined(x, y) && PairOf(x, y, n + 1, m) == StepA(p, Deliver)
  {
    hide Inv;
    var c := y.outbox[n];
    ExpectedNext(p);
    ProcessShape(x.View(), c);
    HereIsView(x, y, n, m);
    DeliveryIs(p);
    hide StepA, Process;
    HandleOne(x, c);
    Merged(x, y, n, m, p, y.View());
  }

  /** What `pipepair` creates, with the commands each end has processed. */
  class Duplex<T> {
    const a: Pipe<T>
    const b: Pipe<T>
    var takenA: nat
    var takenB: nat

    ghost predicate Valid()
      reads this, a, a.inpipe, a.outq, b, b.inpipe, b.outq
    {
      Joined(a, b) && Inv(View())
    }

    ghost function View(): Pair<T>
      reads this, a, a.inpipe, a.outq, b, b.inpipe, b.outq
    {
      PairOf(a, b, takenA, takenB)
    }

    constructor (hwmA: int, hwmB: int, delayA: bool, delayB: bool)
      ensures Valid() && View() == Create(hwmA, hwmB, delayA, delayB)
    {
      var q1 := new Y.YPipe<Item<T>>();
      var q2 := new Y.YPipe<Item<T>>();
      a := new Pipe<T>(q1, q2, hwmB, hwmA, delayA);
      b := new Pipe<T>(q2, q1, hwmA, hwmB, delayB);
      takenA, takenB := 0, 0;
      new;
      hide Inv, Y.Inv, Y.Abs, Fifo.Empty, Created;
      assert a.View() == Local(Created(hwmB, hwmA, delayA), Fifo.Empty(), Fifo.Empty(), [], [], []);
      assert b.View() == Local(Created(hwmA, hwmB, delayB), Fifo.Empty(), Fifo.Empty(), [], [], []);
      assert Joined(a, b);
      hide Joined;
      CreateInv<T>(hwmA, hwmB, delayA, delayB);
    }

    /** A call or a delivery at either end is a step of the machine, whose invariant it keeps. */
    method Act(who: Who, act: Action<T>)
      requires Valid() && Enabled(View(), who, act)
      modifies this, a, a.inpipe, a.outq, b
      ensures Valid() && View() == Step(old(View()), who, act)
    {
      ghost var p := View();
      hide Inv;
      StepInv(p, who, act);
      SwapInv(p);
      HereIsView(a, b, takenA, takenB);
      if who == A {
        takenA := ActAt(a, b, takenA, takenB, p, act);
      } else {
        takenB := ActAt(b, a, takenB, takenA, Swap(p), act);
        HereIsView(b, a, takenB, takenA);
      }
    }
  }

  lemma SwapInv<T>(p: Pair<T>)
    requires Inv(p)
    ensures Inv(Swap(p))
  {
    hide OneWay;
  }

  /** One end of the pair `p` acts; it has processed `n'` commands then. */
  method ActAt<T>(x: Pipe<T>, y: Pipe<T>, n: nat, ghost m: nat, ghost p: Pair<T>, act: Action<T>) returns (n': nat)
    requires Joined(x, y) && p == PairOf(x, y, n, m) && Inv(p) && EnabledA(p, act)
    modifies x, x.inpipe, x.outq
    ensures Joined(x, y) && PairOf(x, y, n', m) == StepA(p, act)
  {
    hide Inv, StepA;
    if act.Deliver? {
      ReceiveAt(x, y, n, m, p);
      return n + 1;
    }
    CallAt(x, y, n, m, p, act);
    return n;
  }
}
