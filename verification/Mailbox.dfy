/** The command mailbox of `mailbox.cpp`: any number of sending threads, one receiver, a lock-free
    pipe for the commands and a signaler that the receiver sleeps on.
    The machine interleaves the threads at every shared access. */
module Mailbox {
  import opened Options
  import Y = YPipe

  /** Inside the sender's lock: nobody, about to write, flushing, about to unlock with flush's result. */
  datatype Critical = Out | ToWrite | InFlush | ToUnlock(ok: bool)

  /** Where the receiver is inside `recv`. `Failed` is the failed `zmq_assert (ok)`. */
  datatype Receiver = Idle | ToRead | ToDrain | ToPutBack | ToWait | ToReadFirst | ToTake | Failed

  /** `owing`: threads that flushed into a sleeping pipe and have not yet sent their signal.
      `signals`: the number of signals in the signaler. */
  datatype State<T> = State(pipe: Y.State<T>, holder: Option<nat>, cs: Critical, owing: set<nat>,
                            signals: nat, active: bool, rpc: Receiver)

  datatype Action<T> =
    | Lock(t: nat)
    | WriteCommand(v: T)
    | TestFlush | CasFlush | SetFlush
    | Unlock
    | Signal(t: nat)
    | CallRecv
    | TryRead
    | DrainEventFd | PutBack | DrainSocket
    | GiveUp
    | Woken
    | ReadFirst
    | Take

  /** The constructor reads once from the empty pipe, which puts it to sleep. */
  function Init<T>(): State<T> {
    State(Y.Step(Y.Init<T>(), Y.CheckRead).0, None, Out, {}, 0, false, Idle)
  }

  predicate Enabled<T>(s: State<T>, a: Action<T>) {
    match a
    case Lock(t) => s.holder == None && t !in s.owing
    case WriteCommand(v) => s.cs == ToWrite && Y.Enabled(s.pipe, Y.Write(v, false))
    case TestFlush => s.cs == InFlush && Y.Enabled(s.pipe, Y.FlushTest)
    case CasFlush => s.cs == InFlush && Y.Enabled(s.pipe, Y.FlushCas)
    case SetFlush => s.cs == InFlush && Y.Enabled(s.pipe, Y.FlushSet)
    case Unlock => s.cs.ToUnlock? && s.holder.Some?
    case Signal(t) => t in s.owing
    case CallRecv => s.rpc == Idle
    case TryRead => s.rpc == ToRead
    case DrainEventFd => s.rpc == ToDrain && s.signals > 0
    case DrainSocket => s.rpc == ToDrain && s.signals > 0
    case PutBack => s.rpc == ToPutBack
    case GiveUp => s.rpc == ToWait
    case Woken => s.rpc == ToWait && s.signals > 0
    case ReadFirst => s.rpc == ToReadFirst
    case Take => s.rpc == ToTake && Y.Enabled(s.pipe, Y.Pop)
  }

  /** One access of `flush`; its result decides whether the sender will owe a signal. */
  function FlushStep<T>(s: State<T>, a: Y.Action<T>): State<T>
    requires Y.Enabled(s.pipe, a)
  {
    var (p, e) := Y.Step(s.pipe, a);
    s.(pipe := p, cs := if e.Flushed? then ToUnlock(e.ok) else s.cs)
  }

  function Step<T>(s: State<T>, a: Action<T>): State<T>
    requires Enabled(s, a)
  {
    match a
    case Lock(t) => s.(holder := Some(t), cs := ToWrite)
    case WriteCommand(v) => s.(pipe := Y.Step(s.pipe, Y.Write(v, false)).0, cs := InFlush)
    case TestFlush => FlushStep(s, Y.FlushTest)
    case CasFlush => FlushStep(s, Y.FlushCas)
    case SetFlush => FlushStep(s, Y.FlushSet)
    case Unlock =>
      s.(holder := None, cs := Out, owing := if s.cs.ok then s.owing else s.owing + {s.holder.value})
    case Signal(t) => s.(owing := s.owing - {t}, signals := s.signals + 1)
    case CallRecv => s.(rpc := if s.active then ToRead else ToWait)
    case TryRead =>
      var p := Y.Step(s.pipe, Y.CheckRead).0;
      if p.ready then s.(pipe := p, rpc := ToTake)
      else s.(pipe := p, active := false, rpc := ToDrain)
    case DrainEventFd =>
      // The whole counter is read; a signal that came along is put back afterwards.
      if s.signals == 1 then s.(signals := 0, rpc := ToWait)
      else if s.signals == 2 then s.(signals := 0, rpc := ToPutBack)
      else s.(rpc := Failed)
    case DrainSocket => s.(signals := s.signals - 1, rpc := ToWait)
    case PutBack => s.(signals := s.signals + 1, rpc := ToWait)
    case GiveUp => s.(rpc := Idle)
    case Woken => s.(active := true, rpc := ToReadFirst)
    case ReadFirst =>
      var p := Y.Step(s.pipe, Y.CheckRead).0;
      s.(pipe := p, rpc := if p.ready then ToTake else Failed)
    case Take => s.(pipe := Y.Step(s.pipe, Y.Pop).0, rpc := Idle)
  }

  /** Signals present, owed by a sender, or waiting to be put back. */
  function Debt<T>(s: State<T>): nat {
    s.signals + |s.owing| + (if s.cs == ToUnlock(false) then 1 else 0) + (if s.rpc == ToPutBack then 1 else 0)
  }

  /** 1 while the pipe is awake (`c` not NULL), else 0. */
  function Awake<T>(s: State<T>): nat {
    if s.pipe.c == None then 0 else 1
  }

  ghost predicate Inv<T>(s: State<T>) {
    && Y.Inv(s.pipe)
    && SenderInv(s)
    && ReceiverInv(s)
  }

  ghost predicate SenderInv<T>(s: State<T>) {
    && (s.holder == None <==> s.cs == Out)
    && (s.holder.Some? ==> s.holder.value !in s.owing)
    && (!s.pipe.wpc.WIdle? ==> s.cs == InFlush)
    && s.pipe.f == |s.pipe.slots|
    && (s.cs != InFlush ==> s.pipe.w == s.pipe.f)
  }

  ghost predicate ReceiverInv<T>(s: State<T>) {
    && (s.pipe.ready <==> s.rpc == ToTake)
    && (!s.active && s.pipe.c.Some? ==> s.pipe.front < s.pipe.w)
    && match s.rpc
       case Idle => if s.active then Armed(s) else Debt(s) == Awake(s)
       case ToRead => s.active && Armed(s)
       case ToDrain => !s.active && s.signals >= 1 && Debt(s) == 1 + Awake(s)
       case ToPutBack => !s.active && Debt(s) == Awake(s) == 1
       case ToWait => !s.active && Debt(s) == Awake(s)
       case ToReadFirst => s.active && Armed(s) && s.pipe.front < s.pipe.w
       case ToTake => s.active && Armed(s)
       case Failed => false
  }

  /** An active receiver keeps the one signal that woke it in the signaler; nobody owes another. */
  ghost predicate Armed<T>(s: State<T>) {
    s.signals == 1 && Debt(s) == 1 && s.pipe.c.Some?
  }

  lemma InitInv<T>()
    ensures Inv(Init<T>())
  {
  }

  lemma SenderStep<T>(s: State<T>, a: Action<T>)
    requires Inv(s) && Enabled(s, a)
    requires a.Lock? || a.WriteCommand? || a.Unlock? || a.Signal?
    ensures Inv(Step(s, a))
  {
    if a.WriteCommand? {
      Y.StepRefines(s.pipe, Y.Write(a.v, false));
    }
  }

  lemma FlushingStep<T>(s: State<T>, a: Action<T>)
    requires Inv(s) && Enabled(s, a)
    requires a.TestFlush? || a.CasFlush? || a.SetFlush?
    ensures Inv(Step(s, a))
  {
    var b := if a.TestFlush? then Y.FlushTest else if a.CasFlush? then Y.FlushCas else Y.FlushSet;
    Y.StepRefines(s.pipe, b);
  }

  lemma ReceiverStep<T>(s: State<T>, a: Action<T>)
    requires Inv(s) && Enabled(s, a)
    requires !(a.Lock? || a.WriteCommand? || a.Unlock? || a.Signal?)
    requires !(a.TestFlush? || a.CasFlush? || a.SetFlush?)
    ensures Inv(Step(s, a))
  {
    if a.TryRead? || a.ReadFirst? {
      Y.StepRefines(s.pipe, Y.CheckRead);
    } else if a.Take? {
      Y.StepRefines(s.pipe, Y.Pop);
    }
  }

  lemma StepInv<T>(s: State<T>, a: Action<T>)
    requires Inv(s) && Enabled(s, a)
    ensures Inv(Step(s, a))
  {
    if a.Lock? || a.WriteCommand? || a.Unlock? || a.Signal? {
      SenderStep(s, a);
    } else if a.TestFlush? || a.CasFlush? || a.SetFlush? {
      FlushingStep(s, a);
    } else {
      ReceiverStep(s, a);
    }
  }

  // ----- whole runs

  ghost predicate Run<T(!new)>(acts: seq<Action<T>>, ss: seq<State<T>>) {
    && |ss| == |acts| + 1
    && ss[0] == Init()
    && forall i :: 0 <= i < |acts| ==> Enabled(ss[i], acts[i]) && ss[i + 1] == Step(ss[i], acts[i])
  }

  lemma {:induction false} RunInv<T(!new)>(acts: seq<Action<T>>, ss: seq<State<T>>, n: nat)
    requires Run(acts, ss) && n <= |acts|
    ensures Inv(ss[n])
  {
    if n == 0 {
      InitInv<T>();
    } else {
      hide Inv, Enabled, Step;
      RunInv(acts, ss, n - 1);
      assert ss[n] == Step(ss[n - 1], acts[n - 1]);
      StepInv(ss[n - 1], acts[n - 1]);
    }
  }

  /** A receiver that is not inside its drain step and sleeps, or may go to sleep, on the signaler. */
  predicate Passive<T>(s: State<T>) {
    !s.active && (s.rpc == Idle || s.rpc == ToWait)
  }

  /** No wake-up is lost, in any interleaving of any number of senders: no assertion fails, at most
      two signals coexist, and for a passive receiver there is something to read exactly when
      one signal is present or about to come. Once the senders are through, it is present. */
  lemma NoLostWakeup<T(!new)>(acts: seq<Action<T>>, ss: seq<State<T>>)
    requires Run(acts, ss)
    ensures var s := ss[|acts|];
            && s.rpc != Failed
            && s.signals <= 2
            && Y.Inv(s.pipe)
            && (Passive(s) ==> (Y.Abs(s.pipe).unread != [] <==> Debt(s) == 1))
            && (Passive(s) ==> Debt(s) <= 1)
            && (Passive(s) && s.holder == None && s.owing == {} ==>
                  (s.signals == 1 <==> s.pipe.front < |s.pipe.slots|))
            && (s.rpc == ToDrain ==> s.signals >= 1)
  {
    RunInv(acts, ss, |acts|);
  }

  // ----- delivery

  /** The commands of the first `n` actions, in the order the senders wrote them under the lock. */
  function Sent<T>(acts: seq<Action<T>>, n: nat): seq<T>
    requires n <= |acts|
  {
    if n == 0 then []
    else Sent(acts, n - 1) + (if acts[n - 1].WriteCommand? then [acts[n - 1].v] else [])
  }

  /** The commands the receiver got in the first `n` actions, as the pops of the pipe returned them. */
  function Received<T>(acts: seq<Action<T>>, ss: seq<State<T>>, n: nat): seq<T>
    requires n <= |acts| <= |ss|
  {
    if n == 0 then []
    else Received(acts, ss, n - 1) + Got(ss[n - 1], acts[n - 1])
  }

  function Got<T>(s: State<T>, a: Action<T>): seq<T> {
    if a.Take? && Y.Enabled(s.pipe, Y.Pop) then
      var e := Y.Step(s.pipe, Y.Pop).1;
      if e.Popped? then [e.v] else []
    else []
  }

  /** Only a locked write adds to the slots, and only a take moves the front, past the slot it returns. */
  lemma StepDelivers<T>(s: State<T>, a: Action<T>)
    requires Inv(s) && Enabled(s, a)
    ensures var s' := Step(s, a);
            && s'.pipe.slots == s.pipe.slots + (if a.WriteCommand? then [a.v] else [])
            && s'.pipe.front == s.pipe.front + |Got(s, a)| <= |s.pipe.slots|
            && Got(s, a) == s.pipe.slots[s.pipe.front..s'.pipe.front]
            && |Got(s, a)| == (if a.Take? then 1 else 0)
  {
  }

  lemma {:induction false} SlotsAreTheHistory<T(!new)>(acts: seq<Action<T>>, ss: seq<State<T>>, n: nat)
    requires Run(acts, ss) && n <= |acts|
    ensures ss[n].pipe.slots == Sent(acts, n)
    ensures ss[n].pipe.front <= |ss[n].pipe.slots|
    ensures Received(acts, ss, n) == ss[n].pipe.slots[..ss[n].pipe.front]
  {
    hide Inv, Enabled, Step, Got;
    if n > 0 {
      SlotsAreTheHistory(acts, ss, n - 1);
      RunInv(acts, ss, n - 1);
      StepDelivers(ss[n - 1], acts[n - 1]);
      assert ss[n] == Step(ss[n - 1], acts[n - 1]);
    }
  }

  /** The receiver gets the commands in the order they were sent, each once; and while no sender holds
      the lock, everything sent and not yet received is there to be read. */
  lemma DeliversInOrder<T(!new)>(acts: seq<Action<T>>, ss: seq<State<T>>)
    requires Run(acts, ss)
    ensures var n, s := |acts|, ss[|acts|];
            && Received(acts, ss, n) <= Sent(acts, n)
            && Y.Inv(s.pipe)
            && (s.holder == None ==> Received(acts, ss, n) + Y.Abs(s.pipe).unread == Sent(acts, n))
  {
    RunInv(acts, ss, |acts|);
    SlotsAreTheHistory(acts, ss, |acts|);
  }

  // ----- the object

  /** `mailbox_t` as seen when no two calls overlap. */
  class Mailbox<T> {
    const cpipe: Y.YPipe<T>
    var signals: nat
    var active: bool

    ghost predicate Valid()
      reads this, cpipe
    {
      && cpipe.Valid()
      && cpipe.Queue().staged == [] && cpipe.Queue().partial == []
      && (active ==> signals == 1 && !cpipe.Queue().asleep)
      && (!active ==> signals == (if cpipe.Queue().asleep then 0 else 1))
      && (!active && !cpipe.Queue().asleep ==> cpipe.Queue().unread != [])
    }

    /** The commands sent and not yet received. */
    ghost function Pending(): seq<T>
      reads this, cpipe
    {
      cpipe.Queue().unread
    }

    constructor ()
      ensures Valid() && fresh(cpipe) && Pending() == []
    {
      cpipe := new Y.YPipe<T>();
      signals := 0;
      active := false;
      new;
      var got := cpipe.Read();
    }

    method Send(cmd: T)
      requires Valid()
      modifies this, cpipe
      ensures Valid() && Pending() == old(Pending()) + [cmd]
    {
      cpipe.Write(cmd, false);
      var ok := cpipe.Flush();
      if !ok {
        signals := signals + 1;
      }
    }

    /** `interrupted`: the wait ends with EINTR or EAGAIN although a signal may be there. */
    method Recv(interrupted: bool) returns (cmd: Option<T>)
      requires Valid()
      modifies this, cpipe
      ensures Valid()
      ensures cmd == None ==> Pending() == old(Pending())
      ensures cmd.Some? ==> old(Pending()) == [cmd.value] + Pending()
      ensures cmd == None <==> old(Pending()) == [] || (interrupted && !old(active))
    {
      if active {
        cmd := cpipe.Read();
        if cmd.Some? {
          return;
        }
        active := false;
        signals := signals - 1;
      }
      if signals == 0 || interrupted {
        return None;
      }
      active := true;
      cmd := cpipe.Read();
    }
  }
}
