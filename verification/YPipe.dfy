/** The lock-free queue of `ypipe.hpp`. Slot addresses are modelled by the index of the item
    ever written to the slot, so the pointer to the terminator is the number of items written.
    The machine interleaves one writer and one reader at every access to the shared word `c`. */
module YPipe {
  import opened Options
  import Fifo

  // ----- the machine

  /** Where the writer is inside `flush`. */
  datatype Writer = WIdle | WCas | WSet

  /** `slots`: the items in the queue's memory, oldest first; `w`: first un-flushed item;
      `f`: first item not to be flushed; `front`: oldest unread item; `r`: first un-prefetched
      item (`None` is NULL); `c`: the shared word; `ready`: the reader is between a successful
      `check_read` and the `pop` that follows it. */
  datatype State<T> = State(slots: seq<T>, w: nat, f: nat, wpc: Writer,
                            front: nat, r: Option<nat>, ready: bool, c: Option<nat>)

  datatype Action<T> =
    | Write(v: T, incomplete: bool)
    | Unwrite
    | FlushTest
    | FlushCas
    | FlushSet
    | CheckRead
    | Pop

  function Init<T>(): State<T> {
    State([], 0, 0, WIdle, 0, Some(0), false, Some(0))
  }

  predicate Enabled<T>(s: State<T>, a: Action<T>) {
    match a
    case Write(_, _) => s.wpc.WIdle?
    case Unwrite => s.wpc.WIdle?
    case FlushTest => s.wpc.WIdle?
    case FlushCas => s.wpc.WCas?
    case FlushSet => s.wpc.WSet?
    case CheckRead => true
    case Pop => s.ready
  }

  /** Is a prefetched value at hand? */
  predicate Prefetched<T>(s: State<T>) {
    s.r.Some? && s.r.value != s.front
  }

  /** One atomic step, with what its caller can observe. */
  function Step<T>(s: State<T>, a: Action<T>): (res: (State<T>, Fifo.Event<T>))
    requires Enabled(s, a)
  {
    match a
    case Write(v, incomplete) =>
      var slots := s.slots + [v];
      (s.(slots := slots, f := if incomplete then s.f else |slots|), Fifo.Wrote(v, incomplete))
    case Unwrite =>
      if s.f == |s.slots| || s.slots == [] then (s, Fifo.Unwrote(None))
      else
        var n := |s.slots| - 1;
        (s.(slots := s.slots[..n]), Fifo.Unwrote(Some(s.slots[n])))
    case FlushTest =>
      if s.w == s.f then (s, Fifo.Flushed(true)) else (s.(wpc := WCas), Fifo.Silent)
    case FlushCas =>
      if s.c == Some(s.w) then (s.(c := Some(s.f), w := s.f, wpc := WIdle), Fifo.Flushed(true))
      else (s.(wpc := WSet), Fifo.Silent)
    case FlushSet =>
      (s.(c := Some(s.f), w := s.f, wpc := WIdle), Fifo.Flushed(false))
    case CheckRead =>
      if Prefetched(s) then (s.(ready := true), Fifo.Checked(true))
      else
        var c' := if s.c == Some(s.front) then None else s.c;
        var s' := s.(r := s.c, c := c');
        (s'.(ready := Prefetched(s')), Fifo.Checked(Prefetched(s')))
    case Pop =>
      if s.front < |s.slots| then (s.(front := s.front + 1, ready := false), Fifo.Popped(s.slots[s.front]))
      else (s, Fifo.Silent)
  }

  // ----- the invariant and the refinement

  /** Outside a flush `c` is NULL or equals `w`; while it is NULL the reader has nothing left. */
  ghost predicate Inv<T>(s: State<T>) {
    && s.front <= s.w <= s.f <= |s.slots|
    && (s.r.Some? ==> s.front <= s.r.value <= s.w)
    && (s.c == None || s.c == Some(s.w))
    && (s.c == None ==> s.front == s.w)
    && (s.wpc.WCas? || s.wpc.WSet? ==> s.w < s.f)
    && (s.wpc.WSet? ==> s.c == None)
    && (s.ready ==> Prefetched(s))
  }

  /** The queue the machine stands for. */
  function Abs<T>(s: State<T>): Fifo.Queue<T>
    requires s.front <= s.w <= s.f <= |s.slots|
  {
    Fifo.Queue(s.slots[s.front..s.w], s.slots[s.w..s.f], s.slots[s.f..], s.c == None)
  }

  lemma UnwriteRefines<T>(s: State<T>)
    requires Inv(s) && Enabled(s, Unwrite)
    ensures Inv(Step(s, Unwrite).0)
    ensures Fifo.Next(Abs(s), Step(s, Unwrite).1, Abs(Step(s, Unwrite).0))
  {
    var s' := Step(s, Unwrite).0;
    assert s'.slots[s.front..s.w] == s.slots[s.front..s.w];
    assert s'.slots[s.w..s.f] == s.slots[s.w..s.f];
    if s.f < |s.slots| {
      assert s'.slots[s.f..] == s.slots[s.f..][..|s.slots| - s.f - 1];
    }
  }

  lemma WriteRefines<T>(s: State<T>, a: Action<T>)
    requires Inv(s) && Enabled(s, a) && a.Write?
    ensures Inv(Step(s, a).0)
    ensures Fifo.Next(Abs(s), Step(s, a).1, Abs(Step(s, a).0))
  {
    var s' := Step(s, a).0;
    assert s'.slots[s.front..s.w] == s.slots[s.front..s.w];
    assert s'.slots[s.w..s.f] == s.slots[s.w..s.f];
    if !a.incomplete {
      assert s'.slots[s.w..] == s.slots[s.w..s.f] + s.slots[s.f..] + [a.v];
    }
  }

  lemma FlushRefines<T>(s: State<T>, a: Action<T>)
    requires Inv(s) && Enabled(s, a) && (a.FlushTest? || a.FlushCas? || a.FlushSet?)
    ensures Inv(Step(s, a).0)
    ensures Fifo.Next(Abs(s), Step(s, a).1, Abs(Step(s, a).0))
  {
    assert s.slots[s.front..s.w] + s.slots[s.w..s.f] == s.slots[s.front..s.f];
  }

  lemma ReaderRefines<T>(s: State<T>, a: Action<T>)
    requires Inv(s) && Enabled(s, a) && (a.CheckRead? || a.Pop?)
    ensures Inv(Step(s, a).0)
    ensures Fifo.Next(Abs(s), Step(s, a).1, Abs(Step(s, a).0))
    ensures a.Pop? ==> Step(s, a).1.Popped?
  {
    if a.Pop? {
      assert s.slots[s.front..s.w][1..] == s.slots[s.front + 1..s.w];
    }
  }

  /** Every atomic step is one step of the abstract queue, or invisible to it; and a reader
      that was promised a value takes one. */
  lemma StepRefines<T>(s: State<T>, a: Action<T>)
    requires Inv(s) && Enabled(s, a)
    ensures Inv(Step(s, a).0)
    ensures Fifo.Next(Abs(s), Step(s, a).1, Abs(Step(s, a).0))
    ensures a.Pop? ==> Step(s, a).1.Popped?
  {
    match a {
      case Write(_, _) => WriteRefines(s, a);
      case Unwrite => UnwriteRefines(s);
      case FlushTest => FlushRefines(s, a);
      case FlushCas => FlushRefines(s, a);
      case FlushSet => FlushRefines(s, a);
      case CheckRead => ReaderRefines(s, a);
      case Pop => ReaderRefines(s, a);
    }
  }

  // ----- whole runs

  /** A run: one state before and after each action, every action taken when enabled. */
  ghost predicate Run<T(!new)>(acts: seq<Action<T>>, ss: seq<State<T>>) {
    && |ss| == |acts| + 1
    && ss[0] == Init()
    && forall i :: 0 <= i < |acts| ==> Enabled(ss[i], acts[i]) && ss[i + 1] == Step(ss[i], acts[i]).0
  }

  ghost function Trace<T(!new)>(acts: seq<Action<T>>, ss: seq<State<T>>): (t: seq<Fifo.Event<T>>)
    requires Run(acts, ss)
    ensures |t| == |acts|
  {
    seq(|acts|, i requires 0 <= i < |acts| => Step(ss[i], acts[i]).1)
  }

  lemma {:induction false} RunInv<T(!new)>(acts: seq<Action<T>>, ss: seq<State<T>>, n: nat)
    requires Run(acts, ss) && n <= |acts|
    ensures Inv(ss[n])
  {
    if n > 0 {
      hide Inv, Enabled, Step;
      RunInv(acts, ss, n - 1);
      assert ss[n] == Step(ss[n - 1], acts[n - 1]).0;
      StepRefines(ss[n - 1], acts[n - 1]);
    }
  }

  /** In every interleaving of writer and reader: the values read are, in order, the first of the
      values flushed, which are the first of the completed writes, so no unfinished or taken-back
      part is ever seen; and the shared word is NULL or marks the end of the flushed items. */
  lemma RunIsFifo<T(!new)>(acts: seq<Action<T>>, ss: seq<State<T>>)
    requires Run(acts, ss)
    ensures var t := Trace(acts, ss);
            && Fifo.Taken(t) <= Fifo.Visible(t) <= Fifo.Completed(t)
            && Inv(ss[|acts|])
            && Fifo.Visible(t) == Fifo.Taken(t) + Abs(ss[|acts|]).unread
  {
    var t := Trace(acts, ss);
    forall i | 0 <= i <= |acts| ensures Inv(ss[i]) { RunInv(acts, ss, i); }
    var qs := seq(|ss|, i requires 0 <= i < |ss| => Abs(ss[i]));
    forall i | 0 <= i < |t| ensures Fifo.Next(qs[i], t[i], qs[i + 1]) {
      StepRefines(ss[i], acts[i]);
    }
    Fifo.HistoryMeaning(t, qs);
  }

  // ----- the object

  /** `ypipe_t` as one thread runs it: each method performs its atomic steps in order. */
  class YPipe<T> {
    var slots: seq<T>
    var w: nat
    var f: nat
    var front: nat
    var r: Option<nat>
    var c: Option<nat>

    /** The object between two calls, as a state of the machine. */
    ghost function View(): State<T>
      reads this
    {
      State(slots, w, f, WIdle, front, r, false, c)
    }

    ghost predicate Valid()
      reads this
    {
      Inv(View())
    }

    ghost function Queue(): Fifo.Queue<T>
      reads this
    {
      if Valid() then Abs(View()) else Fifo.Empty()
    }

    constructor ()
      ensures Valid() && Queue() == Fifo.Empty()
      ensures View() == Init()
    {
      slots, w, f, front, r, c := [], 0, 0, 0, Some(0), Some(0);
    }

    method Write(v: T, incomplete: bool)
      requires Valid()
      modifies this
      ensures Valid() && Queue() == Fifo.Write(old(Queue()), v, incomplete)
    {
      ghost var s := View();
      slots := slots + [v];
      if !incomplete {
        f := |slots|;
      }
      StepRefines(s, Action.Write(v, incomplete));
    }

    method Unwrite() returns (got: Option<T>)
      requires Valid()
      modifies this
      ensures Valid() && Queue() == Fifo.Unwrite(old(Queue()))
      ensures got == Fifo.Unwritten(old(Queue()))
    {
      StepRefines(View(), Action.Unwrite);
      if f == |slots| {
        return None;
      }
      var v := slots[|slots| - 1];
      slots := slots[..|slots| - 1];
      return Some(v);
    }

    method Flush() returns (ok: bool)
      requires Valid()
      modifies this
      ensures Valid() && Queue() == Fifo.Flush(old(Queue()))
      ensures ok == Fifo.FlushOk(old(Queue()))
    {
      ghost var s := View();
      StepRefines(s, FlushTest);
      if w == f {
        return true;
      }
      ghost var s1 := Step(s, FlushTest).0;
      StepRefines(s1, FlushCas);
      if c != Some(w) {
        StepRefines(Step(s1, FlushCas).0, FlushSet);
        c := Some(f);
        w := f;
        return false;
      }
      c := Some(f);
      w := f;
      return true;
    }

    method CheckRead() returns (ready: bool)
      requires Valid()
      modifies this
      ensures Valid() && Queue() == Fifo.CheckRead(old(Queue()))
      ensures ready == (old(Queue()).unread != [])
      ensures ready ==> Prefetched(View())
    {
      StepRefines(View(), Action.CheckRead);
      if r.Some? && r.value != front {
        return true;
      }
      r := c;
      if c == Some(front) {
        c := None;
      }
      return r.Some? && r.value != front;
    }

    method Read() returns (got: Option<T>)
      requires Valid()
      modifies this
      ensures Valid() && Queue() == Fifo.Read(old(Queue()))
      ensures got == if old(Queue()).unread == [] then None else Some(old(Queue()).unread[0])
    {
      var ready := CheckRead();
      if !ready {
        return None;
      }
      StepRefines(View().(ready := true), Pop);
      got := Some(slots[front]);
      front := front + 1;
    }

    /** The front item, for `probe`; the caller must know the pipe is not empty. */
    method Front() returns (v: T)
      requires Valid() && Queue().unread != []
      modifies this
      ensures Valid() && Queue() == old(Queue()) && v == Queue().unread[0]
    {
      var ready := CheckRead();
      v := slots[front];
    }
  }
}
