/** What `ypipe_t` promises its users: a queue whose writer stages items and flushes them in
    batches, and whose reader either gets the oldest flushed item or falls asleep.
    The lock-free implementation is proved to refine these operations in `YPipe`;
    everything above it (`Mailbox`, `PipeEnd`) reasons with them only. */
module Fifo {
  import opened Options

  /** `unread`: flushed, not yet read. `staged`: complete, not yet flushed.
      `partial`: parts of an unfinished item. `asleep`: the reader found nothing and must be woken. */
  datatype Queue<T> = Queue(unread: seq<T>, staged: seq<T>, partial: seq<T>, asleep: bool)

  function Empty<T>(): Queue<T> {
    Queue([], [], [], false)
  }

  function Write<T>(q: Queue<T>, v: T, incomplete: bool): Queue<T> {
    if incomplete then q.(partial := q.partial + [v])
    else q.(staged := q.staged + q.partial + [v], partial := [])
  }

  function Unwrite<T>(q: Queue<T>): Queue<T> {
    if q.partial == [] then q else q.(partial := q.partial[..|q.partial| - 1])
  }

  /** What `Unwrite` hands back. */
  function Unwritten<T>(q: Queue<T>): Option<T> {
    if q.partial == [] then None else Some(q.partial[|q.partial| - 1])
  }

  function Flush<T>(q: Queue<T>): Queue<T> {
    if q.staged == [] then q
    else q.(unread := q.unread + q.staged, staged := [], asleep := false)
  }

  /** The result of `flush`: false obliges the caller to wake the reader. */
  predicate FlushOk<T>(q: Queue<T>) {
    q.staged == [] || !q.asleep
  }

  /** A reader that finds nothing falls asleep. */
  function CheckRead<T>(q: Queue<T>): Queue<T> {
    if q.unread == [] then q.(asleep := true) else q
  }

  function Read<T>(q: Queue<T>): Queue<T> {
    if q.unread == [] then q.(asleep := true) else q.(unread := q.unread[1..])
  }

  /** A sleeping reader has nothing to read. */
  predicate Wf<T>(q: Queue<T>) {
    q.asleep ==> q.unread == []
  }

  /** What an observer sees of one operation, at the moment it takes effect. */
  datatype Event<T> =
    | Silent
    | Wrote(v: T, incomplete: bool)
    | Unwrote(got: Option<T>)
    | Flushed(ok: bool)
    | Checked(ready: bool)
    | Popped(v: T)

  /** The queue's legal transitions, each with the result its caller sees. */
  predicate Next<T(==)>(q: Queue<T>, e: Event<T>, q': Queue<T>) {
    match e
    case Silent => q' == q
    case Wrote(v, incomplete) => q' == Write(q, v, incomplete)
    case Unwrote(got) => q' == Unwrite(q) && got == Unwritten(q)
    case Flushed(ok) => q' == Flush(q) && ok == FlushOk(q)
    case Checked(ready) => q' == CheckRead(q) && ready == (q.unread != [])
    case Popped(v) => q.unread != [] && v == q.unread[0] && q' == Read(q)
  }

  // ----- what any legal history of the queue means, told from the events alone

  /** The values the reader took. */
  function Taken<T>(trace: seq<Event<T>>): seq<T> {
    if trace == [] then []
    else
      var e := trace[|trace| - 1];
      Taken(trace[..|trace| - 1]) + (if e.Popped? then [e.v] else [])
  }

  /** The parts written since the last complete item and not taken back. */
  function Open<T>(trace: seq<Event<T>>): seq<T> {
    if trace == [] then []
    else
      var e := trace[|trace| - 1];
      var o := Open(trace[..|trace| - 1]);
      match e
      case Wrote(v, incomplete) => if incomplete then o + [v] else []
      case Unwrote(got) => if got.Some? && o != [] then o[..|o| - 1] else o
      case _ => o
  }

  /** The items of all finished writes, in order. */
  function Completed<T>(trace: seq<Event<T>>): seq<T> {
    if trace == [] then []
    else
      var e := trace[|trace| - 1];
      var before := trace[..|trace| - 1];
      Completed(before) + (if e.Wrote? && !e.incomplete then Open(before) + [e.v] else [])
  }

  /** The items made visible by the flushes so far. */
  function Visible<T>(trace: seq<Event<T>>): seq<T> {
    if trace == [] then []
    else
      var e := trace[|trace| - 1];
      var before := trace[..|trace| - 1];
      if e.Flushed? then Completed(before) else Visible(before)
  }

  /** A legal history from the empty queue: one queue state before and after each event. */
  ghost predicate History<T(!new)>(trace: seq<Event<T>>, qs: seq<Queue<T>>) {
    && |qs| == |trace| + 1
    && qs[0] == Empty()
    && forall i :: 0 <= i < |trace| ==> Next(qs[i], trace[i], qs[i + 1])
  }

  lemma TraceStep<T>(trace: seq<Event<T>>, e: Event<T>)
    ensures var t := trace + [e];
            && Taken(t) == Taken(trace) + (if e.Popped? then [e.v] else [])
            && Completed(t) == Completed(trace) + (if e.Wrote? && !e.incomplete then Open(trace) + [e.v] else [])
            && Visible(t) == (if e.Flushed? then Completed(trace) else Visible(trace))
            && Open(t) == if e.Wrote? then (if e.incomplete then Open(trace) + [e.v] else [])
                          else if e.Unwrote? && e.got.Some? && Open(trace) != [] then Open(trace)[..|Open(trace)| - 1]
                          else Open(trace)
  {
    assert (trace + [e])[..|trace|] == trace;
  }

  /** What the queue holds after a history. */
  ghost predicate Means<T(!new)>(trace: seq<Event<T>>, q: Queue<T>) {
    && Taken(trace) + q.unread == Visible(trace)
    && Visible(trace) + q.staged == Completed(trace)
    && q.partial == Open(trace)
    && Wf(q)
  }

  lemma MeansStep<T(!new)>(trace: seq<Event<T>>, q: Queue<T>, e: Event<T>, q': Queue<T>)
    requires Means(trace, q) && Next(q, e, q')
    ensures Means(trace + [e], q')
  {
    TraceStep(trace, e);
    hide Taken, Open, Completed, Visible;
    match e
    case Popped(v) => assert q.unread == [v] + q'.unread;
    case Wrote(v, incomplete) => assert incomplete ==> q'.staged == q.staged;
    case _ =>
  }

  /** In every legal history the values read are, in order, the first of the values flushed;
      the flushed ones are the first of the completed ones; and nothing is lost on the way. */
  lemma {:induction false} HistoryMeaning<T(!new)>(trace: seq<Event<T>>, qs: seq<Queue<T>>)
    requires History(trace, qs)
    ensures var q := qs[|trace|];
            && Taken(trace) + q.unread == Visible(trace)
            && Visible(trace) + q.staged == Completed(trace)
            && q.partial == Open(trace)
            && Wf(q)
    decreases |trace|
  {
    if |trace| > 0 {
      var n := |trace| - 1;
      HistoryMeaning(trace[..n], qs[..n + 1]);
      assert Next(qs[n], trace[n], qs[n + 1]);
      hide Taken, Open, Completed, Visible, Next;
      MeansStep(trace[..n], qs[n], trace[n], qs[n + 1]);
      assert trace[..n] + [trace[n]] == trace;
    }
  }
}
