/** One end of a pipe (`pipe.cpp`): its fields, and what each operation and each command handler
    does to them, to the two queues and to the command channel towards the peer. */
module PipeEnd {
  import opened Options
  import Fifo

  /** A part of a message, or the delimiter that closes the stream. */
  datatype Item<T> = Part(body: T, more: bool) | Delimiter

  datatype Command = ActivateRead | ActivateWrite(msgsRead: nat) | PipeTerm | PipeTermAck

  datatype Status = Active | Delimited | Pending | Terminating | Terminated | DoubleTerminated

  /** The fields of `pipe_t`. `linked`: `outpipe` is not NULL; `gone`: the object is deallocated. */
  datatype End = End(state: Status, inActive: bool, outActive: bool, hwm: int, lwm: int,
                     msgsRead: nat, msgsWritten: nat, peersMsgsRead: nat,
                     delay: bool, linked: bool, gone: bool)

  /** An end with what it can touch: the queue it reads, the queue it writes, and the commands it
      has sent. `got` and `put` record the items it took from the one and completed in the other. */
  datatype Local<T> = Local(me: End, inq: Fifo.Queue<Item<T>>, outq: Fifo.Queue<Item<T>>,
                            sent: seq<Command>, got: seq<Item<T>>, put: seq<Item<T>>)

  const MAX_WM_DELTA := 1024

  /** C division truncates towards zero, so a negative watermark rounds up. */
  function Halve(n: int): int {
    if n >= 0 then n / 2 else -((-n) / 2)
  }

  function ComputeLwm(hwm: int): int {
    if hwm > MAX_WM_DELTA * 2 then hwm - MAX_WM_DELTA else Halve(hwm + 1)
  }

  function Created(inhwm: int, outhwm: int, delay: bool): End {
    End(Active, true, true, outhwm, ComputeLwm(inhwm), 0, 0, 0, delay, true, false)
  }

  // ----- reading

  predicate MayRead(e: End) {
    e.inActive && (e.state == Active || e.state == Pending)
  }

  /** The delimiter was read; `delimit` asserts that the end is active or pending. */
  function Delimit<T>(l: Local<T>): Local<T>
    requires l.me.state == Active || l.me.state == Pending
  {
    if l.me.state == Active then l.(me := l.me.(state := Delimited))
    else l.(me := l.me.(state := Terminating, linked := false), sent := l.sent + [PipeTermAck])
  }

  /** Take the front item, which must exist. */
  function Take<T>(l: Local<T>): Local<T>
    requires l.inq.unread != []
  {
    l.(inq := Fifo.Read(l.inq), got := l.got + [l.inq.unread[0]])
  }

  function FallAsleep<T>(l: Local<T>): Local<T> {
    l.(inq := Fifo.CheckRead(l.inq), me := l.me.(inActive := false))
  }

  function CheckRead<T>(l: Local<T>): (Local<T>, bool) {
    if !MayRead(l.me) then (l, false)
    else if l.inq.unread == [] then (FallAsleep(l), false)
    else if l.inq.unread[0].Delimiter? then (Delimit(Take(l)), false)
    else (l, true)
  }

  /** Bookkeeping after a part was read: count whole messages, report every `lwm` of them. */
  function Account<T>(l: Local<T>, more: bool): Local<T> {
    var n := if more then l.me.msgsRead else l.me.msgsRead + 1;
    l.(me := l.me.(msgsRead := n),
    sent := if l.me.lwm > 0 && n % l.me.lwm == 0 then l.sent + [ActivateWrite(n)] else l.sent)
  }

  function Read<T>(l: Local<T>): (Local<T>, Option<Item<T>>) {
    if !MayRead(l.me) then (l, None)
    else if l.inq.unread == [] then (FallAsleep(l), None)
    else
      var item := l.inq.unread[0];
      if item.Delimiter? then (Delimit(Take(l)), None)
      else (Account(Take(l), item.more), Some(item))
  }

  // ----- writing

  predicate Full(e: End) {
    e.hwm > 0 && e.msgsWritten - e.peersMsgsRead == e.hwm
  }

  function CheckWrite<T>(l: Local<T>): (Local<T>, bool) {
    if !l.me.outActive || l.me.state != Active then (l, false)
    else if Full(l.me) then (l.(me := l.me.(outActive := false)), false)
    else (l, true)
  }

  /** Put an item into the outbound queue. */
  function Put<T>(l: Local<T>, item: Item<T>, incomplete: bool): Local<T> {
    l.(outq := Fifo.Write(l.outq, item, incomplete),
    put := if incomplete then l.put else l.put + l.outq.partial + [item])
  }

  function Write<T>(l: Local<T>, body: T, more: bool): (Local<T>, bool) {
    var (l1, ok) := CheckWrite(l);
    if !ok then (l1, false)
    else
      var l2 := Put(l1, Part(body, more), more);
      (if more then l2 else l2.(me := l2.me.(msgsWritten := l2.me.msgsWritten + 1)), true)
  }

  function Rollback<T>(l: Local<T>): Local<T> {
    if l.me.linked then l.(outq := l.outq.(partial := [])) else l
  }

  function Flush<T>(l: Local<T>): Local<T> {
    if l.me.state == Terminating || !l.me.linked then l
    else l.(outq := Fifo.Flush(l.outq),
         sent := if Fifo.FlushOk(l.outq) then l.sent else l.sent + [ActivateRead])
  }

  // ----- shutting down

  /** The part of `terminate` that decides on the handshake. */
  function TerminateState<T>(l: Local<T>): Local<T> {
    match l.me.state
    case Active => l.(me := l.me.(state := Terminated), sent := l.sent + [PipeTerm])
    case Delimited => l.(me := l.me.(state := Terminated), sent := l.sent + [PipeTerm])
    case Pending =>
      if l.me.delay then l
      else l.(me := l.me.(state := Terminating, linked := false), sent := l.sent + [PipeTermAck])
    case _ => l
  }

  /** Drop the unfinished message, write the delimiter (watermarks are not checked), flush. */
  function Close<T>(l: Local<T>): Local<T> {
    if l.me.linked then Flush(Put(Rollback(l), Delimiter, false)) else l
  }

  function Terminate<T>(l: Local<T>, delay: bool): Local<T> {
    var l0 := l.(me := l.me.(delay := delay));
    if l.me.state.Terminated? || l.me.state.DoubleTerminated? || l.me.state.Terminating? then l0
    else
      var l1 := TerminateState(l0);
      Close(l1.(me := l1.me.(outActive := false)))
  }

  // ----- command handlers

  function ProcessActivateRead<T>(l: Local<T>): Local<T> {
    if !l.me.inActive && (l.me.state == Active || l.me.state == Pending)
    then l.(me := l.me.(inActive := true))
    else l
  }

  function ProcessActivateWrite<T>(l: Local<T>, n: nat): Local<T> {
    var me := l.me.(peersMsgsRead := n);
    l.(me := if !me.outActive && me.state == Active then me.(outActive := true) else me)
  }

  /** `process_pipe_term` asserts that it finds one of these states. */
  predicate TermExpected(e: End) {
    e.state == Active || e.state == Delimited || e.state == Terminated
  }

  function ProcessPipeTerm<T>(l: Local<T>): Local<T>
    requires TermExpected(l.me)
  {
    if l.me.state == Active && l.me.delay then l.(me := l.me.(state := Pending))
    else
      var s := if l.me.state == Terminated then DoubleTerminated else Terminating;
      l.(me := l.me.(state := s, linked := false), sent := l.sent + [PipeTermAck])
  }

  /** `process_pipe_term_ack` asserts that it finds one of these states. */
  predicate AckExpected(e: End) {
    e.state == Terminated || e.state == Terminating || e.state == DoubleTerminated
  }

  /** Acknowledge if that is still owed, drain the inbound queue, deallocate. */
  function ProcessPipeTermAck<T>(l: Local<T>): Local<T>
    requires AckExpected(l.me)
  {
    var l1 := if l.me.state == Terminated
              then l.(me := l.me.(linked := false), sent := l.sent + [PipeTermAck])
              else l;
    l1.(inq := l1.inq.(unread := [], asleep := true), me := l1.me.(gone := true))
  }
}
