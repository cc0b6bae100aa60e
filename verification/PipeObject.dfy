/** `pipe_t` as an object: the methods update its fields and its two queues step by step. Each is
    proved to do to the object what `PipeEnd` says; `PipeObjects` puts two of them together. */
module PipeObject {
  import opened Options
  import opened PipeEnd
  import Y = YPipe

  class Pipe<T> {
    const inpipe: Y.YPipe<Item<T>>
    var outpipe: Y.YPipe?<Item<T>>

    var inActive: bool
    var outActive: bool
    const hwm: int
    const lwm: int
    var msgsRead: nat
    var msgsWritten: nat
    var peersMsgsRead: nat
    var state: Status
    var delay: bool

    /** The commands sent to the peer so far. */
    var outbox: seq<Command>

    /** The queue `outpipe` points to until it is given up. */
    ghost const outq: Y.YPipe<Item<T>>
    ghost var gone: bool
    ghost var got: seq<Item<T>>
    ghost var put: seq<Item<T>>

    ghost predicate Valid()
      reads this, inpipe, outq
    {
      && inpipe != outq
      && inpipe.Valid() && outq.Valid()
      && (outpipe == null || outpipe == outq)
      && forall i :: 0 <= i < |outq.Queue().partial| ==>
           outq.Queue().partial[i].Part? && outq.Queue().partial[i].more
    }

    ghost function View(): Local<T>
      reads this, inpipe, outq
    {
      Local(End(state, inActive, outActive, hwm, lwm, msgsRead, msgsWritten, peersMsgsRead, delay,
                outpipe != null, gone),
            inpipe.Queue(), outq.Queue(), outbox, got, put)
    }

    constructor (inq: Y.YPipe<Item<T>>, out: Y.YPipe<Item<T>>, inhwm: int, outhwm: int, delayed: bool)
      requires inq != out && inq.Valid() && out.Valid() && out.Queue().partial == []
      ensures Valid() && inpipe == inq && outq == out
      ensures View() == Local(Created(inhwm, outhwm, delayed), inq.Queue(), out.Queue(), [], [], [])
    {
      inpipe, outpipe, outq := inq, out, out;
      inActive, outActive := true, true;
      hwm, lwm := outhwm, ComputeLwm(inhwm);
      msgsRead, msgsWritten, peersMsgsRead := 0, 0, 0;
      state, delay, outbox := Active, delayed, [];
      gone, got, put := false, [], [];
    }

    method Delimit()
      requires Valid() && (state == Active || state == Pending)
      modifies this
      ensures Valid() && View() == PipeEnd.Delimit(old(View()))
    {
      if state == Active {
        state := Delimited;
        return;
      }
      outpipe := null;
      outbox := outbox + [PipeTermAck];
      state := Terminating;
    }

    method CheckRead() returns (ready: bool)
      requires Valid()
      modifies this, inpipe
      ensures Valid() && (View(), ready) == PipeEnd.CheckRead(old(View()))
    {
      if !inActive || (state != Active && state != Pending) {
        return false;
      }
      var available := inpipe.CheckRead();
      if !available {
        inActive := false;
        return false;
      }
      var front := inpipe.Front();
      if front.Delimiter? {
        var msg := inpipe.Read();
        got := got + [front];
        Delimit();
        return false;
      }
      return true;
    }

    method Read() returns (msg: Option<Item<T>>)
      requires Valid()
      modifies this, inpipe
      ensures Valid() && (View(), msg) == PipeEnd.Read(old(View()))
    {
      if !inActive || (state != Active && state != Pending) {
        return None;
      }
      msg := inpipe.Read();
      if msg == None {
        inActive := false;
        return None;
      }
      got := got + [msg.value];
      if msg.value.Delimiter? {
        Delimit();
        return None;
      }
      Account(msg.value.more);
    }

    /** The end of `read`: count the message, report every `lwm` of them to the writer. */
    method Account(more: bool)
      requires Valid()
      modifies this`msgsRead, this`outbox
      ensures Valid() && View() == PipeEnd.Account(old(View()), more)
    {
      if !more {
        msgsRead := msgsRead + 1;
      }
      if lwm > 0 && msgsRead % lwm == 0 {
        outbox := outbox + [ActivateWrite(msgsRead)];
      }
    }

    method CheckWrite() returns (ok: bool)
      requires Valid()
      modifies this
      ensures Valid() && (View(), ok) == PipeEnd.CheckWrite(old(View()))
      ensures outpipe == old(outpipe)
    {
      if !outActive || state != Active {
        return false;
      }
      var full := hwm > 0 && msgsWritten - peersMsgsRead == hwm;
      if full {
        outActive := false;
        return false;
      }
      return true;
    }

    /** An active end still has its outbound queue. */
    method Write(body: T, more: bool) returns (ok: bool)
      requires Valid() && (state == Active ==> outpipe != null)
      modifies this, outq
      ensures Valid() && (View(), ok) == PipeEnd.Write(old(View()), body, more)
    {
      ok := CheckWrite();
      if !ok {
        return;
      }
      put := if more then put else put + outq.Queue().partial + [Part(body, more)];
      outpipe.Write(Part(body, more), more);
      if !more {
        msgsWritten := msgsWritten + 1;
      }
    }

    method Rollback()
      requires Valid()
      modifies outq
      ensures Valid() && View() == PipeEnd.Rollback(old(View()))
    {
      if outpipe != null {
        var msg := outpipe.Unwrite();
        while msg.Some?
          invariant Valid()
          invariant msg == None ==> outq.Queue() == old(outq.Queue()).(partial := [])
          invariant outq.Queue() == old(outq.Queue()).(partial := outq.Queue().partial)
          invariant msg.Some? ==> msg.value.Part? && msg.value.more
          decreases |outq.Queue().partial|, msg.Some?
        {
          msg := outpipe.Unwrite();
        }
      }
    }

    method Flush()
      requires Valid()
      modifies this`outbox, outq
      ensures Valid() && View() == PipeEnd.Flush(old(View()))
    {
      if state == Terminating {
        return;
      }
      if outpipe != null {
        var ok := outpipe.Flush();
        if !ok {
          outbox := outbox + [ActivateRead];
        }
      }
    }

    /** The middle of `terminate`: the move in the handshake. */
    method AskOrAcknowledge()
      requires Valid()
      modifies this`state, this`outbox, this`outpipe
      ensures Valid() && View() == TerminateState(old(View()))
    {
      if state == Active {
        outbox := outbox + [PipeTerm];
        state := Terminated;
      } else if state == Pending && !delay {
        outpipe := null;
        outbox := outbox + [PipeTermAck];
        state := Terminating;
      } else if state == Pending {
      } else if state == Delimited {
        outbox := outbox + [PipeTerm];
        state := Terminated;
      }
    }

    method Terminate(delayed: bool)
      requires Valid()
      modifies this, outq
      ensures Valid() && View() == PipeEnd.Terminate(old(View()), delayed)
    {
      delay := delayed;
      if state == Terminated || state == DoubleTerminated {
        return;
      } else if state == Terminating {
        return;
      }
      Shut();
    }

    method Shut()
      requires Valid()
      modifies this`state, this`outbox, this`outpipe, this`outActive, this`put, outq
      ensures Valid()
      ensures View() == var l := TerminateState(old(View())); PipeEnd.Close(l.(me := l.me.(outActive := false)))
    {
      hide PipeEnd.Close, TerminateState;
      AskOrAcknowledge();
      outActive := false;
      Close();
    }

    /** The end of `terminate`: drop the unfinished message, write the delimiter, flush. */
    method Close()
      requires Valid()
      modifies this`put, this`outbox, outq
      ensures Valid() && View() == PipeEnd.Close(old(View()))
    {
      if outpipe != null {
        Rollback();
        put := put + [Delimiter];
        outpipe.Write(Delimiter, false);
        Flush();
      }
    }

    /** `activated`: the sink is told that the pipe can be read again. */
    method HandleActivateRead() returns (activated: bool)
      requires Valid()
      modifies this
      ensures Valid() && View() == PipeEnd.ProcessActivateRead(old(View()))
      ensures activated <==> View() != old(View())
    {
      activated := !inActive && (state == Active || state == Pending);
      if activated {
        inActive := true;
      }
    }

    method HandleActivateWrite(n: nat) returns (activated: bool)
      requires Valid()
      modifies this
      ensures Valid() && View() == PipeEnd.ProcessActivateWrite(old(View()), n)
      ensures activated <==> !old(outActive) && outActive
    {
      peersMsgsRead := n;
      activated := !outActive && state == Active;
      if activated {
        outActive := true;
      }
    }

    method HandlePipeTerm()
      requires Valid() && TermExpected(View().me)
      modifies this
      ensures Valid() && View() == PipeEnd.ProcessPipeTerm(old(View()))
    {
      if state == Active {
        if !delay {
          state := Terminating;
          outpipe := null;
          outbox := outbox + [PipeTermAck];
        } else {
          state := Pending;
        }
        return;
      }
      if state == Delimited {
        state := Terminating;
        outpipe := null;
        outbox := outbox + [PipeTermAck];
        return;
      }
      state := DoubleTerminated;
      outpipe := null;
      outbox := outbox + [PipeTermAck];
    }

    /** Drop everything unread. */
    method Drain()
      requires Valid()
      modifies inpipe
      ensures Valid() && inpipe.Queue() == old(inpipe.Queue()).(unread := [], asleep := true)
    {
      ghost var q := inpipe.Queue();
      var msg := inpipe.Read();
      while msg.Some?
        invariant inpipe.Valid() && Valid()
        invariant inpipe.Queue() == q.(unread := inpipe.Queue().unread, asleep := inpipe.Queue().asleep)
        invariant msg == None ==> inpipe.Queue().unread == [] && inpipe.Queue().asleep
        decreases |inpipe.Queue().unread|, msg.Some?
      {
        msg := inpipe.Read();
      }
    }

    method HandlePipeTermAck()
      requires Valid() && AckExpected(View().me)
      modifies this, inpipe
      ensures Valid() && View() == PipeEnd.ProcessPipeTermAck(old(View()))
    {
      if state == Terminated {
        outpipe := null;
        outbox := outbox + [PipeTermAck];
      }
      Drain();
      gone := true;
    }
  }
}
