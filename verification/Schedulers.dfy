/** `fq_t` and `lb_t` as objects. */
module Schedulers {
  import opened Arrays
  import opened Options
  import opened PipeArray
  import opened Message
  import opened Parts
  import opened RoundRobin

  /** A pipe to read from, with the messages that are visible in it. */
  class InPipe {
    var incoming: seq<Part>

    constructor ()
      ensures incoming == []
    {
      incoming := [];
    }

    method Read() returns (r: Option<Part>)
      modifies this
      ensures old(incoming) == [] ==> r.None? && incoming == []
      ensures old(incoming) != [] ==> r.Some? && old(incoming) == [r.value] + incoming
    {
      if |incoming| == 0 {
        return None;
      }
      r := Some(incoming[0]);
      incoming := incoming[1..];
    }
  }

  class Fq {
    var pipes: seq<InPipe>
    var active: nat
    var current: nat
    var more: bool

    ghost function View(): Ring<InPipe>
      reads this
    {
      Ring(pipes, active, current)
    }

    ghost predicate Valid()
      reads this, pipes
    {
      && Ok(View())
      && (forall p :: p in pipes ==> Whole(p.incoming))
      && (more ==> active > 0 && pipes[current].incoming != [])
    }

    ghost function Ready(): set<InPipe>
      reads this, pipes
    {
      set p | p in pipes && p.incoming != []
    }

    constructor ()
      ensures Valid() && View() == Ring([], 0, 0) && !more
    {
      pipes, active, current, more := [], 0, 0, false;
    }

    method Attach(p: InPipe)
      requires Valid() && p !in pipes && Whole(p.incoming)
      modifies this`pipes, this`active
      ensures Valid() && View() == RoundRobin.Attach(old(View()), p)
    {
      ghost var r := View().(pipes := pipes + [p]);
      assert r.pipes[..active] == pipes[..active] && r.pipes[..current] == pipes[..current];
      ActivateMeans(r, |pipes|);
      ghost var was := pipes;
      pipes := Swapped(pipes + [p], |pipes|, active);
      active := active + 1;
      assert more ==> pipes[current] == was[current];
      SameItems(pipes, r.pipes);
    }

    /** The pipe at `i` can be read again. */
    method Activated(i: nat)
      requires Valid() && active <= i < |pipes|
      modifies this`pipes, this`active
      ensures Valid() && View() == Activate(old(View()), i)
    {
      ActivateMeans(View(), i);
      ghost var was := View();
      pipes := Swapped(pipes, i, active);
      active := active + 1;
      SameItems(pipes, was.pipes);
    }

    /** The pipe at `i` goes. In the middle of a message this may leave `current` at a wrong pipe: see
        `CurrentStaysIff`. */
    method Terminated(i: nat)
      requires Valid() && i < |pipes|
      modifies this`pipes, this`active, this`current
      ensures View() == RoundRobin.Terminated(old(View()), i)
      ensures !more || CurrentStays(old(View()), i) ==> Valid()
    {
      ghost var r, t := View(), RoundRobin.Terminated(View(), i);
      TerminatedMeans(r, i);
      RemainingItems(t.pipes, pipes, i);
      if more { CurrentStaysIff(r, i); }
      assert t == if i < active then Ring(Erased(Swapped(pipes, i, active - 1), active - 1), active - 1,
                                          if current == active - 1 then 0 else current)
                  else r.(pipes := Erased(pipes, i));
      hide RoundRobin.Terminated, Ok, Erased, Swapped, CurrentStays;
      if i < active {
        active := active - 1;
        pipes := Swapped(pipes, i, active);
        if current == active {
          current := 0;
        }
        pipes := Erased(pipes, active);
      } else {
        pipes := Erased(pipes, i);
      }
      assert View() == t;
    }

    /** Deactivate the current pipe. */
    method Deactivate()
      requires Valid() && active > 0 && !more
      modifies this`pipes, this`active, this`current
      ensures Valid() && View() == Skip(old(View())) && Ready() == old(Ready())
      ensures active < old(active) && forall q :: q in pipes <==> q in old(pipes)
    {
      SkipMeans(View());
      ghost var was := View();
      active := active - 1;
      pipes := Swapped(pipes, current, active);
      if current == active {
        current := 0;
      }
      SameItems(pipes, was.pipes);
    }

    /** After the last part of a message it is the next pipe's turn. */
    method PartRead(m: bool)
      requires Ok(View()) && active > 0
      modifies this`more, this`current
      ensures more == m && Ok(View()) && View() == if m then old(View()) else Advance(old(View()))
    {
      more := m;
      if !more {
        current := (current + 1) % active;
      }
    }

    /** The next part of the message being read, or the first part of one from the next pipe that has one. */
    method RecvPipe() returns (r: Option<Part>, from: InPipe?)
      requires Valid()
      modifies this, pipes
      ensures Valid() && forall q :: q in pipes <==> q in old(pipes)
      ensures var f := Find(old(View()), old(Ready()));
              && (old(more) ==> f == old(View()))
              && (r.None? <==> f.active == 0)
              && (r.None? ==> View() == f && from == null && forall q :: q in pipes ==> q.incoming == old(q.incoming))
              && (r.Some? ==>
                    && f.current < |f.pipes| && from == f.pipes[f.current]
                    && more == r.value.more
                    && View() == (if more then f else Advance(f))
                    && forall q :: q in pipes ==>
                         old(q.incoming) == (if q == from then [r.value] else []) + q.incoming)
    {
      from := null;
      hide Find, Skip, Distinct, Advance;
      FindStep(View(), Ready());
      while active > 0
        invariant Valid() && forall q :: q in pipes <==> q in old(pipes)
        invariant Find(View(), Ready()) == Find(old(View()), old(Ready()))
        invariant Ready() == old(Ready())
        invariant forall q :: q in pipes ==> q.incoming == old(q.incoming)
        invariant more == old(more) && (more ==> View() == old(View()))
        decreases active
      {
        assert pipes[current] in pipes;
        var p := pipes[current];
        FindStep(View(), Ready());
        ghost var ready, v := Ready(), View();
        r := p.Read();
        if r.Some? {
          from := p;
          PartRead(r.value.more);
          return;
        }
        assert Ready() == ready && View() == v;
        Deactivate();
      }
      FindStep(View(), Ready());
      return None, null;
    }
  }

  class Lb {
    var pipes: seq<Pipe>
    var active: nat
    var current: nat
    var more: bool
    /** The rest of a message is dropped because its pipe has gone. */
    var dropping: bool

    ghost function View(): Ring<Pipe>
      reads this
    {
      Ring(pipes, active, current)
    }

    /** In the middle of a message its pipe goes on accepting. */
    ghost predicate Valid()
      reads this, pipes
    {
      && Ok(View())
      && (more && !dropping ==> active > 0 && pipes[current].box.accepts)
    }

    ghost function Ready(): set<Pipe>
      reads this, pipes
    {
      set p | p in pipes && p.box.accepts
    }

    constructor ()
      ensures Valid() && View() == Ring([], 0, 0) && !more && !dropping
    {
      pipes, active, current, more, dropping := [], 0, 0, false, false;
    }

    /** Deactivate the current pipe. */
    method Deactivate()
      requires Valid() && active > 0 && !more
      modifies this`pipes, this`active, this`current
      ensures Valid() && View() == Skip(old(View())) && Ready() == old(Ready())
      ensures active < old(active) && forall q :: q in pipes <==> q in old(pipes)
    {
      SkipMeans(View());
      ghost var was := View();
      active := active - 1;
      if current < active {
        pipes := Swapped(pipes, current, active);
      } else {
        assert Swapped(pipes, active, active) == pipes;
        current := 0;
      }
      SameItems(pipes, was.pipes);
    }

    /** The pipe at `i` goes. If a message was being written to it, the rest of the message is dropped. */
    method Terminated(i: nat)
      requires Valid() && i < |pipes|
      modifies this`pipes, this`active, this`current, this`dropping
      ensures View() == RoundRobin.Terminated(old(View()), i)
      ensures dropping == (old(dropping) || (i == old(current) && more))
      ensures !more || dropping || CurrentStays(old(View()), i) ==> Valid()
    {
      ghost var r := View();
      TerminatedMeans(r, i);
      if active > 0 { CurrentStaysIff(r, i); }
      hide RoundRobin.Terminated, CurrentStays, Distinct;
      if i == current && more {
        dropping := true;
      }
      Remove(i);
    }

    method Remove(i: nat)
      requires active <= |pipes| && i < |pipes|
      modifies this`pipes, this`active, this`current
      ensures View() == RoundRobin.Terminated(old(View()), i)
    {
      if i < active {
        active := active - 1;
        pipes := Swapped(pipes, i, active);
        if current == active {
          current := 0;
        }
        pipes := Erased(pipes, active);
      } else {
        pipes := Erased(pipes, i);
      }
    }

    /** Skip pipes that do not accept. */
    method FindPipe(v: Val) returns (ok: bool)
      requires Valid() && !dropping
      modifies this`pipes, this`active, this`current, pipes`box
      ensures Valid() && forall q :: q in pipes <==> q in old(pipes)
      ensures View() == Find(old(View()), old(Ready())) && (more ==> View() == old(View()))
      ensures ok <==> active > 0
      ensures ok ==> pipes[current].box.accepts
      ensures forall q :: q in pipes ==>
                && q.box.written == old(q.box.written) + (if ok && q == pipes[current] then [v] else [])
                && q.box.flushed == old(q.box.flushed) && q.box.accepts == old(q.box.accepts)
    {
      hide Find, Skip, Distinct;
      while active > 0
        invariant Valid() && forall q :: q in pipes <==> q in old(pipes)
        invariant Find(View(), Ready()) == Find(old(View()), old(Ready()))
        invariant Ready() == old(Ready()) && (more ==> View() == old(View()))
        invariant forall q :: q in pipes ==>
                    && q.box.written == old(q.box.written) && q.box.flushed == old(q.box.flushed)
                    && q.box.accepts == old(q.box.accepts)
        decreases active
      {
        assert pipes[current] in pipes;
        FindStep(View(), Ready());
        ghost var ready, w := Ready(), View();
        ok := pipes[current].Write(v);
        assert Ready() == ready && View() == w;
        if ok {
          return;
        }
        Deactivate();
      }
      FindStep(View(), Ready());
      ok := false;
    }

    /** Send one part: to the pipe of the message, or to the next pipe that accepts. */
    method Send(msg: Msg) returns (rc: int)
      requires Valid() && Holds(msg.u) && (msg.u.Vsm? || msg.u.Long?)
      modifies this, pipes`box, msg, Contents(msg.u)
      ensures Valid() && forall q :: q in pipes <==> q in old(pipes)
      ensures old(dropping) ==>
                && rc == 0 && View() == old(View()) && more == dropping == HasMore(old(msg.u))
                && msg.u == Vsm([], false)
                && (old(msg.u).Long? ==> old(msg.u).content.Ok() && old(msg.u).content.live == old(msg.u.content.live) - 1)
                && forall q :: q in pipes ==> q.box.written == old(q.box.written) && q.box.flushed == old(q.box.flushed)
      ensures !old(dropping) ==>
                var f := Find(old(View()), old(Ready()));
                && !dropping && (old(more) ==> f == old(View()))
                && (rc == if f.active == 0 then -1 else 0)
                && (rc == -1 ==>
                      && View() == f && more == old(more) && msg.u == old(msg.u)
                      && forall q :: q in pipes ==> q.box.written == old(q.box.written) && q.box.flushed == old(q.box.flushed))
                && (rc == 0 ==>
                      && f.current < |f.pipes| && more == HasMore(old(msg.u)) && msg.u == Vsm([], false)
                      && View() == (if more then f else Advance(f))
                      && forall q :: q in pipes ==>
                           && q.box.written == old(q.box.written) + (if q == f.pipes[f.current] then [old(msg.u)] else [])
                           && q.box.flushed == if q == f.pipes[f.current] && !more then |q.box.written| else old(q.box.flushed))
    {
      var v := msg.u;
      if dropping {
        more := HasMore(v);
        dropping := more;
        var closed := msg.Close();
        msg.Init();
        return 0;
      }
      var ok := FindPipe(v);
      if active == 0 {
        return -1;
      }
      more := HasMore(v);
      if !more {
        assert pipes[current] in pipes;
        pipes[current].Flush();
        current := (current + 1) % active;
      }
      msg.Init();
      return 0;
    }
  }
}
