/** `own_t` as an object. The network carries, for the proof only, the state of all objects as `OwnTree`
    sees it; each method is proved to change it the way the steps there say. */
module OwnObject {
  import opened Options
  import opened OwnTree

  /** The mailboxes: commands are sent in order. */
  class Network {
    var sent: seq<Cmd>
    ghost var s: State

    method Send(c: Cmd)
      modifies this
      ensures sent == old(sent) + [c] && s == Post(old(s), c)
    {
      sent := sent + [c];
      s := Post(s, c);
    }
  }

  ghost function Members(order: seq<Id>): set<Id> {
    set c | c in order
  }

  class Own {
    const me: Id
    const net: Network
    var owner: Option<Id>
    var terminating: bool
    var sentSeq: nat
    var procSeq: nat
    var owned: set<Id>
    var termAcks: int
    var gone: bool
    ghost var reserved: nat
    ghost var events: nat
    ghost var depth: nat

    ghost function View(): Obj
      reads this
    {
      Obj(owner, terminating, sentSeq, procSeq, owned, termAcks, gone, reserved, events, depth)
    }

    ghost predicate Valid()
      reads this, net
    {
      me in net.s.objs && net.s.objs[me] == View() && !net.s.failed
    }

    /** Record the object's fields in the state of the network. */
    ghost method Note()
      requires me in net.s.objs
      modifies net`s
      ensures net.s == Put(old(net.s), me, View())
    {
      net.s := Put(net.s, me, View());
    }

    constructor (me: Id, net: Network, seqs: nat)
      requires me !in net.s.objs && !net.s.failed
      modifies net`s
      ensures Valid() && this.me == me && this.net == net
      ensures net.s == Put(old(net.s), me, Fresh(None, seqs, seqs, 0))
    {
      this.me, this.net, owner, terminating := me, net, None, false;
      sentSeq, procSeq, owned, termAcks, gone := seqs, 0, {}, 0, false;
      reserved, events, depth := seqs, 0, 0;
      new;
      net.s := Put(net.s, me, View());
    }

    /** `check_term_acks`: deallocate when nothing is awaited any more. */
    method CheckTermAcks()
      requires Valid() && !Settle(net.s, me).failed
      modifies this`gone, net
      ensures Valid() && net.s == Settle(old(net.s), me)
    {
      if terminating && procSeq == sentSeq && termAcks == 0 {
        assert owned == {};
        gone := true;
        Note();
        if owner.Some? {
          net.Send(TermAck(owner.value, me));
        }
      }
    }

    method ProcessSeqnum()
      requires Valid() && !OwnTree.ProcessSeqnum(net.s, me).failed
      modifies this`procSeq, this`gone, net
      ensures Valid() && net.s == OwnTree.ProcessSeqnum(old(net.s), me)
    {
      procSeq := procSeq + 1;
      Note();
      CheckTermAcks();
    }

    method ProcessTermReq(child: Id)
      requires Valid()
      modifies this`owned, this`termAcks, net
      ensures Valid() && net.s == OwnTree.ProcessTermReq(old(net.s), me, child)
    {
      if terminating {
        return;
      }
      if child !in owned {
        return;
      }
      owned := owned - {child};
      termAcks := termAcks + 1;
      Note();
      net.Send(Term(child, me));
    }

    method ProcessOwn(child: Id)
      requires Valid()
      modifies this`owned, this`termAcks, net
      ensures Valid() && net.s == OwnTree.ProcessOwn(old(net.s), me, child)
    {
      if terminating {
        termAcks := termAcks + 1;
        Note();
        net.Send(Term(child, me));
        return;
      }
      owned := owned + {child};
      Note();
    }

    /** The loop of `process_term` over the owned objects. */
    method SendTerms(order: seq<Id>)
      requires Lists(order, owned)
      modifies net
      ensures net.s == old(net.s).(flight := old(net.s).flight + AllTerms(order, me), told := old(net.s).told + owned)
    {
      ghost var s := net.s;
      assert s.flight + AllTerms(order[..0], me) == s.flight;
      for i := 0 to |order|
        invariant net.s == s.(flight := s.flight + AllTerms(order[..i], me), told := s.told + Members(order[..i]))
      {
        assert AllTerms(order[..i + 1], me) == AllTerms(order[..i], me) + [Term(order[i], me)];
        assert order[..i + 1] == order[..i] + [order[i]];
        assert Members(order[..i + 1]) == Members(order[..i]) + {order[i]};
        net.Send(Term(order[i], me));
      }
      assert order[..|order|] == order;
      assert Members(order) == owned;
    }

    /** `order` is the order in which the set of owned objects is visited. */
    method ProcessTerm(order: seq<Id>)
      requires Valid() && Lists(order, owned) && !OwnTree.ProcessTerm(net.s, me, order).failed
      modifies this`owned, this`termAcks, this`terminating, this`gone, net
      ensures Valid() && net.s == OwnTree.ProcessTerm(old(net.s), me, order)
    {
      assert !terminating;
      ghost var s := net.s;
      SendTerms(order);
      termAcks := termAcks + |order|;
      owned := {};
      terminating := true;
      Note();
      assert net.s == TellAll(s, me, order);
      CheckTermAcks();
    }

    method Terminate(order: seq<Id>)
      requires Valid() && Lists(order, owned)
      requires !terminating && owner.None? ==> !OwnTree.ProcessTerm(net.s, me, order).failed
      modifies this`owned, this`termAcks, this`terminating, this`gone, net
      ensures Valid()
      ensures net.s == if old(terminating) then old(net.s)
                       else if owner.None? then OwnTree.ProcessTerm(old(net.s), me, order)
                       else Post(old(net.s), TermReq(owner.value, me))
    {
      if terminating {
        return;
      }
      if owner.None? {
        ProcessTerm(order);
        return;
      }
      net.Send(TermReq(owner.value, me));
    }

    method UnregisterTermAck()
      requires Valid() && !OwnTree.UnregisterTermAck(net.s, me).failed
      modifies this`termAcks, this`gone, net
      ensures Valid() && net.s == OwnTree.UnregisterTermAck(old(net.s), me)
    {
      assert termAcks > 0;
      termAcks := termAcks - 1;
      Note();
      CheckTermAcks();
    }

    /** `process_command`: a command that took a sequence number is counted once it is processed. */
    method ProcessCommand(c: Cmd, order: seq<Id>)
      requires Valid() && c.dst == me && Lists(order, owned) && !Process(net.s, c, order).failed
      modifies this`owned, this`termAcks, this`terminating, this`procSeq, this`gone, net
      ensures Valid() && net.s == Process(old(net.s), c, order)
    {
      match c
      case Plug(_, _) => ProcessSeqnum();
      case Own(_, child) =>
        ProcessOwn(child);
        ProcessSeqnum();
      case Seq(_, _) => ProcessSeqnum();
      case TermReq(_, child) => ProcessTermReq(child);
      case Term(_, _) => ProcessTerm(order);
      case TermAck(_, child) =>
        net.s := net.s.(acked := net.s.acked + {child});
        UnregisterTermAck();
    }

    /** Launch a new object: it is plugged in, and this object is told that it owns it. */
    method LaunchChild(child: Own)
      requires Valid() && child.Valid() && child.net == net && child.me != me
      requires child.owner.None? && !child.terminating && !child.gone && child.procSeq == 0 && child.owned == {}
               && child.termAcks == 0 && child.events == 0 && child.sentSeq == child.reserved
      modifies this`sentSeq, child`owner, child`sentSeq, child`depth, net
      ensures Valid() && child.Valid()
      ensures child.View() == Fresh(Some(me), 1 + child.reserved, child.reserved, depth + 1)
      ensures net.s == var s := Put(Put(old(net.s), child.me, child.View()), me, View());
                       Post(Post(s, Plug(child.me, me)), OwnTree.Own(me, child.me))
      ensures View() == old(View()).(sentSeq := old(sentSeq) + 1)
    {
      child.owner := Some(me);
      child.depth := depth + 1;
      child.sentSeq := child.sentSeq + 1;
      child.Note();
      net.Send(Plug(child.me, me));
      sentSeq := sentSeq + 1;
      Note();
      net.Send(OwnTree.Own(me, child.me));
    }
  }

  /** In a reachable state, whatever command is delivered next, its handler runs without a failed assertion,
      so the methods above may be called. */
  lemma HandlersMayRun(s: State, i: nat, order: seq<Id>)
    requires Inv(s) && Enabled(s, Deliver(i, order))
    ensures Live(s, s.flight[i].dst)
    ensures !Process(s.(flight := Remove(s.flight, i)), s.flight[i], order).failed
  {
    StepInv(s, Deliver(i, order));
  }
}
