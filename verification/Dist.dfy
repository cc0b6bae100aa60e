/** `dist_t` as an object: its methods do to the array and the cursors what `Fanout` says, and hand the
    message to the pipes. */
module Dist {
  import opened Arrays
  import opened Fanout
  import opened Message
  import opened PipeArray

  /** The handle that `n` pipes share. */
  function Copied(v: Val, n: nat): (c: Val)
    ensures HasMore(c) == HasMore(v) && (v.Long? <==> c.Long?) && (v.Long? ==> c.content == v.content)
    ensures !v.Long? ==> c == v
  {
    if v.Long? && n > 1 then v.(shared := true) else v
  }

  class Dist {
    const pipes: PipeArray
    var matching: nat
    var active: nat
    var eligible: nat
    var more: bool

    ghost function View(): Cursors<Pipe>
      reads this, pipes
    {
      Cursors(pipes.items, matching, active, eligible, more)
    }

    ghost predicate Valid()
      reads this, pipes, pipes.owned`index
    {
      pipes.Valid() && Ok(View())
    }

    constructor ()
      ensures Valid() && fresh(pipes) && View() == Cursors([], 0, 0, 0, false)
    {
      pipes := new PipeArray();
      matching, active, eligible, more := 0, 0, 0, false;
    }

    lemma AttachIsOk(p: Pipe)
      requires Valid() && p !in pipes.owned
      ensures active <= eligible <= |pipes.items| && Ok(Fanout.Attach(View(), p))
    {
      pipes.Owned();
      assert p !in pipes.items by { assert p !in All(pipes.items); }
      AttachMeans(View(), p);
    }

    method Attach(p: Pipe)
      requires Valid() && p !in pipes.owned
      modifies this`active, this`eligible, pipes, pipes.owned`index, p`index
      ensures Valid() && pipes.owned == old(pipes.owned) + {p} && View() == Fanout.Attach(old(View()), p)
    {
      AttachIsOk(p);
      ghost var d: Cursors<Pipe>, n := Fanout.Attach(View(), p), |pipes.items|;
      assert d.pipes == Swapped(pipes.items + [p], if more then eligible else active, n) && d.more == more;
      assert d.matching == matching && d.eligible == eligible + 1 && d.active == if more then active else active + 1;
      hide Ok, Swapped, Distinct, Fanout.Attach;
      pipes.PushBack(p);
      if more {
        pipes.Swap(eligible, |pipes.items| - 1);
        eligible := eligible + 1;
      } else {
        pipes.Swap(active, |pipes.items| - 1);
        active := active + 1;
        eligible := eligible + 1;
      }
      assert View() == d;
    }

    /** Mark a pipe for the next message. For what a call in the middle of a message does, see `MatchMeans`. */
    method Match(p: Pipe)
      requires Valid() && p in pipes.owned
      modifies this`matching, pipes`items, pipes.owned`index
      ensures pipes.Valid() && View() == Fanout.Match(old(View()), old(p.index))
      ensures !(active <= old(p.index) < eligible) ==> Valid()
    {
      MatchMeans(View(), pipes.Index(p));
      if pipes.Index(p) < matching || pipes.Index(p) >= eligible {
        return;
      }
      pipes.Swap(pipes.Index(p), matching);
      matching := matching + 1;
    }

    method Unmatch()
      requires Valid()
      modifies this`matching
      ensures Valid() && View() == old(View()).(matching := 0)
    {
      matching := 0;
    }

    /** A pipe that refused a message can be written to again. */
    method Activated(p: Pipe)
      requires Valid() && p in pipes.owned && p.index >= eligible
      modifies this`active, this`eligible, pipes`items, pipes.owned`index
      ensures Valid() && View() == Fanout.Activated(old(View()), old(p.index))
    {
      ActivatedMeans(View(), p.index);
      ghost var d: Cursors<Pipe> := Fanout.Activated(View(), p.index);
      ghost var s := Swapped(pipes.items, p.index, eligible);
      assert d.pipes == (if more then s else Swapped(s, eligible, active)) && d.more == more;
      assert d.matching == matching && d.eligible == eligible + 1 && d.active == if more then active else active + 1;
      assert active <= eligible && Ok(d);
      hide Ok, Swapped, Distinct, Fanout.Activated;
      pipes.Swap(pipes.Index(p), eligible);
      eligible := eligible + 1;
      if !more {
        pipes.Swap(eligible - 1, active);
        active := active + 1;
      }
      assert View() == d;
    }

    /** One cursor less where the pipe at `i` is before it. */
    method Lower(i: nat)
      modifies this`matching, this`active, this`eligible
      ensures matching == Without(old(matching), i) && active == Without(old(active), i)
      ensures eligible == Without(old(eligible), i)
    {
      if i < matching {
        matching := matching - 1;
      }
      if i < active {
        active := active - 1;
      }
      if i < eligible {
        eligible := eligible - 1;
      }
    }

    /** Remove a pipe. The cursors stay in order; whether the right pipes stay before them, see
        `ErasedKeepsIff`. */
    method Terminated(p: Pipe)
      requires Valid() && p in pipes.owned
      modifies this`matching, this`active, this`eligible, pipes, pipes.owned`index
      ensures pipes.owned == old(pipes.owned) - {p}
      ensures Valid() && View() == Fanout.Terminated(old(View()), old(p.index))
    {
      TerminatedOk(View(), p.index);
      hide Ok, Erased, Distinct, Without;
      Lower(pipes.Index(p));
      pipes.Erase(p);
    }

    /** Put a pipe that refused behind all cursors, which are as in `c`. */
    method Demote(p: Pipe, ghost c: Cursors<Pipe>)
      requires pipes.Valid() && c == Cursors(pipes.items, matching, active, eligible, more) && Ordered(c)
      requires p in pipes.owned && p.index < matching
      modifies this`matching, this`active, this`eligible, pipes`items, pipes.owned`index
      ensures pipes.Valid()
      ensures Refused(c, old(p.index)) == Cursors(pipes.items, matching, active, eligible, more)
    {
      hide Swapped, Distinct;
      pipes.Swap(pipes.Index(p), matching - 1);
      matching := matching - 1;
      assert pipes.items[matching] == p;
      pipes.Swap(pipes.Index(p), active - 1);
      active := active - 1;
      pipes.Swap(active, eligible - 1);
      eligible := eligible - 1;
    }

    /** Write to a matching pipe; one that refuses is no longer matching, active or eligible. The cursors
        go from `c` to `d`. */
    method Write(p: Pipe, v: Val, ghost c: Cursors<Pipe>) returns (ok: bool, ghost d: Cursors<Pipe>)
      requires pipes.Valid() && c == Cursors(pipes.items, matching, active, eligible, more) && Ordered(c)
      requires p in pipes.owned && p.index < matching
      modifies this`matching, this`active, this`eligible, pipes`items, pipes.owned`index, p`box
      ensures pipes.Valid() && d == Cursors(pipes.items, matching, active, eligible, more)
      ensures ok == old(p.box).accepts && Tried(old(p.box), p.box, v)
      ensures pipes.Boxes() == old(pipes.Boxes())[p := Offered(old(p.box), v)]
      ensures d == if ok then c else Refused(c, old(p.index))
    {
      hide Refused, Distinct, PipeArray.Boxes, PipeArray.Valid;
      d := c;
      ok := p.Write(v);
      if !ok {
        pipes.OneBox(p);
        d := Refused(c, p.index);
        Demote(p, c);
        return;
      }
      if !HasMore(v) {
        p.Flush();
      }
      pipes.OneBox(p);
    }

    /** One round of the loop below. Of the pipes in `was`, those not still to come were offered the message since
        the boxes were as in `bs`. */
    method PushOne(i: nat, v: Val, ghost c: Cursors<Pipe>, ghost was: set<Pipe>, ghost bs: map<Pipe, Box>)
        returns (ok: bool, ghost d: Cursors<Pipe>)
      requires pipes.Valid() && c == Cursors(pipes.items, matching, active, eligible, more) && Ordered(c)
      requires i < c.matching && Pending(c, i) <= was
      requires pipes.Boxes() == Delivered(bs, v, was - Pending(c, i))
      modifies this`matching, this`active, this`eligible, pipes`items, pipes.owned`index, pipes.owned`box
      ensures pipes.Valid() && d == Cursors(pipes.items, matching, active, eligible, more) && Ordered(d)
      ensures var j := if ok then i + 1 else i;
              && j <= d.matching == c.matching - (if ok then 0 else 1)
              && Pending(d, j) <= was && Fanout.Push(d, j, Takers(bs)) == Fanout.Push(c, i, Takers(bs))
              && pipes.Boxes() == Delivered(bs, v, was - Pending(d, j))
    {
      ghost var p, tried := c.pipes[i], was - Pending(c, i);
      PushStep(c, i, Takers(bs));
      assert p in pipes.Boxes() && p in pipes.owned;
      DeliveredOne(bs, v, tried, p);
      assert tried + {p} == was - (Pending(c, i) - {p});
      assert p in Takers(bs) <==> p.box.accepts;
      hide Fanout.Push, Refused, Distinct, Pending, Offered, Delivered, Takers;
      ok, d := Write(pipes.items[i], v, c);
    }

    /** Try every matching pipe once, although those that refuse stop matching while the loop runs. */
    method Push(v: Val, ghost c: Cursors<Pipe>, ghost bs: map<Pipe, Box>) returns (failed: nat, ghost d: Cursors<Pipe>)
      requires pipes.Valid() && c == Cursors(pipes.items, matching, active, eligible, more) && Ordered(c)
      requires bs == pipes.Boxes()
      modifies this`matching, this`active, this`eligible, pipes`items, pipes.owned`index, pipes.owned`box
      ensures pipes.Valid() && d == Cursors(pipes.items, matching, active, eligible, more)
      ensures d == Fanout.Push(c, 0, Takers(bs)) && d.matching == c.matching - failed
      ensures pipes.Boxes() == Delivered(bs, v, Matching(c))
    {
      failed := 0;
      var i := 0;
      d := c;
      ghost var takes: set<Pipe> := Takers(bs);
      ghost var was, end: Cursors<Pipe> := Pending(c, 0), Fanout.Push(c, 0, takes);
      PendingAll(c);
      DeliveredNone(bs, v);
      hide Distinct, Fanout.Push, Pending, Delivered, Takers, Matching, PipeArray.Valid, PipeArray.Boxes;
      assert was - was == {};
      while i < matching
        invariant pipes.Valid() && d == Cursors(pipes.items, matching, active, eligible, more) && Ordered(d)
        invariant i <= d.matching && failed == c.matching - d.matching
        invariant Pending(d, i) <= was && Fanout.Push(d, i, takes) == end
        invariant pipes.Boxes() == Delivered(bs, v, was - Pending(d, i))
        decreases d.matching - i
      {
        var ok;
        ok, d := PushOne(i, v, d, was, bs);
        if ok {
          i := i + 1;
        } else {
          failed := failed + 1;
        }
      }
      PushEnds(d, i, takes);
      assert was - {} == was;
    }

    /** Empty a message that nobody gets. */
    static method Drop(msg: Msg)
      requires Holds(msg.u) && !msg.u.Invalid?
      modifies msg, Contents(msg.u)
      ensures msg.u == Vsm([], false)
      ensures old(msg.u).Long? ==> var c := old(msg.u).content; c.Ok() && c.live == old(c.live) - 1
    {
      var rc := msg.Close();
      msg.Init();
    }

    /** Empty a large message whose references belong to pipes, except those of the pipes that failed. */
    static method Detach(msg: Msg, failed: nat)
      requires Holds(msg.u) && msg.u.Long? && failed <= msg.u.content.live
      modifies msg, Contents(msg.u)
      ensures msg.u == Vsm([], false)
      ensures var c := old(msg.u).content; c.Ok() && c.live == old(c.live) - failed && c.shared == old(c.shared)
    {
      if failed > 0 {
        var left := msg.RmRefs(failed);
      }
      msg.Init();
    }

    /** Hand the message to the matching pipes and empty it. The references for the copies of a large message are added
        in advance, and those for the copies that were refused are taken back: afterwards the content has its other
        owners and the copies, and nobody else. */
    method Distribute(msg: Msg)
      requires Valid() && Holds(msg.u) && (msg.u.Vsm? || msg.u.Long?)
      modifies this`matching, this`active, this`eligible, pipes`items, pipes.owned`index, pipes.owned`box
      modifies msg, Contents(msg.u)
      ensures Valid() && View() == Fanout.Push(old(View()), 0, Takers(old(pipes.Boxes())))
      ensures pipes.Boxes() ==
              Delivered(old(pipes.Boxes()), Copied(old(msg.u), old(matching)), Matching(old(View())))
      ensures msg.u == Vsm([], false)
      ensures old(msg.u).Long? ==>
                var c := old(msg.u).content;
                && c.Ok() && c.live == old(c.live) - 1 + matching
                && (matching > 0 ==> Holds(Copied(old(msg.u), old(matching))))
    {
      ghost var c: Cursors<Pipe>, bs := View(), pipes.Boxes();
      PushOk(c, Takers(bs));
      PushNone(c, Takers(bs));
      DeliveredNone(bs, msg.u);
      hide Fanout.Push, Ok, Ordered, Matching, PipeArray.Valid, PipeArray.Boxes, Delivered, Takers, Content.Ok;
      if matching == 0 {
        Drop(msg);
      } else if msg.u.Vsm? {
        DistributeSmall(msg, c, bs);
      } else {
        DistributeLong(msg, c, bs);
      }
    }

    /** The message is in the handle, which every pipe copies. */
    method DistributeSmall(msg: Msg, ghost c: Cursors<Pipe>, ghost bs: map<Pipe, Box>)
      requires pipes.Valid() && c == Cursors(pipes.items, matching, active, eligible, more) && Ordered(c)
      requires bs == pipes.Boxes() && msg.u.Vsm?
      modifies this`matching, this`active, this`eligible, pipes`items, pipes.owned`index, pipes.owned`box
      modifies msg
      ensures pipes.Valid() && Fanout.Push(c, 0, Takers(bs)) == Cursors(pipes.items, matching, active, eligible, more)
      ensures pipes.Boxes() == Delivered(bs, old(msg.u), Matching(c))
      ensures msg.u == Vsm([], false)
    {
      hide Fanout.Push, Ordered, Matching, PipeArray.Valid, PipeArray.Boxes, Delivered, Takers;
      var failed, d := Push(msg.u, c, bs);
      Drop(msg);
    }

    /** One reference is there, so that `matching - 1` are added. */
    method DistributeLong(msg: Msg, ghost c: Cursors<Pipe>, ghost bs: map<Pipe, Box>)
      requires pipes.Valid() && c == Cursors(pipes.items, matching, active, eligible, more) && Ordered(c)
      requires bs == pipes.Boxes() && Holds(msg.u) && msg.u.Long? && matching > 0
      modifies this`matching, this`active, this`eligible, pipes`items, pipes.owned`index, pipes.owned`box
      modifies msg, Contents(msg.u)
      ensures pipes.Valid() && Fanout.Push(c, 0, Takers(bs)) == Cursors(pipes.items, matching, active, eligible, more)
      ensures pipes.Boxes() == Delivered(bs, Copied(old(msg.u), c.matching), Matching(c))
      ensures msg.u == Vsm([], false)
      ensures var o := old(msg.u).content;
              && o.Ok() && o.live == old(o.live) - 1 + matching
              && o.shared == Copied(old(msg.u), c.matching).shared
    {
      hide Fanout.Push, Ordered, Matching, PipeArray.Valid, PipeArray.Boxes, Delivered, Takers;
      msg.AddRefs(matching - 1);
      PushCopies(msg, c, bs);
    }

    /** The references for the copies are there; those for the copies that were refused are taken back. */
    method PushCopies(msg: Msg, ghost c: Cursors<Pipe>, ghost bs: map<Pipe, Box>)
      requires pipes.Valid() && c == Cursors(pipes.items, matching, active, eligible, more) && Ordered(c)
      requires bs == pipes.Boxes() && Holds(msg.u) && msg.u.Long? && msg.u.content.live >= matching
      modifies this`matching, this`active, this`eligible, pipes`items, pipes.owned`index, pipes.owned`box
      modifies msg, Contents(msg.u)
      ensures pipes.Valid() && Fanout.Push(c, 0, Takers(bs)) == Cursors(pipes.items, matching, active, eligible, more)
      ensures pipes.Boxes() == Delivered(bs, old(msg.u), Matching(c))
      ensures msg.u == Vsm([], false)
      ensures var o := old(msg.u).content;
              o.Ok() && o.live == old(o.live) - c.matching + matching && o.shared == old(o.shared)
    {
      hide Fanout.Push, Matching, PipeArray.Valid, PipeArray.Boxes, Delivered, Takers, Content.Ok;
      var failed, d := Push(msg.u, c, bs);
      Detach(msg, failed);
    }

    /** A part of a message goes to the matching pipes; after the last part all eligible pipes are active. */
    method SendToMatching(msg: Msg) returns (rc: int)
      requires Valid() && Holds(msg.u) && (msg.u.Vsm? || msg.u.Long?)
      modifies this`matching, this`active, this`eligible, this`more
      modifies pipes`items, pipes.owned`index, pipes.owned`box, msg, Contents(msg.u)
      ensures rc == 0 && Valid()
      ensures View() == Sent(old(View()), Takers(old(pipes.Boxes())), HasMore(old(msg.u)))
      ensures pipes.Boxes() ==
              Delivered(old(pipes.Boxes()), Copied(old(msg.u), old(matching)), Matching(old(View())))
      ensures forall q :: q in pipes.owned ==>
                if q in old(Matching(View())) then Tried(old(q.box), q.box, Copied(old(msg.u), old(matching)))
                else q.box == old(q.box)
      ensures msg.u == Vsm([], false)
      ensures old(msg.u).Long? ==>
                var c := old(msg.u).content;
                && c.Ok() && c.live == old(c.live) - 1 + matching
                && (matching > 0 ==> Holds(Copied(old(msg.u), old(matching))))
    {
      hide Fanout.Push, PipeArray.Valid, PipeArray.Boxes, Delivered, Takers, Tried, Copied, Matching;
      var msgMore := HasMore(msg.u);
      pipes.BoxAt();
      DeliveredMeans(pipes.Boxes(), Copied(msg.u, matching), Matching(View()));
      Distribute(msg);
      pipes.BoxAt();
      if !msgMore {
        active := eligible;
      }
      more := msgMore;
      return 0;
    }

    /** A part of a message goes to all active pipes. */
    method SendToAll(msg: Msg) returns (rc: int)
      requires Valid() && Holds(msg.u) && (msg.u.Vsm? || msg.u.Long?)
      modifies this`matching, this`active, this`eligible, this`more
      modifies pipes`items, pipes.owned`index, pipes.owned`box, msg, Contents(msg.u)
      ensures rc == 0 && Valid()
      ensures View() == SentToAll(old(View()), Takers(old(pipes.Boxes())), HasMore(old(msg.u)))
      ensures pipes.Boxes() ==
              Delivered(old(pipes.Boxes()), Copied(old(msg.u), old(active)), Active(old(View())))
      ensures forall q :: q in pipes.owned ==>
                if q in old(Active(View())) then Tried(old(q.box), q.box, Copied(old(msg.u), old(active)))
                else q.box == old(q.box)
      ensures msg.u == Vsm([], false)
      ensures old(msg.u).Long? ==>
                var c := old(msg.u).content;
                && c.Ok() && c.live == old(c.live) - 1 + matching
                && (matching > 0 ==> Holds(Copied(old(msg.u), old(active))))
    {
      hide Sent, Top, PipeArray.Valid, PipeArray.Boxes, Delivered, Takers, Tried, Copied;
      matching := active;
      rc := SendToMatching(msg);
    }
  }
}
