/** How fair the turn-taking of `RoundRobin` is: in every sweep of `current` over the active pipes each has its
    turn, and no pipe waits for long. */
module Fairness {
  import opened Arrays
  import opened RoundRobin

  /** A message is taken, with the pipes that are ready then; somebody looks whether one is ready; the pipe at `i`
      becomes active; a new pipe is attached; the pipe at `i` terminates, between two messages. */
  datatype Event<!P> = Turn(ready: set<P>) | Look(ready: set<P>) | Wake(i: nat) | Join(p: P) | Leave(i: nat)

  ghost function Next<P>(r: Ring<P>, e: Event<P>): (n: Ring<P>)
    requires Ok(r)
    ensures Ok(n)
  {
    match e
    case Turn(ready) =>
      FindMeans(r, ready);
      var f := Find(r, ready);
      if f.active == 0 then f else Advance(f)
    case Look(ready) => FindMeans(r, ready); Find(r, ready)
    case Wake(i) => if r.active <= i < |r.pipes| then ActivateMeans(r, i); Activate(r, i) else r
    case Join(p) => if p !in r.pipes then AttachMeans(r, p); Attach(r, p) else r
    case Leave(i) => if i < |r.pipes| then TerminatedMeans(r, i); Terminated(r, i) else r
  }

  // ----- sweeps

  /** One round of `current`: the pipes active when it began, those that had a turn, those that were not ready when
      theirs came, and those that terminated. */
  datatype Sweep<!P> = Sweep(start: set<P>, served: seq<P>, missed: set<P>, left: set<P>)

  /** `past` are the sweeps completed, `used` the pipes that were ever attached. */
  datatype History<!P> = History(ring: Ring<P>, sweep: Sweep<P>, past: seq<Sweep<P>>, used: set<P>)

  /** A sweep ends when `current` has been at the last active pipe. */
  ghost function Close<P>(h: History<P>, last: bool): History<P>
    requires h.ring.active <= |h.ring.pipes|
  {
    if last then h.(sweep := Sweep(Active(h.ring), [], {}, {}), past := h.past + [h.sweep]) else h
  }

  ghost function Serve<P>(h: History<P>): (n: History<P>)
    requires Ok(h.ring) && h.ring.active > 0
    ensures Ok(n.ring)
  {
    var r := h.ring;
    Close(h.(ring := Advance(r), sweep := h.sweep.(served := h.sweep.served + [r.pipes[r.current]])),
          r.current + 1 == r.active)
  }

  ghost function Miss<P>(h: History<P>): (n: History<P>)
    requires Ok(h.ring) && h.ring.active > 0
    ensures Ok(n.ring)
  {
    var r := h.ring;
    SkipMeans(r);
    Close(h.(ring := Skip(r), sweep := h.sweep.(missed := h.sweep.missed + {r.pipes[r.current]})),
          r.current + 1 == r.active)
  }

  /** Pipes are missed until one is ready, which is served if a message is taken. */
  ghost function Search<P>(h: History<P>, ready: set<P>, take: bool): (n: History<P>)
    requires Ok(h.ring)
    ensures Ok(n.ring)
    decreases h.ring.active
  {
    if h.ring.active == 0 then h
    else if h.ring.pipes[h.ring.current] in ready then if take then Serve(h) else h
    else Search(Miss(h), ready, take)
  }

  ghost function Lose<P>(h: History<P>, i: nat): (n: History<P>)
    requires Ok(h.ring) && i < |h.ring.pipes|
    ensures Ok(n.ring)
  {
    var r := h.ring;
    TerminatedMeans(r, i);
    Close(h.(ring := Terminated(r, i), sweep := h.sweep.(left := h.sweep.left + {r.pipes[i]})),
          i < r.active && r.current + 1 == r.active)
  }

  ghost function After<P>(h: History<P>, e: Event<P>): (n: History<P>)
    requires Ok(h.ring)
    ensures Ok(n.ring)
  {
    match e
    case Turn(ready) => Search(h, ready, true)
    case Look(ready) => Search(h, ready, false)
    case Wake(i) =>
      if h.ring.active <= i < |h.ring.pipes| then ActivateMeans(h.ring, i); h.(ring := Activate(h.ring, i)) else h
    case Join(p) =>
      if p !in h.used && p !in h.ring.pipes then
        AttachMeans(h.ring, p); h.(ring := Attach(h.ring, p), used := h.used + {p})
      else h
    case Leave(i) => if i < |h.ring.pipes| then Lose(h, i) else h
  }

  /** Nobody had two turns, and those that had none were not ready or left. */
  ghost predicate Fair<P>(w: Sweep<P>) {
    Distinct(w.served) && forall p :: p in w.start ==> p in w.served || p in w.missed || p in w.left
  }

  /** The pipes whose turn is to come. */
  ghost function Rest<P>(r: Ring<P>): set<P>
    requires Ok(r)
  {
    Active(r) - Top(r.pipes, r.current)
  }

  /** The pipes that had a turn are not among those from `current` on, and those that left do not come back. */
  ghost predicate Sane<P>(h: History<P>) {
    && Ok(h.ring) && Distinct(h.sweep.served)
    && (forall p :: p in h.ring.pipes ==> p in h.used && p !in h.sweep.left)
    && (forall p :: p in h.sweep.served ==> p in h.used)
    && (forall p :: p in h.sweep.left ==> p in h.used)
    && (forall p :: p in h.sweep.served && p in h.ring.pipes ==> p in Top(h.ring.pipes, h.ring.current))
  }

  /** Every pipe of the sweep that did not have its turn is still to have it. */
  ghost predicate Owed<P>(h: History<P>)
    requires Ok(h.ring)
  {
    forall p :: p in h.sweep.start ==>
      p in Rest(h.ring) || p in h.sweep.served || p in h.sweep.missed || p in h.sweep.left
  }

  ghost predicate Inv<P>(h: History<P>) {
    Sane(h) && Owed(h) && forall w :: w in h.past ==> Fair(w)
  }

  lemma RestStep<P>(r: Ring<P>)
    requires Ok(r) && r.active > 0
    ensures r.pipes[r.current] in Rest(r) && r.pipes[r.current] !in Top(r.pipes, r.current)
    ensures r.current + 1 == r.active ==> Rest(r) == {r.pipes[r.current]}
    ensures r.current + 1 < r.active ==>
              Ok(r.(current := r.current + 1)) && Rest(r.(current := r.current + 1)) == Rest(r) - {r.pipes[r.current]}
    ensures Top(r.pipes, r.current + 1) == Top(r.pipes, r.current) + {r.pipes[r.current]}
  {
    InTop(r.pipes, r.active, r.current);
    InTop(r.pipes, r.current, r.current);
    TopStep(r.pipes, r.current);
  }

  lemma AdvanceRest<P>(r: Ring<P>)
    requires Ok(r) && r.active > 0
    ensures Ok(Advance(r)) && Advance(r).pipes == r.pipes
    ensures r.current + 1 < r.active ==>
              && Rest(Advance(r)) == Rest(r) - {r.pipes[r.current]}
              && Top(r.pipes, Advance(r).current) == Top(r.pipes, r.current) + {r.pipes[r.current]}
    ensures r.current + 1 == r.active ==> Rest(Advance(r)) == Active(Advance(r))
  {
    RestStep(r);
    Around(r.current, r.active);
    hide Top, Active, Distinct;
    assert Top(r.pipes, 0) == {} by { assert r.pipes[..0] == []; }
  }

  lemma Around(k: nat, n: nat)
    requires k < n
    ensures (k + 1) % n == if k + 1 < n then k + 1 else 0
  {
  }

  lemma ServeInv<P>(h: History<P>)
    requires Inv(h) && h.ring.active > 0
    ensures Inv(Serve(h))
  {
    RestStep(h.ring);
    AdvanceRest(h.ring);
    hide Advance, Top, Active, Rest, Ok;
  }

  lemma SkipRest<P>(r: Ring<P>)
    requires Ok(r) && r.active > 0
    ensures Ok(Skip(r)) && forall p :: p in Skip(r).pipes <==> p in r.pipes
    ensures r.current + 1 < r.active ==>
              && Rest(Skip(r)) == Rest(r) - {r.pipes[r.current]}
              && Top(Skip(r).pipes, Skip(r).current) == Top(r.pipes, r.current)
    ensures r.current + 1 == r.active ==> Rest(Skip(r)) == Active(Skip(r)) == Top(r.pipes, r.current)
  {
    SkipMeans(r);
    SameItems(Skip(r).pipes, r.pipes);
    RestStep(r);
  }

  lemma MissInv<P>(h: History<P>)
    requires Inv(h) && h.ring.active > 0
    ensures Inv(Miss(h)) && Miss(h).ring == Skip(h.ring)
  {
    RestStep(h.ring);
    SkipRest(h.ring);
    hide Skip, Top, Active, Rest, Ok;
  }

  lemma {:induction false} SearchInv<P>(h: History<P>, ready: set<P>, take: bool)
    requires Inv(h)
    ensures Inv(Search(h, ready, take))
    decreases h.ring.active
  {
    if h.ring.active > 0 {
      if h.ring.pipes[h.ring.current] !in ready {
        MissInv(h);
        hide Serve, Miss;
        SearchInv(Miss(h), ready, take);
      } else if take {
        ServeInv(h);
      }
    }
  }

  lemma GrowInv<P>(h: History<P>, r: Ring<P>, joined: set<P>)
    requires Inv(h) && Ok(r) && r.current == h.ring.current && Active(h.ring) <= Active(r)
    requires r.pipes[..r.current] == h.ring.pipes[..r.current]
    requires All(r.pipes) == All(h.ring.pipes) + joined && joined !! h.used
    ensures Inv(h.(ring := r, used := h.used + joined))
  {
    forall p ensures p in r.pipes <==> p in h.ring.pipes || p in joined {
      assert p in All(r.pipes) <==> p in All(h.ring.pipes) + joined;
    }
    assert Rest(h.ring) <= Rest(r);
    hide Ok, Active, Rest, All;
  }

  // ----- termination

  /** The turn was at the last active pipe. */
  lemma LastTurnEnds<P>(r: Ring<P>, i: nat)
    requires Ok(r) && i < r.active && r.current + 1 == r.active
    ensures var t := Terminated(r, i);
            Ok(t) && Rest(r) == {r.pipes[r.current]} && Rest(t) == Active(t) && Top(t.pipes, t.current) == {}
  {
    TerminatedMeans(r, i);
    RestStep(r);
    var t := Terminated(r, i);
    assert t.pipes[..0] == [];
  }

  /** The pipe has its turn now or later. */
  lemma LaterLeaves<P>(r: Ring<P>, i: nat)
    requires Ok(r) && i < |r.pipes| && (i >= r.active || (r.current + 1 < r.active && r.current <= i))
    ensures var t := Terminated(r, i);
            Ok(t) && Rest(t) == Rest(r) - {r.pipes[i]} && Top(t.pipes, t.current) == Top(r.pipes, r.current)
  {
    TerminatedMeans(r, i);
    TerminatedItems(r, i);
    InTop(r.pipes, r.current, i);
    if i >= r.active {
      InTop(r.pipes, r.active, i);
      assert Terminated(r, i).pipes[..r.current] == Terminated(r, i).pipes[..r.active][..r.current];
    }
    hide Top, Distinct, All;
  }

  /** The pipe had its turn, and the last active pipe takes its place. */
  lemma EarlierLeaves<P>(r: Ring<P>, i: nat)
    requires Ok(r) && i < r.current && r.current + 1 < r.active
    ensures var t, last := Terminated(r, i), r.pipes[r.active - 1];
            && Ok(t) && last in Rest(r) && last != r.pipes[i] && Rest(t) == Rest(r) - {last}
            && Top(t.pipes, t.current) == Top(r.pipes, r.current) - {r.pipes[i]} + {last}
  {
    TerminatedMeans(r, i);
    TerminatedItems(r, i);
    InTop(r.pipes, r.active, i);
    InTop(r.pipes, r.current, i);
    InTop(r.pipes, r.active, r.active - 1);
    InTop(r.pipes, r.current, r.active - 1);
    TopUpdate(r.pipes[..r.current], i, r.pipes[r.active - 1]);
    assert All(r.pipes[..r.current]) == Top(r.pipes, r.current);
    var t := Terminated(r, i);
    assert Top(t.pipes, t.current) == All(t.pipes[..t.current]);
    hide Terminated, Top, Distinct, All;
  }

  lemma TerminatedRest<P>(r: Ring<P>, i: nat)
    requires Ok(r) && i < |r.pipes|
    ensures var t := Terminated(r, i);
            && Ok(t)
            && (r.current + 1 == r.active && i < r.active ==>
                  && Rest(r) == {r.pipes[r.current]} && Rest(t) == Active(t)
                  && Top(t.pipes, t.current) == {})
            && (i >= r.active || (r.current + 1 < r.active && r.current <= i) ==>
                  Rest(t) == Rest(r) - {r.pipes[i]} && Top(t.pipes, t.current) == Top(r.pipes, r.current))
            && (i < r.current && r.current + 1 < r.active ==>
                  var last := r.pipes[r.active - 1];
                  && last in Rest(r) && last != r.pipes[i] && Rest(t) == Rest(r) - {last}
                  && Top(t.pipes, t.current) == Top(r.pipes, r.current) - {r.pipes[i]} + {last})
  {
    hide Terminated, Top, Distinct, Active, Rest;
    if i >= r.active || (r.current + 1 < r.active && r.current <= i) {
      LaterLeaves(r, i);
    } else if r.current + 1 == r.active {
      LastTurnEnds(r, i);
    } else {
      EarlierLeaves(r, i);
    }
  }

  lemma TerminatedPipes<P>(r: Ring<P>, i: nat)
    requires Ok(r) && i < |r.pipes|
    ensures forall p :: p in Terminated(r, i).pipes <==> p in r.pipes && p != r.pipes[i]
  {
    TerminatedMeans(r, i);
    RemainingItems(Terminated(r, i).pipes, r.pipes, i);
  }

  /** The last active pipe takes the place of one that terminates. */
  lemma TerminatedItems<P>(r: Ring<P>, i: nat)
    requires Ok(r) && i < |r.pipes|
    ensures var t := Terminated(r, i);
            && Ok(t) && (i >= r.active ==> t.pipes[..r.active] == r.pipes[..r.active])
            && (i < r.active && r.current + 1 < r.active && r.current <= i ==>
                  t.current == r.current && t.pipes[..t.current] == r.pipes[..r.current])
            && (i < r.current && r.current + 1 < r.active ==>
                  t.current == r.current && t.pipes[..t.current] == r.pipes[..r.current][i := r.pipes[r.active - 1]])
  {
    TerminatedMeans(r, i);
  }

  lemma TopUpdate<P>(s: seq<P>, i: nat, q: P)
    requires Distinct(s) && i < |s|
    ensures All(s[i := q]) == All(s) - {s[i]} + {q}
  {
    var t := s[i := q];
    forall p ensures p in t <==> p in All(s) - {s[i]} + {q} {
      if p in t { var k :| 0 <= k < |t| && t[k] == p; }
      if p in All(s) - {s[i]} {
        var k :| 0 <= k < |s| && s[k] == p;
        assert t[k] == p;
      }
      if p == q { assert t[i] == p; }
    }
  }

  /** A pipe may terminate when its turn is still to come, or when the pipe that takes its place is not owed one. */
  ghost predicate MayLeave<P>(h: History<P>, i: nat)
    requires Ok(h.ring)
  {
    var r := h.ring;
    i < r.current ==> var last := r.pipes[r.active - 1]; last !in h.sweep.start || last in h.sweep.missed
  }

  lemma LoseSane<P>(h: History<P>, i: nat)
    requires Sane(h) && i < |h.ring.pipes|
    ensures Sane(Lose(h, i))
  {
    TerminatedRest(h.ring, i);
    TerminatedPipes(h.ring, i);
    hide Terminated, Top, Active, Rest, Ok;
  }

  /** What is left of the sweep when the turn was at the last active pipe, and otherwise. */
  lemma LoseOwed<P>(h: History<P>, i: nat)
    requires Inv(h) && i < |h.ring.pipes|
    ensures var r := h.ring;
            var w := h.sweep.(left := h.sweep.left + {r.pipes[i]});
            if i < r.active && r.current + 1 == r.active then
              Lose(h, i).past == h.past + [w] && Owed(Lose(h, i)) && (Fair(w) <==> MayLeave(h, i))
            else
              Lose(h, i).past == h.past && (Owed(Lose(h, i)) <==> MayLeave(h, i))
  {
    var r := h.ring;
    TerminatedRest(r, i);
    if i < r.current {
      RestStep(r);
      InTop(r.pipes, r.active, r.active - 1);
      InTop(r.pipes, r.current, r.active - 1);
      assert r.pipes[r.active - 1] in r.pipes;
    }
    hide Terminated, Top, Active, Rest, Distinct, Ok;
  }

  /** The termination of a pipe keeps the sweep fair exactly then. */
  lemma LeaveKeepsIff<P>(h: History<P>, i: nat)
    requires Inv(h) && i < |h.ring.pipes|
    ensures Inv(After(h, Leave(i))) <==> MayLeave(h, i)
  {
    LoseSane(h, i);
    LoseOwed(h, i);
    var n, w := Lose(h, i), h.sweep.(left := h.sweep.left + {h.ring.pipes[i]});
    hide Lose, MayLeave, Sane, Owed, Fair;
    if n.past == h.past + [w] {
      assert n.past[|h.past|] == w;
    }
  }

  /** Four pipes that are always ready, and a sweep over them that begins. */
  ghost function Four<P>(a: P, b: P, c: P, d: P): (h: History<P>)
    requires a != b && a != c && a != d && b != c && b != d && c != d
    ensures Ok(h.ring)
  {
    History(Ring([a, b, c, d], 4, 0), Sweep({a, b, c, d}, [], {}, {}), [], {a, b, c, d})
  }

  lemma FourInv<P>(a: P, b: P, c: P, d: P)
    requires a != b && a != c && a != d && b != c && b != d && c != d
    ensures Inv(Four(a, b, c, d))
  {
    var s := [a, b, c, d];
    assert s[..0] == [] && s[..4] == s;
    assert Rest(Four(a, b, c, d).ring) == {a, b, c, d};
    hide Rest, Top, Ok;
  }

  /** For instance: the first had its turn and terminates; the sweep is over when two more had theirs, and the fourth
      had none. */
  lemma LeaveIsUnfair<P>(a: P, b: P, c: P, d: P)
    requires a != b && a != c && a != d && b != c && b != d && c != d
    ensures var all, h := {a, b, c, d}, Four(a, b, c, d);
            && Inv(h)
            && After(After(After(After(h, Turn(all)), Leave(0)), Turn(all)), Turn(all)).past ==
               [Sweep(all, [a, b, c], {}, {a})]
  {
    FourInv(a, b, c, d);
    hide Inv;
    var all, h := {a, b, c, d}, Four(a, b, c, d);
    var h1 := After(h, Turn(all));
    assert h1 == h.(ring := Ring([a, b, c, d], 4, 1), sweep := Sweep(all, [a], {}, {}));
    var h2 := After(h1, Leave(0));
    assert h2 == h.(ring := Ring([d, b, c], 3, 1), sweep := Sweep(all, [a], {}, {a}));
    var h3 := After(h2, Turn(all));
    assert h3 == h.(ring := Ring([d, b, c], 3, 2), sweep := Sweep(all, [a, b], {}, {a}));
    assert After(h3, Turn(all)) == Serve(h3);
    assert [a, b] + [c] == [a, b, c];
  }

  // ----- runs

  ghost function Begin<P>(): (h: History<P>)
    ensures Ok(h.ring)
  {
    History(Ring([], 0, 0), Sweep({}, [], {}, {}), [], {})
  }

  ghost function Apply<P>(h: History<P>, es: seq<Event<P>>): History<P>
    requires Ok(h.ring)
    decreases |es|
  {
    if es == [] then h else Apply(After(h, es[0]), es[1..])
  }

  /** Pipes terminate only when they may. */
  ghost predicate Guarded<P>(h: History<P>, es: seq<Event<P>>)
    requires Ok(h.ring)
    decreases |es|
  {
    es != [] ==>
      && (es[0].Leave? && es[0].i < |h.ring.pipes| ==> MayLeave(h, es[0].i))
      && Guarded(After(h, es[0]), es[1..])
  }

  lemma GrowsInv<P>(h: History<P>, e: Event<P>)
    requires Inv(h) && (e.Wake? || e.Join?)
    ensures Inv(After(h, e))
  {
    var r := h.ring;
    if e.Wake? && r.active <= e.i < |r.pipes| {
      ActivateMeans(r, e.i);
      var a := Activate(r, e.i);
      assert a.pipes[..r.current] == a.pipes[..r.active][..r.current] == r.pipes[..r.current];
      GrowInv(h, a, {});
      assert h.used + {} == h.used;
    } else if e.Join? && e.p !in h.used && e.p !in r.pipes {
      AttachMeans(r, e.p);
      var a := Attach(r, e.p);
      assert a.pipes[..r.current] == a.pipes[..r.active][..r.current] == r.pipes[..r.current];
      GrowInv(h, a, {e.p});
    }
  }

  lemma AfterInv<P>(h: History<P>, e: Event<P>)
    requires Inv(h) && (e.Leave? && e.i < |h.ring.pipes| ==> MayLeave(h, e.i))
    ensures Inv(After(h, e))
  {
    hide Inv, Search, Lose;
    match e
    case Turn(ready) => SearchInv(h, ready, true);
    case Look(ready) => SearchInv(h, ready, false);
    case Leave(i) => if i < |h.ring.pipes| { LeaveKeepsIff(h, i); }
    case _ => GrowsInv(h, e);
  }

  lemma {:induction false} ApplyInv<P>(h: History<P>, es: seq<Event<P>>)
    requires Inv(h) && Guarded(h, es)
    ensures Inv(Apply(h, es))
    decreases |es|
  {
    if es != [] {
      AfterInv(h, es[0]);
      ApplyInv(After(h, es[0]), es[1..]);
    }
  }

  ghost predicate NeverMissed<P>(h: History<P>, p: P) {
    p !in h.sweep.missed && forall w :: w in h.past ==> p !in w.missed
  }

  ghost predicate ReadyFor<P>(e: Event<P>, p: P) {
    (e.Turn? ==> p in e.ready) && (e.Look? ==> p in e.ready)
  }

  lemma {:induction false} SearchMisses<P>(h: History<P>, ready: set<P>, take: bool, p: P)
    requires Ok(h.ring) && NeverMissed(h, p) && p in ready
    ensures NeverMissed(Search(h, ready, take), p)
    decreases h.ring.active
  {
    if h.ring.active > 0 && h.ring.pipes[h.ring.current] !in ready {
      SearchMisses(Miss(h), ready, take, p);
    }
  }

  lemma {:induction false} ApplyMisses<P>(h: History<P>, es: seq<Event<P>>, p: P)
    requires Ok(h.ring) && NeverMissed(h, p) && forall e :: e in es ==> ReadyFor(e, p)
    ensures NeverMissed(Apply(h, es), p)
    decreases |es|
  {
    if es != [] {
      var e := es[0];
      assert e in es;
      if e.Turn? || e.Look? { SearchMisses(h, e.ready, e.Turn?, p); }
      ApplyMisses(After(h, e), es[1..], p);
    }
  }

  /** In every run, whatever pipes are ready at whatever time, and whenever pipes join, wake up, or terminate when they
      may: every completed sweep served no pipe twice, and served every pipe that was active when it began, unless its
      turn came while it was not ready, or it terminated. */
  lemma EverySweepIsFair<P>(es: seq<Event<P>>, w: Sweep<P>)
    requires Guarded(Begin(), es) && w in Apply(Begin(), es).past
    ensures Distinct(w.served)
    ensures forall p :: p in w.start ==> p in w.served || p in w.missed || p in w.left
    ensures forall p :: p in w.start && (forall e :: e in es ==> ReadyFor(e, p)) ==> p in w.served || p in w.left
  {
    ApplyInv(Begin(), es);
    forall p | p in w.start && (forall e :: e in es ==> ReadyFor(e, p)) ensures p in w.served || p in w.left {
      ApplyMisses(Begin(), es, p);
    }
  }

  /** What happens to the ring. */
  lemma {:induction false} SearchIsFind<P>(h: History<P>, ready: set<P>, take: bool)
    requires Ok(h.ring)
    ensures var f := Find(h.ring, ready);
            Ok(f) && Search(h, ready, take).ring == if f.active == 0 || !take then f else Advance(f)
    decreases h.ring.active
  {
    FindStep(h.ring, ready);
    if h.ring.active > 0 && h.ring.pipes[h.ring.current] !in ready {
      SearchIsFind(Miss(h), ready, take);
    }
  }

  lemma AfterIsNext<P>(h: History<P>, e: Event<P>)
    requires Sane(h) && (e.Join? ==> e.p in h.used ==> e.p in h.ring.pipes)
    ensures After(h, e).ring == Next(h.ring, e)
  {
    if e.Turn? || e.Look? { SearchIsFind(h, e.ready, e.Turn?); }
  }

  // ----- nobody waits for long

  /** How many turns others have before the pipe at `k`. */
  function Before<P>(r: Ring<P>, k: nat): nat
    requires r.current <= r.active
  {
    if k >= r.current then k - r.current else r.active - r.current + k
  }

  /** By how much an event may delay a pipe: a new one goes before it, or one that terminates sends it from the last
      place to a place that had its turn. */
  function Delay<P>(r: Ring<P>, e: Event<P>): nat {
    match e
    case Wake(_) => 1
    case Join(_) => 1
    case Leave(i) => if i < r.current then i else 0
    case _ => 0
  }

  ghost predicate Serves<P>(r: Ring<P>, e: Event<P>, p: P)
    requires Ok(r)
  {
    e.Turn? && var f := Find(r, e.ready); 0 < f.active <= |f.pipes| && f.current < f.active && f.pipes[f.current] == p
  }

  lemma SkipWaits<P>(r: Ring<P>, k: nat) returns (j: nat)
    requires Ok(r) && k < r.active && k != r.current
    ensures Ok(Skip(r)) && j < Skip(r).active && Skip(r).pipes[j] == r.pipes[k] && Before(Skip(r), j) <= Before(r, k)
  {
    SkipMeans(r);
    j := if k == r.active - 1 then r.current else k;
  }

  lemma {:induction false} FindWaits<P>(r: Ring<P>, ready: set<P>, k: nat) returns (j: nat)
    requires Ok(r) && k < r.active && r.pipes[k] in ready
    ensures var f := Find(r, ready);
            Ok(f) && j < f.active && f.pipes[j] == r.pipes[k] && Before(f, j) <= Before(r, k)
    decreases r.active
  {
    FindStep(r, ready);
    if r.pipes[r.current] in ready {
      return k;
    }
    j := SkipWaits(r, k);
    hide Skip;
    j := FindWaits(Skip(r), ready, j);
  }

  lemma AdvanceWaits<P>(r: Ring<P>, k: nat)
    requires Ok(r) && k < r.active && k != r.current
    ensures Ok(Advance(r)) && Before(Advance(r), k) < Before(r, k)
  {
    Around(r.current, r.active);
  }

  lemma LeaveWaits<P>(r: Ring<P>, i: nat, k: nat) returns (j: nat)
    requires Ok(r) && k < r.active && i < |r.pipes| && i != k
    ensures var t := Terminated(r, i);
            && Ok(t) && j < t.active && t.pipes[j] == r.pipes[k]
            && Before(t, j) <= Before(r, k) + if i < r.current then i else 0
  {
    TerminatedMeans(r, i);
    j := if i < r.active && k == r.active - 1 then i else k;
  }

  lemma NextWaits<P>(r: Ring<P>, e: Event<P>, k: nat) returns (j: nat)
    requires Ok(r) && k < r.active && ReadyFor(e, r.pipes[k]) && !Serves(r, e, r.pipes[k])
    requires e.Leave? ==> e.i != k
    ensures var n := Next(r, e);
            && j < n.active && n.pipes[j] == r.pipes[k]
            && Before(n, j) + (if e.Turn? then 1 else 0) <= Before(r, k) + Delay(r, e)
  {
    j := k;
    match e
    case Turn(ready) =>
      j := FindWaits(r, ready, k);
      AdvanceWaits(Find(r, ready), j);
    case Look(ready) => j := FindWaits(r, ready, k);
    case Wake(i) =>
      if r.active <= i < |r.pipes| {
        ActivateMeans(r, i);
        assert Activate(r, i).pipes[..r.active][k] == r.pipes[k];
      }
    case Join(p) =>
      if p !in r.pipes {
        AttachMeans(r, p);
        assert Attach(r, p).pipes[..r.active][k] == r.pipes[k];
      }
    case Leave(i) =>
      if i < |r.pipes| {
        j := LeaveWaits(r, i, k);
      }
  }

  /** The pipe is always ready, and does not terminate. */
  ghost predicate Wants<P>(r: Ring<P>, es: seq<Event<P>>, p: P)
    requires Ok(r)
    decreases |es|
  {
    es != [] ==>
      && ReadyFor(es[0], p) && (es[0].Leave? && es[0].i < |r.pipes| ==> r.pipes[es[0].i] != p)
      && Wants(Next(r, es[0]), es[1..], p)
  }

  ghost predicate Served<P>(r: Ring<P>, es: seq<Event<P>>, p: P)
    requires Ok(r)
    decreases |es|
  {
    es != [] && (Serves(r, es[0], p) || Served(Next(r, es[0]), es[1..], p))
  }

  ghost function Delays<P>(r: Ring<P>, es: seq<Event<P>>): nat
    requires Ok(r)
    decreases |es|
  {
    if es == [] then 0 else Delay(r, es[0]) + Delays(Next(r, es[0]), es[1..])
  }

  function Turns<P>(es: seq<Event<P>>): nat {
    if es == [] then 0 else (if es[0].Turn? then 1 else 0) + Turns(es[1..])
  }

  /** Whatever happens: an active pipe that is always ready is served before there were more turns than others are
      before it and than it is delayed. */
  lemma {:induction false} ServedWithin<P>(r: Ring<P>, es: seq<Event<P>>, k: nat)
    requires Ok(r) && k < r.active && Wants(r, es, r.pipes[k])
    requires Turns(es) > Before(r, k) + Delays(r, es)
    ensures Served(r, es, r.pipes[k])
    decreases |es|
  {
    var p, e := r.pipes[k], es[0];
    if !Serves(r, e, p) {
      assert e.Leave? ==> e.i != k;
      var j := NextWaits(r, e, k);
      ServedWithin(Next(r, e), es[1..], j);
    }
  }

  /** So if nothing else happens, it waits for no more turns than there are other active pipes. */
  lemma ServedInOneRound<P>(r: Ring<P>, es: seq<Event<P>>, k: nat)
    requires Ok(r) && k < r.active && Turns(es) >= r.active
    requires forall e :: e in es ==> e.Turn? && r.pipes[k] in e.ready
    ensures Served(r, es, r.pipes[k])
  {
    OnlyTurns(r, es, r.pipes[k]);
    ServedWithin(r, es, k);
  }

  lemma {:induction false} OnlyTurns<P>(r: Ring<P>, es: seq<Event<P>>, p: P)
    requires Ok(r) && forall e :: e in es ==> e.Turn? && p in e.ready
    ensures Wants(r, es, p) && Delays(r, es) == 0
    decreases |es|
  {
    if es != [] {
      assert es[0] in es;
      OnlyTurns(Next(r, es[0]), es[1..], p);
    }
  }
}
