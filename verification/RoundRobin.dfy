/** The turn-taking that `fq_t` and `lb_t` share: the active pipes come first in the array, and `current` goes
    round them. A pipe that has nothing to do when its turn comes is put behind the active ones. */
module RoundRobin {
  import opened Arrays

  datatype Ring<P> = Ring(pipes: seq<P>, active: nat, current: nat)

  ghost predicate Ok<P>(r: Ring<P>) {
    && Distinct(r.pipes) && r.active <= |r.pipes|
    && (r.current < r.active || (r.current == 0 && r.active == 0))
  }

  /** Deactivate the current pipe; the last active one takes its place. */
  function Skip<P>(r: Ring<P>): Ring<P>
    requires 0 < r.active <= |r.pipes| && r.current < r.active
  {
    var a := r.active - 1;
    Ring(Swapped(r.pipes, r.current, a), a, if r.current == a then 0 else r.current)
  }

  /** The current pipe had its turn. */
  function Advance<P>(r: Ring<P>): Ring<P>
    requires r.active > 0
  {
    r.(current := (r.current + 1) % r.active)
  }

  function Activate<P>(r: Ring<P>, i: nat): Ring<P>
    requires r.active <= i < |r.pipes|
  {
    Ring(Swapped(r.pipes, i, r.active), r.active + 1, r.current)
  }

  function Attach<P>(r: Ring<P>, p: P): Ring<P>
    requires r.active <= |r.pipes|
  {
    Activate(r.(pipes := r.pipes + [p]), |r.pipes|)
  }

  /** Skip pipes until one is ready or none is active. */
  function Find<P(==)>(r: Ring<P>, ready: set<P>): Ring<P>
    requires r.active <= |r.pipes| && (r.current < r.active || (r.current == 0 && r.active == 0))
    decreases r.active
  {
    if r.active == 0 || r.pipes[r.current] in ready then r else Find(Skip(r), ready)
  }

  function Terminated<P>(r: Ring<P>, i: nat): Ring<P>
    requires r.active <= |r.pipes| && i < |r.pipes|
  {
    if i < r.active then
      var a := r.active - 1;
      Ring(Erased(Swapped(r.pipes, i, a), a), a, if r.current == a then 0 else r.current)
    else r.(pipes := Erased(r.pipes, i))
  }

  ghost function Active<P>(r: Ring<P>): set<P>
    requires r.active <= |r.pipes|
  {
    Top(r.pipes, r.active)
  }

  /** Skipping deactivates just the current pipe and keeps the pipes before it in their places. */
  lemma SkipMeans<P>(r: Ring<P>)
    requires Ok(r) && r.active > 0
    ensures Ok(Skip(r)) && All(Skip(r).pipes) == All(r.pipes)
    ensures Active(Skip(r)) == Active(r) - {r.pipes[r.current]}
    ensures Skip(r).pipes[..r.current] == r.pipes[..r.current]
  {
    SwappedAll(r.pipes, r.current, r.active - 1);
    SwapOut(r.pipes, r.active, r.current);
  }

  lemma FindStep<P>(r: Ring<P>, ready: set<P>)
    requires Ok(r)
    ensures r.active > 0 && r.pipes[r.current] !in ready ==> Ok(Skip(r)) && Find(r, ready) == Find(Skip(r), ready)
    ensures r.active == 0 || r.pipes[r.current] in ready ==> Find(r, ready) == r
  {
    if r.active > 0 { SkipMeans(r); }
  }

  /** The search ends at a ready pipe and deactivates only pipes that are not, or finds that none is. */
  lemma {:induction false} FindMeans<P>(r: Ring<P>, ready: set<P>)
    requires Ok(r)
    ensures var f := Find(r, ready);
            && Ok(f) && All(f.pipes) == All(r.pipes) && Active(f) <= Active(r)
            && Active(r) * ready <= Active(f)
            && (f.active == 0 <==> Active(r) !! ready)
            && (f.active > 0 ==> f.pipes[f.current] in ready && f.pipes[f.current] in Active(r))
    decreases r.active
  {
    if r.active > 0 && r.pipes[r.current] !in ready {
      SkipMeans(r);
      FindMeans(Skip(r), ready);
    } else if r.active > 0 {
      assert r.pipes[r.current] in Active(r);
    }
  }

  /** A pipe that terminates is removed; the others stay active or not as they were. */
  lemma TerminatedMeans<P>(r: Ring<P>, i: nat)
    requires Ok(r) && i < |r.pipes|
    ensures Ok(Terminated(r, i))
    ensures Active(Terminated(r, i)) == Active(r) - {r.pipes[i]}
    ensures All(Terminated(r, i).pipes) == All(r.pipes) - {r.pipes[i]}
  {
    if i < r.active {
      var a := r.active - 1;
      var s := Swapped(r.pipes, i, a);
      SwappedAll(r.pipes, i, a);
      SwapOut(r.pipes, r.active, i);
      ErasedAll(s, a);
      assert Erased(s, a)[..a] == s[..a];
    } else {
      ErasedAll(r.pipes, i);
      assert Erased(r.pipes, i)[..r.active] == r.pipes[..r.active];
      InTop(r.pipes, r.active, i);
    }
    hide Distinct, All, Erased, Swapped;
  }

  lemma ActivateMeans<P>(r: Ring<P>, i: nat)
    requires Ok(r) && r.active <= i < |r.pipes|
    ensures Ok(Activate(r, i)) && All(Activate(r, i).pipes) == All(r.pipes)
    ensures Active(Activate(r, i)) == Active(r) + {r.pipes[i]}
    ensures Activate(r, i).pipes[..r.active] == r.pipes[..r.active]
  {
    SwappedAll(r.pipes, i, r.active);
    SwapIn(r.pipes, r.active, i);
  }

  lemma AttachMeans<P>(r: Ring<P>, p: P)
    requires Ok(r) && p !in r.pipes
    ensures Ok(Attach(r, p)) && All(Attach(r, p).pipes) == All(r.pipes) + {p}
    ensures Active(Attach(r, p)) == Active(r) + {p}
    ensures Attach(r, p).pipes[..r.active] == r.pipes[..r.active]
  {
    var q := r.(pipes := r.pipes + [p]);
    assert q.pipes[..r.active] == r.pipes[..r.active];
    ActivateMeans(q, |r.pipes|);
  }

  /** The current pipe is not the last active one, or takes the first place. */
  ghost predicate CurrentStays<P>(r: Ring<P>, i: nat) {
    i != r.current && (r.current + 1 < r.active || i == 0 || i >= r.active)
  }

  /** While a message is being read from the current pipe or written to it, another pipe may terminate exactly then:
      otherwise the rest of the message is read from a wrong pipe or written to it. */
  lemma CurrentStaysIff<P>(r: Ring<P>, i: nat)
    requires Ok(r) && r.active > 0 && i < |r.pipes|
    ensures var t := Terminated(r, i);
            t.active > 0 && t.current < |t.pipes| && t.pipes[t.current] == r.pipes[r.current] <==> CurrentStays(r, i)
  {
    if i < r.active {
      var a := r.active - 1;
      var s := Swapped(r.pipes, i, a);
      assert Erased(s, a)[..a] == s[..a];
      assert forall k :: 0 <= k < a ==> Terminated(r, i).pipes[k] == s[k];
    } else {
      assert Erased(r.pipes, i)[..r.active] == r.pipes[..r.active];
    }
  }

  /** For instance: the third of three pipes is current when the second terminates; then the first one is. */
  lemma CurrentIsLost<P>(a: P, b: P, c: P)
    ensures Terminated(Ring([a, b, c], 3, 2), 1) == Ring([a, c], 2, 0)
  {
  }
}
