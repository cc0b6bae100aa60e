/** What `dist_t` does to its array and its cursors, whatever the pipes are. The pipes before `matching` get the
    message, those before `active` may be sent to, those before `eligible` will be active from the next message
    on. The object in `Dist` is proved to compute these. */
module Fanout {
  import opened Arrays

  datatype Cursors<P> = Cursors(pipes: seq<P>, matching: nat, active: nat, eligible: nat, more: bool)

  ghost predicate Ordered<P>(c: Cursors<P>) {
    Distinct(c.pipes) && c.matching <= c.active <= c.eligible <= |c.pipes|
  }

  /** Between messages every eligible pipe is active. */
  ghost predicate Ok<P>(c: Cursors<P>) {
    Ordered(c) && (!c.more ==> c.active == c.eligible)
  }

  function Attach<P>(c: Cursors<P>, p: P): Cursors<P>
    requires c.active <= |c.pipes| && c.eligible <= |c.pipes|
  {
    var s := c.pipes + [p];
    if c.more then c.(pipes := Swapped(s, c.eligible, |c.pipes|), eligible := c.eligible + 1)
    else c.(pipes := Swapped(s, c.active, |c.pipes|), active := c.active + 1, eligible := c.eligible + 1)
  }

  function Match<P>(c: Cursors<P>, i: nat): Cursors<P>
    requires i < |c.pipes| && c.matching <= |c.pipes|
  {
    if i < c.matching || i >= c.eligible then c
    else c.(pipes := Swapped(c.pipes, i, c.matching), matching := c.matching + 1)
  }

  function Activated<P>(c: Cursors<P>, i: nat): Cursors<P>
    requires c.active <= c.eligible <= i < |c.pipes|
  {
    var s := Swapped(c.pipes, i, c.eligible);
    if c.more then c.(pipes := s, eligible := c.eligible + 1)
    else c.(pipes := Swapped(s, c.eligible, c.active), active := c.active + 1, eligible := c.eligible + 1)
  }

  /** What the removal of the pipe at `i` does to a cursor. */
  function Without(k: nat, i: nat): nat {
    if i < k then k - 1 else k
  }

  function Terminated<P>(c: Cursors<P>, i: nat): Cursors<P>
    requires i < |c.pipes|
  {
    Cursors(Erased(c.pipes, i), Without(c.matching, i), Without(c.active, i), Without(c.eligible, i), c.more)
  }

  /** The matching pipe at `i` refuses: three swaps put it behind all cursors. */
  function Refused<P>(c: Cursors<P>, i: nat): (r: Cursors<P>)
    requires i < c.matching <= c.active <= c.eligible <= |c.pipes|
    ensures r.matching < c.matching && r.matching <= r.active <= r.eligible <= |r.pipes| == |c.pipes|
  {
    var s1 := Swapped(c.pipes, i, c.matching - 1);
    var s2 := Swapped(s1, c.matching - 1, c.active - 1);
    var s3 := Swapped(s2, c.active - 1, c.eligible - 1);
    Cursors(s3, c.matching - 1, c.active - 1, c.eligible - 1, c.more)
  }

  /** The loop over the matching pipes, of which those in `takes` accept. */
  function Push<P(==)>(c: Cursors<P>, i: nat, takes: set<P>): (r: Cursors<P>)
    requires c.matching <= c.active <= c.eligible <= |c.pipes|
    ensures r.matching <= r.active <= r.eligible <= |r.pipes| == |c.pipes|
    ensures r.more == c.more && r.matching <= c.matching && r.eligible - r.active == c.eligible - c.active
    decreases c.matching - i
  {
    if i >= c.matching then c
    else if c.pipes[i] in takes then Push(c, i + 1, takes)
    else Push(Refused(c, i), i, takes)
  }

  function Sent<P(==)>(c: Cursors<P>, takes: set<P>, more: bool): Cursors<P>
    requires c.matching <= c.active <= c.eligible <= |c.pipes|
  {
    var d := Push(c, 0, takes);
    if more then d.(more := true) else d.(active := d.eligible, more := false)
  }

  function SentToAll<P(==)>(c: Cursors<P>, takes: set<P>, more: bool): Cursors<P>
    requires c.active <= c.eligible <= |c.pipes|
  {
    Sent(c.(matching := c.active), takes, more)
  }

  // ----- the classes of pipes

  ghost function Matching<P>(c: Cursors<P>): set<P>
    requires c.matching <= |c.pipes|
  {
    Top(c.pipes, c.matching)
  }

  ghost function Active<P>(c: Cursors<P>): set<P>
    requires c.active <= |c.pipes|
  {
    Top(c.pipes, c.active)
  }

  ghost function Eligible<P>(c: Cursors<P>): set<P>
    requires c.eligible <= |c.pipes|
  {
    Top(c.pipes, c.eligible)
  }

  /** A new pipe is eligible, and active unless a message is being sent; nobody else changes class. */
  lemma AttachMeans<P>(c: Cursors<P>, p: P)
    requires Ok(c) && p !in c.pipes
    ensures var d := Attach(c, p);
            && Ok(d) && All(d.pipes) == All(c.pipes) + {p} && Matching(d) == Matching(c)
            && Active(d) == Active(c) + (if c.more then {} else {p})
            && Eligible(d) == Eligible(c) + {p}
  {
    var s, n := c.pipes + [p], |c.pipes|;
    assert s[..c.matching] == c.pipes[..c.matching] && s[..c.active] == c.pipes[..c.active];
    assert s[..c.eligible] == c.pipes[..c.eligible];
    assert All(s) == All(c.pipes) + {p};
    SwappedAll(s, c.eligible, n);
    SwapIn(s, c.eligible, n);
    SwappedTop(s, c.eligible, n, c.matching);
    SwappedTop(s, c.eligible, n, c.active);
  }

  /** Marking an eligible pipe for the message. In the middle of a message that is right exactly for a pipe that is
      active: one that is only eligible takes the place of a pipe that is. */
  lemma MatchMeans<P>(c: Cursors<P>, i: nat)
    requires Ok(c) && i < |c.pipes|
    ensures var d := Match(c, i);
            && All(d.pipes) == All(c.pipes) && Eligible(d) == Eligible(c)
            && Matching(d) == Matching(c) + (if i < c.eligible then {c.pipes[i]} else {})
            && (Ok(d) && Active(d) == Active(c) <==> !(c.active <= i < c.eligible))
  {
    var m := c.matching;
    if m <= i < c.eligible {
      SwappedAll(c.pipes, i, m);
      SwapIn(c.pipes, m, i);
      SwappedTop(c.pipes, i, m, c.eligible);
      SwappedTop(c.pipes, i, m, c.active);
      var d := Match(c, i);
      if i >= c.active && m < c.active {
        InTop(c.pipes, c.active, i);
        assert d.pipes[..c.active][m] == c.pipes[i];
      }
    } else if i < m {
      InTop(c.pipes, m, i);
    }
  }

  /** A pipe that refused is eligible again, and active unless a message is being sent. */
  lemma ActivatedMeans<P>(c: Cursors<P>, i: nat)
    requires Ok(c) && c.eligible <= i < |c.pipes|
    ensures var d := Activated(c, i);
            && Ok(d) && All(d.pipes) == All(c.pipes) && Matching(d) == Matching(c)
            && Active(d) == Active(c) + (if c.more then {} else {c.pipes[i]})
            && Eligible(d) == Eligible(c) + {c.pipes[i]}
  {
    var s := Swapped(c.pipes, i, c.eligible);
    SwappedAll(c.pipes, i, c.eligible);
    SwapIn(c.pipes, c.eligible, i);
    SwappedTop(c.pipes, i, c.eligible, c.matching);
    SwappedTop(c.pipes, i, c.eligible, c.active);
    assert Swapped(s, c.eligible, c.eligible) == s;
  }

  // ----- sending

  /** The pipe that refuses leaves all three classes; nobody else does, and the pipes before it keep their
      places. */
  lemma RefusedMeans<P>(c: Cursors<P>, i: nat)
    requires Ordered(c) && i < c.matching
    ensures var d := Refused(c, i);
            && Distinct(d.pipes) && All(d.pipes) == All(c.pipes) && d.pipes[..i] == c.pipes[..i]
            && Top(d.pipes, d.matching) == Top(c.pipes, c.matching) - {c.pipes[i]}
            && Top(d.pipes, d.active) == Top(c.pipes, c.active) - {c.pipes[i]}
            && Top(d.pipes, d.eligible) == Top(c.pipes, c.eligible) - {c.pipes[i]}
  {
    var d, s := Refused(c, i), c.pipes;
    var m, a, e := c.matching, c.active, c.eligible;
    var s1 := Swapped(s, i, m - 1);
    var s2 := Swapped(s1, m - 1, a - 1);
    assert d == Cursors(Swapped(s2, a - 1, e - 1), m - 1, a - 1, e - 1, c.more);
    hide *;
    BehindOne(s, i, m, i, a);
    BehindOne(s, i, m, i, e);
    BehindOne(s1, m - 1, a, i, e);
    BehindOne(s1, m - 1, a, m - 1, e);
    BehindOne(s2, a - 1, e, i, e);
    BehindOne(s2, a - 1, e, m - 1, e);
    BehindOne(s2, a - 1, e, a - 1, e);
  }

  /** The item at `i` is put behind the first `n - 1`; longer and shorter beginnings keep their items. */
  lemma BehindOne<P>(s: seq<P>, i: nat, n: nat, shorter: nat, longer: nat)
    requires Distinct(s) && shorter <= i < n <= longer <= |s|
    ensures var t := Swapped(s, i, n - 1);
            && Distinct(t) && All(t) == All(s) && t[n - 1] == s[i]
            && Top(t, n - 1) == Top(s, n) - {s[i]}
            && t[..shorter] == s[..shorter] && Top(t, shorter) == Top(s, shorter) && Top(t, longer) == Top(s, longer)
  {
    SwappedAll(s, i, n - 1);
    SwapOut(s, n, i);
    SwappedTop(s, i, n - 1, shorter);
    SwappedTop(s, i, n - 1, longer);
    hide Top, All, Distinct;
  }

  /** The matching pipes that the loop has not come to. */
  ghost function Pending<P>(c: Cursors<P>, i: nat): set<P>
    requires c.matching <= |c.pipes|
  {
    set k | i <= k < c.matching :: c.pipes[k]
  }

  lemma PendingAll<P>(c: Cursors<P>)
    requires Ordered(c)
    ensures Pending(c, 0) == Matching(c)
  {
    forall p ensures p in Pending(c, 0) <==> p in Matching(c) {
      if p in c.pipes[..c.matching] {
        var k :| 0 <= k < c.matching && c.pipes[..c.matching][k] == p;
        assert c.pipes[k] == p;
      }
    }
  }

  /** One round of the loop, and its end. */
  lemma PushStep<P>(c: Cursors<P>, i: nat, takes: set<P>)
    requires Ordered(c) && i < c.matching
    ensures var p, d := c.pipes[i], Refused(c, i);
            && p in Pending(c, i)
            && (p in takes ==>
                  Push(c, i, takes) == Push(c, i + 1, takes) && Pending(c, i + 1) == Pending(c, i) - {p})
            && (p !in takes ==>
                  && Push(c, i, takes) == Push(d, i, takes) && Ordered(d)
                  && i <= d.matching == c.matching - 1 && Pending(d, i) == Pending(c, i) - {p})
  {
    RefusedMeans(c, i);
    RefusedPending(c, i);
  }

  lemma RefusedPending<P>(c: Cursors<P>, i: nat)
    requires Ordered(c) && i < c.matching
    ensures Pending(Refused(c, i), i) == Pending(c, i) - {c.pipes[i]}
  {
    var d := Refused(c, i);
    var m := c.matching - 1;
    assert forall k :: 0 <= k < m ==> d.pipes[k] == Swapped(c.pipes, i, m)[k];
    hide Refused;
    forall p ensures p in Pending(d, i) <==> p in Pending(c, i) - {c.pipes[i]} {
      if p in Pending(d, i) {
        var k :| i <= k < m && d.pipes[k] == p;
        assert p == c.pipes[if k == i then m else k];
      }
      if p in Pending(c, i) - {c.pipes[i]} {
        var k :| i <= k <= m && c.pipes[k] == p;
        assert p == d.pipes[if k == m then i else k];
      }
    }
  }

  lemma PushEnds<P>(c: Cursors<P>, i: nat, takes: set<P>)
    requires Ordered(c) && c.matching <= i
    ensures Push(c, i, takes) == c && Pending(c, i) == {}
  {
  }

  /** The loop keeps just the matching pipes that accept; the others leave all classes. */
  lemma {:induction false} PushMeans<P>(c: Cursors<P>, i: nat, takes: set<P>)
    requires Ordered(c) && i <= c.matching && Top(c.pipes, i) <= takes
    ensures var d := Push(c, i, takes);
            && Ordered(d) && All(d.pipes) == All(c.pipes)
            && Matching(d) == Matching(c) * takes
            && Active(d) == Active(c) - (Matching(c) - takes)
            && Eligible(d) == Eligible(c) - (Matching(c) - takes)
    decreases c.matching - i
  {
    if i < c.matching {
      var p := c.pipes[i];
      InTop(c.pipes, c.matching, i);
      if p in takes {
        TopStep(c.pipes, i);
        PushMeans(c, i + 1, takes);
      } else {
        RefusedMeans(c, i);
        PushMeans(Refused(c, i), i, takes);
      }
    }
  }

  lemma PushOk<P>(c: Cursors<P>, takes: set<P>)
    requires Ok(c)
    ensures Ordered(c) && Ok(Push(c, 0, takes))
  {
    PushMeans(c, 0, takes);
  }

  lemma PushNone<P>(c: Cursors<P>, takes: set<P>)
    requires Ok(c)
    ensures c.matching == 0 ==> Push(c, 0, takes) == c && Matching(c) == {}
  {
  }

  /** After a part of a message: those that refused are out, and after the last part all eligible pipes
      are active. */
  lemma SentMeans<P>(c: Cursors<P>, takes: set<P>, more: bool)
    requires Ok(c)
    ensures var d := Sent(c, takes, more);
            && Ok(d) && All(d.pipes) == All(c.pipes) && d.more == more
            && Matching(d) == Matching(c) * takes
            && Eligible(d) == Eligible(c) - (Matching(c) - takes)
            && Active(d) == if more then Active(c) - (Matching(c) - takes) else Eligible(d)
  {
    PushMeans(c, 0, takes);
  }

  // ----- termination

  /** Which pipes are before a cursor after a removal: the last pipe before it is not, and the last of all
      may be. */
  lemma ErasedTop<P>(s: seq<P>, i: nat, k: nat)
    requires Distinct(s) && i < k <= |s|
    ensures Top(Erased(s, i), k - 1) == Top(s, k - 1) - {s[i]} + if i < k - 1 then {s[|s| - 1]} else {}
  {
    var e, n := Erased(s, i), |s|;
    var expected := Top(s, k - 1) - {s[i]} + if i < k - 1 then {s[n - 1]} else {};
    forall x ensures x in Top(e, k - 1) <==> x in expected {
      if x in Top(e, k - 1) {
        var j :| 0 <= j < k - 1 && e[j] == x;
        assert x == s[if j == i then n - 1 else j];
      }
      if i < k - 1 && x == s[n - 1] {
        assert e[..k - 1][i] == x;
      } else if x in Top(s, k - 1) - {s[i]} {
        var j :| 0 <= j < k - 1 && s[j] == x;
        assert e[..k - 1][j] == x;
      }
    }
  }

  /** Removing a pipe removes it from the pipes before a cursor and leaves the others, exactly when it was behind
      the cursor, or the last one before it, or all pipes were before it. In any other case the last
      pipe before the cursor is lost and the last of all takes its place. */
  lemma ErasedKeepsIff<P>(s: seq<P>, i: nat, k: nat)
    requires Distinct(s) && i < |s| && k <= |s|
    ensures Without(k, i) <= |Erased(s, i)|
    ensures Top(Erased(s, i), Without(k, i)) == Top(s, k) - {s[i]} <==> i >= k || i == k - 1 || k == |s|
    ensures !(i >= k || i == k - 1 || k == |s|) ==>
              Top(Erased(s, i), k - 1) == Top(s, k) - {s[i], s[k - 1]} + {s[|s| - 1]}
  {
    InTop(s, k, i);
    InTop(s, k, |s| - 1);
    if i < k {
      TopStep(s, k - 1);
      InTop(s, k - 1, k - 1);
      ErasedTop(s, i, k);
    } else {
      assert Erased(s, i)[..k] == s[..k];
    }
  }

  lemma TerminatedOk<P>(c: Cursors<P>, i: nat)
    requires Ok(c) && i < |c.pipes|
    ensures Ok(Terminated(c, i)) && All(Terminated(c, i).pipes) == All(c.pipes) - {c.pipes[i]}
  {
    ErasedAll(c.pipes, i);
  }

  /** For instance: of three pipes the first two are active; when the first terminates, the second
      is taken for passive and the third, which refused a message, for active. */
  lemma TerminatedLoses<P>(a: P, b: P, c: P)
    ensures Terminated(Cursors([a, b, c], 0, 2, 2, false), 0) == Cursors([c, b], 0, 1, 1, false)
  {
  }
}
