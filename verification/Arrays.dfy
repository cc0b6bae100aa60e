/** What `array_t` does to the order of its items, and which items are in the first places afterwards. */
module Arrays {

  function Swapped<P>(s: seq<P>, i: nat, j: nat): (t: seq<P>)
    requires i < |s| && j < |s|
    ensures |t| == |s|
  {
    s[i := s[j]][j := s[i]]
  }

  /** The last item takes the place of item `i`. */
  function Erased<P>(s: seq<P>, i: nat): seq<P>
    requires i < |s|
  {
    s[i := s[|s| - 1]][..|s| - 1]
  }

  ghost predicate Distinct<P>(s: seq<P>) {
    forall i, j :: 0 <= i < |s| && 0 <= j < |s| && s[i] == s[j] ==> i == j
  }

  ghost function Top<P>(s: seq<P>, n: nat): set<P>
    requires n <= |s|
  {
    set p | p in s[..n]
  }

  ghost function All<P>(s: seq<P>): set<P> {
    set p | p in s
  }

  lemma SameItems<P>(s: seq<P>, t: seq<P>)
    requires All(s) == All(t)
    ensures forall p :: p in s <==> p in t
  {
    forall p ensures p in s <==> p in t {
      assert p in All(s) <==> p in s;
    }
  }

  lemma RemainingItems<P>(s: seq<P>, t: seq<P>, i: nat)
    requires i < |t| && All(s) == All(t) - {t[i]}
    ensures forall p :: p in s <==> p in t && p != t[i]
  {
    forall p ensures p in s <==> p in t && p != t[i] {
      assert p in All(s) <==> p in s;
    }
  }

  /** One item more at the end of the first places. */
  lemma TopStep<P>(s: seq<P>, n: nat)
    requires n < |s|
    ensures Top(s, n + 1) == Top(s, n) + {s[n]}
  {
    assert s[..n + 1] == s[..n] + [s[n]];
  }

  lemma InTop<P>(s: seq<P>, n: nat, i: nat)
    requires Distinct(s) && n <= |s| && i < |s|
    ensures s[i] in Top(s, n) <==> i < n
  {
    if i < n { assert s[..n][i] == s[i]; }
  }

  lemma SwappedAll<P>(s: seq<P>, i: nat, j: nat)
    requires i < |s| && j < |s|
    ensures Distinct(s) ==> Distinct(Swapped(s, i, j))
    ensures All(Swapped(s, i, j)) == All(s)
  {
    var t := Swapped(s, i, j);
    forall p | p in s ensures p in t {
      var k :| 0 <= k < |s| && s[k] == p;
      assert t[if k == i then j else if k == j then i else k] == p;
    }
  }

  /** A swap among the first `n` items, or among the others, keeps the first `n`. */
  lemma SwappedTop<P>(s: seq<P>, i: nat, j: nat, n: nat)
    requires i < |s| && j < |s| && n <= |s|
    ensures i < n && j < n ==> Top(Swapped(s, i, j), n) == Top(s, n)
    ensures i >= n && j >= n ==> Swapped(s, i, j)[..n] == s[..n] && Top(Swapped(s, i, j), n) == Top(s, n)
  {
    if i < n && j < n {
      SwappedAll(s[..n], i, j);
      assert Swapped(s, i, j)[..n] == Swapped(s[..n], i, j);
    } else if i >= n && j >= n {
      assert Swapped(s, i, j)[..n] == s[..n];
    }
  }

  /** Item `i` of the first `n` trades places with the last of them. */
  lemma SwapOut<P>(s: seq<P>, n: nat, i: nat)
    requires Distinct(s) && i < n <= |s|
    ensures Top(Swapped(s, i, n - 1), n - 1) == Top(s, n) - {s[i]}
  {
    var t := Swapped(s, i, n - 1);
    forall p ensures p in Top(t, n - 1) <==> p in Top(s, n) - {s[i]} {
      if p in Top(t, n - 1) {
        var k :| 0 <= k < n - 1 && t[k] == p;
        assert p == s[if k == i then n - 1 else k];
      }
      if p in Top(s, n) - {s[i]} {
        var k :| 0 <= k < n && s[k] == p;
        assert p == t[if k == n - 1 then i else k];
      }
    }
  }

  /** Item `i` of the others becomes the last of the first places, of which there is one more. */
  lemma SwapIn<P>(s: seq<P>, n: nat, i: nat)
    requires n <= i < |s|
    ensures Top(Swapped(s, i, n), n + 1) == Top(s, n) + {s[i]}
    ensures Swapped(s, i, n)[..n] == s[..n]
  {
    TopStep(Swapped(s, i, n), n);
    assert Swapped(s, i, n)[..n] == s[..n];
  }

  lemma ErasedAll<P>(s: seq<P>, i: nat)
    requires Distinct(s) && i < |s|
    ensures Distinct(Erased(s, i)) && All(Erased(s, i)) == All(s) - {s[i]}
  {
    var t := Erased(s, i);
    forall p | p in s && p != s[i] ensures p in t {
      var k :| 0 <= k < |s| && s[k] == p;
      assert p == t[if k == |s| - 1 then i else k];
    }
  }
}
