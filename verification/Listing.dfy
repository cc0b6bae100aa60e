/** Visiting a trie's topics in order, as `apply` and the removal of a pipe do. */
module Listing {
  import opened Options
  import opened Bytes
  import opened Tree

  /** The topics below `path` whose value `pick` accepts, in the order the nodes are visited. */
  function Listed<V>(n: Node<V>, pick: V -> bool, path: Topic): seq<Topic>
    decreases n, |n.kids| + 1
  {
    (if pick(n.val) then [path] else []) + ListedBelow(n, pick, path, |n.kids|)
  }

  function ListedBelow<V>(n: Node<V>, pick: V -> bool, path: Topic, i: nat): seq<Topic>
    requires i <= |n.kids|
    decreases n, i
  {
    if i == 0 then []
    else
      ListedBelow(n, pick, path, i - 1) + ListedByKid(n, pick, path, i - 1)
  }

  /** Those below the child at entry `i`. */
  function ListedByKid<V>(n: Node<V>, pick: V -> bool, path: Topic, i: nat): seq<Topic>
    requires i < |n.kids|
    decreases n, i
  {
    if n.kids[i].Some? && n.min + i < 256 then Listed(n.kids[i].value, pick, path + [n.min + i]) else []
  }

  lemma ListedSplit<V>(n: Node<V>, pick: V -> bool, path: Topic)
    ensures ListedBelow(n, pick, path, 0) == []
    ensures Listed(n, pick, path) == (if pick(n.val) then [path] else []) + ListedBelow(n, pick, path, |n.kids|)
  {
  }

  lemma ByKid<V>(n: Node<V>, pick: V -> bool, path: Topic, c: nat)
    requires Tight(n) && c < |n.kids|
    ensures ListedByKid(n, pick, path, c) == if n.kids[c].Some? then Listed(n.kids[c].value, pick, path + [n.min + c]) else []
    ensures ListedBelow(n, pick, path, c + 1) == ListedBelow(n, pick, path, c) + ListedByKid(n, pick, path, c)
  {
    hide Listed, Live;
  }

  /** Everything listed below `path` begins with `path`. */
  lemma {:induction false} ListedExtends<V>(n: Node<V>, pick: V -> bool, path: Topic, u: Topic)
    requires u in Listed(n, pick, path)
    ensures path <= u
    decreases n, |n.kids| + 1
  {
    if u in ListedBelow(n, pick, path, |n.kids|) {
      var c := ListedBelowExtends(n, pick, path, u, |n.kids|);
    }
  }

  lemma {:induction false} ListedBelowExtends<V>(n: Node<V>, pick: V -> bool, path: Topic, u: Topic, i: nat) returns (c: Byte)
    requires i <= |n.kids| && u in ListedBelow(n, pick, path, i)
    ensures n.min <= c < n.min + i && path + [c] <= u
    decreases n, i
  {
    if u in ListedBelow(n, pick, path, i - 1) {
      c := ListedBelowExtends(n, pick, path, u, i - 1);
    } else {
      c := n.min + i - 1;
      ListedExtends(n.kids[i - 1].value, pick, path + [c], u);
    }
  }

  lemma NotListed<V>(n: Node<V>, pick: V -> bool, path: Topic, u: Topic)
    requires !(path <= u)
    ensures u !in Listed(n, pick, path)
  {
    if u in Listed(n, pick, path) {
      ListedExtends(n, pick, path, u);
    }
  }

  /** A topic is listed below `path` exactly when its value is accepted. */
  lemma {:induction false} ListedIff<V>(n: Node<V>, pick: V -> bool, zero: V, path: Topic, u: Topic)
    requires Compact(n, zero) && !pick(zero)
    ensures path + u in Listed(n, pick, path) <==> pick(At(n, u, zero))
    decreases n, |n.kids| + 1
  {
    ListedBelowIff(n, pick, zero, path, u, |n.kids|);
    if u == [] {
      assert path + u == path;
    } else {
      assert path + u != path;
    }
  }

  lemma InConcat(a: seq<Topic>, b: seq<Topic>, x: Topic)
    ensures x in a + b <==> x in a || x in b
  {
  }

  lemma NoKidNothing<V>(n: Node<V>, zero: V, u: Topic, c: nat)
    requires c < 256 && Kid(n, c) == None
    ensures u != [] && u[0] == c ==> At(n, u, zero) == zero
  {
  }

  lemma ListedByKidIff<V>(n: Node<V>, pick: V -> bool, zero: V, path: Topic, u: Topic, i: nat)
    requires Compact(n, zero) && !pick(zero) && i < |n.kids|
    requires n.kids[i].Some? ==>
               (path + u in Listed(n.kids[i].value, pick, path + [n.min + i]) <==>
                u != [] && u[0] == n.min + i && pick(At(n, u, zero)))
    ensures path + u in ListedByKid(n, pick, path, i) <==> u != [] && u[0] == n.min + i && pick(At(n, u, zero))
  {
    hide Listed;
    if n.kids[i] == None {
      NoKidNothing(n, zero, u, n.min + i);
    }
  }

  lemma {:induction false} ListedBelowIff<V>(n: Node<V>, pick: V -> bool, zero: V, path: Topic, u: Topic, i: nat)
    requires Compact(n, zero) && !pick(zero) && i <= |n.kids|
    ensures path + u in ListedBelow(n, pick, path, i) <==>
            u != [] && n.min <= u[0] < n.min + i && pick(At(n, u, zero))
    decreases n, i
  {
    if i > 0 {
      ListedBelowIff(n, pick, zero, path, u, i - 1);
      if n.kids[i - 1].Some? {
        ListedKidIff(n, pick, zero, path, u, i - 1);
      }
      ListedByKidIff(n, pick, zero, path, u, i - 1);
      hide *;
      InConcat(ListedBelow(n, pick, path, i - 1), ListedByKid(n, pick, path, i - 1), path + u);
    }
  }

  lemma {:induction false} ListedKidIff<V>(n: Node<V>, pick: V -> bool, zero: V, path: Topic, u: Topic, i: nat)
    requires Compact(n, zero) && !pick(zero) && i < |n.kids| && n.kids[i].Some?
    ensures path + u in Listed(n.kids[i].value, pick, path + [n.min + i]) <==>
            u != [] && u[0] == n.min + i && pick(At(n, u, zero))
    decreases n, i, 0
  {
    var k, c := n.kids[i].value, n.min + i;
    if u != [] && u[0] == c {
      assert path + u == path + [c] + u[1..];
      ListedIff(k, pick, zero, path + [c], u[1..]);
    } else {
      assert u != [] ==> (path + u)[|path|] == u[0];
      assert (path + [c])[|path|] == c;
      NotListed(k, pick, path + [c], path + u);
    }
  }

  ghost predicate NoRepeats(s: seq<Topic>) {
    forall i, j :: 0 <= i < j < |s| ==> s[i] != s[j]
  }

  lemma NoRepeatsConcat(a: seq<Topic>, b: seq<Topic>)
    requires NoRepeats(a) && NoRepeats(b)
    requires forall x :: x in a ==> x !in b
    ensures NoRepeats(a + b)
  {
    forall i, j | 0 <= i < j < |a + b| ensures (a + b)[i] != (a + b)[j] {
      if i < |a| && j >= |a| { assert a[i] in a && b[j - |a|] in b; }
    }
  }

  lemma {:induction false} ListedOnce<V>(n: Node<V>, pick: V -> bool, path: Topic)
    ensures NoRepeats(Listed(n, pick, path))
    decreases n, |n.kids| + 1
  {
    ListedBelowOnce(n, pick, path, |n.kids|);
    forall x | x in ListedBelow(n, pick, path, |n.kids|) ensures x != path {
      var c := ListedBelowExtends(n, pick, path, x, |n.kids|);
    }
    NoRepeatsConcat(if pick(n.val) then [path] else [], ListedBelow(n, pick, path, |n.kids|));
  }

  lemma {:induction false} ListedBelowOnce<V>(n: Node<V>, pick: V -> bool, path: Topic, i: nat)
    requires i <= |n.kids|
    ensures NoRepeats(ListedBelow(n, pick, path, i))
    decreases n, i
  {
    if i > 0 {
      ListedBelowOnce(n, pick, path, i - 1);
      if n.kids[i - 1].Some? && n.min + i - 1 < 256 {
        var k, c := n.kids[i - 1].value, n.min + i - 1;
        ListedOnce(k, pick, path + [c]);
        forall x | x in ListedBelow(n, pick, path, i - 1) ensures x !in Listed(k, pick, path + [c]) {
          var d := ListedBelowExtends(n, pick, path, x, i - 1);
          assert x[|path|] == (path + [d])[|path|] && (path + [c])[|path|] == c;
          NotListed(k, pick, path + [c], x);
        }
        NoRepeatsConcat(ListedBelow(n, pick, path, i - 1), Listed(k, pick, path + [c]));
      }
    }
  }

  /** From the root, the visit lists each topic with an accepted value once, with its full name, and no
      other. */
  lemma ListedMeans<V>(n: Node<V>, pick: V -> bool, zero: V)
    requires Compact(n, zero) && !pick(zero)
    ensures forall u :: u in Listed(n, pick, []) <==> pick(At(n, u, zero))
    ensures NoRepeats(Listed(n, pick, []))
  {
    forall u ensures u in Listed(n, pick, []) <==> pick(At(n, u, zero)) {
      ListedIff(n, pick, zero, [], u);
      assert [] + u == u;
    }
    ListedOnce(n, pick, []);
  }
}
