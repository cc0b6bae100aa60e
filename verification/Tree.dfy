/** The shape shared by `mtrie_t` and `trie_t`: a trie over bytes whose nodes keep their children in
    a table that covers just the range of the characters in use. This module says what growing,
    pruning and compacting such a trie mean, whatever the nodes carry. */
module Tree {
  import opened Options
  import opened Bytes

  type Topic = seq<Byte>

  /** `live` of the `|kids|` entries from character `min` on are children. One entry stands for
      the source's single-node form, more for its table. */
  datatype Node<V> = Node(val: V, min: Byte, live: nat, kids: seq<Option<Node<V>>>)

  function Leaf<V>(v: V): Node<V> {
    Node(v, 0, 0, [])
  }

  predicate InRange<V>(n: Node<V>, c: Byte) {
    n.min <= c < n.min + |n.kids|
  }

  /** The child for character `c`, if there is one. */
  function Kid<V>(n: Node<V>, c: Byte): (k: Option<Node<V>>)
    ensures k.Some? ==> k.value < n
  {
    if InRange(n, c) then n.kids[c - n.min] else None
  }

  /** What the trie stores at a topic; `zero` where it stores nothing. */
  function At<V>(n: Node<V>, t: Topic, zero: V): V
    decreases |t|
  {
    if t == [] then n.val
    else
      match Kid(n, t[0])
      case Some(k) => At(k, t[1..], zero)
      case None => zero
  }

  function Live<V>(kids: seq<Option<Node<V>>>): nat {
    if kids == [] then 0
    else Live(kids[..|kids| - 1]) + (if kids[|kids| - 1].Some? then 1 else 0)
  }

  predicate Redundant<V(==)>(n: Node<V>, zero: V) {
    n.val == zero && n.live == 0
  }

  /** The table fits its characters, both its ends are live, its children are counted. */
  ghost predicate Tight<V>(n: Node<V>) {
    && n.min + |n.kids| <= 256
    && n.live == Live(n.kids)
    && (n.kids != [] ==> n.kids[0].Some? && n.kids[|n.kids| - 1].Some?)
  }

  /** The whole trie is tight and holds no node without purpose. */
  ghost predicate Compact<V>(n: Node<V>, zero: V)
    decreases n
  {
    && Tight(n)
    && forall i :: 0 <= i < |n.kids| && n.kids[i].Some? ==>
         Compact(n.kids[i].value, zero) && !Redundant(n.kids[i].value, zero)
  }

  function Nulls<V>(n: nat): (s: seq<Option<Node<V>>>)
    ensures |s| == n && forall i :: 0 <= i < n ==> s[i] == None
  {
    seq(n, _ => None)
  }

  // ----- growing

  /** Widen the table so that it covers `c`. */
  function Widen<V>(n: Node<V>, c: Byte): (g: Node<V>)
    ensures InRange(g, c)
    ensures n.kids == [] || n.min + |n.kids| <= 256 ==> g.min + |g.kids| <= 256
  {
    if InRange(n, c) then n
    else if n.kids == [] then n.(min := c, kids := [None])
    else if n.min < c then n.(kids := n.kids + Nulls(c - n.min + 1 - |n.kids|))
    else n.(min := c, kids := Nulls(n.min - c) + n.kids)
  }

  /** Replace the child for `c`, which the table covers. */
  function SetKid<V>(n: Node<V>, c: Byte, k: Option<Node<V>>): Node<V>
    requires InRange(n, c)
  {
    var old_ := n.kids[c - n.min];
    n.(kids := n.kids[c - n.min := k],
    live := if old_.None? && k.Some? then n.live + 1
    else if old_.Some? && k.None? && n.live > 0 then n.live - 1
    else n.live)
  }

  /** Store `v` at `t`, creating the nodes on the way. */
  function Upsert<V>(n: Node<V>, t: Topic, v: V, zero: V): Node<V>
    decreases |t|
  {
    if t == [] then n.(val := v)
    else
      var g := Widen(n, t[0]);
      var k := g.kids[t[0] - g.min].GetOr(Leaf(zero));
      SetKid(g, t[0], Some(Upsert(k, t[1..], v, zero)))
  }

  // ----- shrinking

  /** The number of absent children at the left end. */
  function Lead<V>(kids: seq<Option<Node<V>>>): (i: nat)
    ensures i <= |kids|
    ensures forall j :: 0 <= j < i ==> kids[j] == None
    ensures i < |kids| ==> kids[i].Some?
  {
    if kids == [] || kids[0].Some? then 0 else 1 + Lead(kids[1..])
  }

  function Tail<V>(kids: seq<Option<Node<V>>>): (i: nat)
    ensures i <= |kids|
    ensures forall j :: |kids| - i <= j < |kids| ==> kids[j] == None
    ensures i < |kids| ==> kids[|kids| - 1 - i].Some?
  {
    if kids == [] || kids[|kids| - 1].Some? then 0 else 1 + Tail(kids[..|kids| - 1])
  }

  /** Cut absent children off both ends of the table. */
  function Trim<V>(n: Node<V>): Node<V> {
    var i, j := Lead(n.kids), Tail(n.kids);
    if i == |n.kids| then n.(kids := [])
    else n.(min := if n.min + i < 256 then n.min + i else 255, kids := n.kids[i..|n.kids| - j])
  }

  /** Put `k` back as the child for `c`, or drop it if it lost its purpose. */
  function Prune<V(==)>(n: Node<V>, c: Byte, k: Node<V>, zero: V): Node<V>
    requires InRange(n, c)
  {
    if Redundant(k, zero) then Trim(SetKid(n, c, None)) else SetKid(n, c, Some(k))
  }

  /** Store `v` at `t` if there is a node for it, dropping the nodes that become useless. */
  function Reset<V(==)>(n: Node<V>, t: Topic, v: V, zero: V): Node<V>
    decreases |t|
  {
    if t == [] then n.(val := v)
    else
      match Kid(n, t[0])
      case None => n
      case Some(k) => Prune(n, t[0], Reset(k, t[1..], v, zero), zero)
  }

  predicate HasNode<V>(n: Node<V>, t: Topic)
    decreases |t|
  {
    t == [] || (Kid(n, t[0]).Some? && HasNode(Kid(n, t[0]).value, t[1..]))
  }

  // ----- what growing does

  lemma WidenKids<V>(n: Node<V>, c: Byte, d: Byte)
    ensures Kid(Widen(n, c), d) == Kid(n, d)
  {
  }

  lemma {:induction false} UpsertAt<V>(n: Node<V>, t: Topic, v: V, zero: V, u: Topic)
    ensures At(Upsert(n, t, v, zero), u, zero) == if u == t then v else At(n, u, zero)
    decreases |t|
  {
    if t != [] && u != [] {
      var g := Widen(n, t[0]);
      WidenKids(n, t[0], u[0]);
      WidenKids(n, t[0], t[0]);
      if u[0] == t[0] {
        var k := g.kids[t[0] - g.min].GetOr(Leaf(zero));
        UpsertAt(k, t[1..], v, zero, u[1..]);
        assert u == t <==> u[1..] == t[1..] by { assert u == [u[0]] + u[1..] && t == [t[0]] + t[1..]; }
        if g.kids[t[0] - g.min].None? { LeafAt(zero, u[1..]); }
      }
    }
  }

  lemma LeafAt<V>(zero: V, u: Topic)
    ensures At(Leaf(zero), u, zero) == zero
  {
  }

  lemma {:induction false} LiveConcat<V>(a: seq<Option<Node<V>>>, b: seq<Option<Node<V>>>)
    ensures Live(a + b) == Live(a) + Live(b)
    decreases |b|
  {
    if b == [] {
      assert a + b == a;
    } else {
      LiveConcat(a, b[..|b| - 1]);
      assert (a + b)[..|a + b| - 1] == a + b[..|b| - 1];
    }
  }

  lemma {:induction false} LiveNulls<V>(s: seq<Option<Node<V>>>)
    requires forall i :: 0 <= i < |s| ==> s[i] == None
    ensures Live(s) == 0
  {
    if s != [] {
      LiveNulls(s[..|s| - 1]);
    }
  }

  lemma LiveUpdate<V>(s: seq<Option<Node<V>>>, i: nat, k: Option<Node<V>>)
    requires i < |s|
    ensures Live(s[i := k]) == Live(s) - (if s[i].Some? then 1 else 0) + (if k.Some? then 1 else 0)
  {
    assert s == s[..i] + [s[i]] + s[i + 1..];
    assert s[i := k] == s[..i] + [k] + s[i + 1..];
    LiveConcat(s[..i] + [s[i]], s[i + 1..]);
    LiveConcat(s[..i] + [k], s[i + 1..]);
    LiveConcat(s[..i], [s[i]]);
    LiveConcat(s[..i], [k]);
  }

  /** All children of `n` are compact and have a purpose. */
  ghost predicate GoodKids<V>(n: Node<V>, zero: V) {
    forall i :: 0 <= i < |n.kids| && n.kids[i].Some? ==>
      Compact(n.kids[i].value, zero) && !Redundant(n.kids[i].value, zero)
  }

  lemma LiveSome<V>(kids: seq<Option<Node<V>>>, i: nat)
    requires i < |kids| && kids[i].Some?
    ensures Live(kids) > 0
  {
    LiveUpdate(kids, i, None);
  }

  lemma {:induction false} LiveWitness<V>(kids: seq<Option<Node<V>>>) returns (i: nat)
    requires Live(kids) > 0
    ensures i < |kids| && kids[i].Some?
  {
    var n := |kids| - 1;
    if kids[n].Some? { i := n; } else { i := LiveWitness(kids[..n]); }
  }

  lemma WidenLive<V>(n: Node<V>, c: Byte)
    ensures Live(Widen(n, c).kids) == Live(n.kids)
  {
    if !InRange(n, c) {
      if n.kids == [] {
        LiveNulls<V>([None]);
      } else if n.min < c {
        var more := Nulls<V>(c - n.min + 1 - |n.kids|);
        LiveNulls(more);
        LiveConcat(n.kids, more);
      } else {
        var more := Nulls<V>(n.min - c);
        LiveNulls(more);
        LiveConcat(more, n.kids);
      }
    }
  }

  /** Widening for `c` and then storing a child there leaves both ends live. */
  lemma GrowTight<V>(n: Node<V>, c: Byte, k: Node<V>)
    requires Tight(n)
    ensures Tight(SetKid(Widen(n, c), c, Some(k)))
  {
    var g := Widen(n, c);
    WidenLive(n, c);
    LiveUpdate(g.kids, c - g.min, Some(k));
  }

  lemma GrowGood<V>(n: Node<V>, c: Byte, k: Node<V>, zero: V)
    requires GoodKids(n, zero) && Compact(k, zero) && !Redundant(k, zero)
    ensures GoodKids(SetKid(Widen(n, c), c, Some(k)), zero)
  {
    var g := Widen(n, c);
    forall i | 0 <= i < |g.kids| && g.kids[i].Some?
      ensures Compact(g.kids[i].value, zero) && !Redundant(g.kids[i].value, zero)
    {
      var d := g.min + i;
      if n.kids != [] && !InRange(n, c) && c < n.min {
        assert g.kids[i] == n.kids[i - (n.min - c)];
      }
    }
  }

  /** A trie stays compact when something is stored in it. */
  lemma {:induction false} UpsertCompact<V>(n: Node<V>, t: Topic, v: V, zero: V)
    requires Compact(n, zero) && v != zero
    ensures Compact(Upsert(n, t, v, zero), zero) && !Redundant(Upsert(n, t, v, zero), zero)
    decreases |t|
  {
    if t != [] {
      var c := t[0];
      var g := Widen(n, c);
      WidenKids(n, c, c);
      var k := g.kids[c - g.min].GetOr(Leaf(zero));
      if g.kids[c - g.min].Some? {
        assert g.kids[c - g.min] == Kid(n, c);
      } else {
        LiveNulls<V>([]);
      }
      UpsertCompact(k, t[1..], v, zero);
      var k' := Upsert(k, t[1..], v, zero);
      GrowTight(n, c, k');
      GrowGood(n, c, k', zero);
      LiveSome(SetKid(g, c, Some(k')).kids, c - g.min);
    }
  }

  // ----- what shrinking does

  lemma TrimKids<V>(n: Node<V>, d: Byte)
    requires n.min + |n.kids| <= 256
    ensures Kid(Trim(n), d) == Kid(n, d)
  {
    var i, j := Lead(n.kids), Tail(n.kids);
    if InRange(n, d) && i < |n.kids| {
      assert i + j < |n.kids|;
      if n.min + i <= d < n.min + |n.kids| - j {
        assert n.kids[i..|n.kids| - j][d - (n.min + i)] == n.kids[d - n.min];
      }
    }
  }

  lemma TrimLive<V>(n: Node<V>)
    requires n.min + |n.kids| <= 256
    ensures Live(Trim(n).kids) == Live(n.kids)
  {
    var i, j, m := Lead(n.kids), Tail(n.kids), |n.kids|;
    if i == m {
      LiveNulls(n.kids);
    } else {
      assert i + j < m;
      LiveSlice(n.kids, i, m - j);
    }
  }

  lemma LiveSlice<V>(kids: seq<Option<Node<V>>>, i: nat, j: nat)
    requires i <= j <= |kids|
    requires forall x :: 0 <= x < i || j <= x < |kids| ==> kids[x] == None
    ensures Live(kids[i..j]) == Live(kids)
  {
    assert kids == kids[..i] + kids[i..j] + kids[j..];
    LiveConcat(kids[..i] + kids[i..j], kids[j..]);
    LiveConcat(kids[..i], kids[i..j]);
    LiveNulls(kids[..i]);
    LiveNulls(kids[j..]);
  }

  lemma TrimTight<V>(n: Node<V>)
    requires n.min + |n.kids| <= 256 && n.live == Live(n.kids)
    ensures Tight(Trim(n))
  {
    TrimLive(n);
    var i, j, m := Lead(n.kids), Tail(n.kids), |n.kids|;
    if i < m {
      assert i + j < m;
      var t := n.kids[i..m - j];
      assert t[0] == n.kids[i] && t[|t| - 1] == n.kids[m - j - 1];
    }
  }

  lemma TrimGood<V>(n: Node<V>, zero: V)
    requires GoodKids(n, zero)
    ensures GoodKids(Trim(n), zero)
  {
    var i, j, m := Lead(n.kids), Tail(n.kids), |n.kids|;
    if i < m {
      assert i + j < m;
      var t := n.kids[i..m - j];
      assert forall x :: 0 <= x < |t| ==> t[x] == n.kids[i + x];
    }
  }

  lemma SetKidTight<V>(n: Node<V>, c: Byte, k: Node<V>)
    requires Tight(n) && Kid(n, c).Some?
    ensures Tight(SetKid(n, c, Some(k)))
    ensures SetKid(SetKid(n, c, Some(k)), c, None) == SetKid(n, c, None)
  {
    LiveUpdate(n.kids, c - n.min, Some(k));
    LiveSome(n.kids, c - n.min);
  }

  lemma PruneKids<V>(n: Node<V>, c: Byte, k: Node<V>, zero: V, d: Byte)
    requires n.min + |n.kids| <= 256 && InRange(n, c)
    ensures Kid(Prune(n, c, k, zero), d)
            == if d != c then Kid(n, d) else if Redundant(k, zero) then None else Some(k)
  {
    TrimKids(SetKid(n, c, None), d);
    hide Trim;
  }

  lemma PruneCompact<V>(n: Node<V>, c: Byte, k: Node<V>, zero: V)
    requires Compact(n, zero) && Kid(n, c).Some? && Compact(k, zero)
    ensures Compact(Prune(n, c, k, zero), zero)
  {
    if Redundant(k, zero) {
      PruneAway(n, c, zero);
    } else {
      LiveUpdate(n.kids, c - n.min, Some(k));
      hide Trim, Live;
    }
  }

  lemma PruneAway<V>(n: Node<V>, c: Byte, zero: V)
    requires Compact(n, zero) && Kid(n, c).Some?
    ensures Compact(Trim(SetKid(n, c, None)), zero)
  {
    LiveUpdate(n.kids, c - n.min, None);
    LiveSome(n.kids, c - n.min);
    hide Trim, Live;
    TrimTight(SetKid(n, c, None));
    TrimGood(SetKid(n, c, None), zero);
  }

  /** A compact node without purpose stores nothing anywhere below it. */
  lemma RedundantEmpty<V>(n: Node<V>, zero: V, u: Topic)
    requires Compact(n, zero) && Redundant(n, zero)
    ensures At(n, u, zero) == zero
  {
    if u != [] && n.kids != [] {
      LiveSome(n.kids, 0);
    }
  }

  lemma {:induction false} ResetCompact<V>(n: Node<V>, t: Topic, v: V, zero: V)
    requires Compact(n, zero)
    ensures Compact(Reset(n, t, v, zero), zero)
    decreases |t|
  {
    if t != [] && Kid(n, t[0]).Some? {
      var k := Kid(n, t[0]).value;
      ResetCompact(k, t[1..], v, zero);
      PruneCompact(n, t[0], Reset(k, t[1..], v, zero), zero);
    }
  }

  lemma {:induction false} ResetAt<V>(n: Node<V>, t: Topic, v: V, zero: V, u: Topic)
    requires Compact(n, zero)
    ensures At(Reset(n, t, v, zero), u, zero) == if u == t && HasNode(n, t) then v else At(n, u, zero)
    decreases |t|
  {
    if t != [] && Kid(n, t[0]).Some? {
      var k := Kid(n, t[0]).value;
      var k' := Reset(k, t[1..], v, zero);
      ResetCompact(k, t[1..], v, zero);
      if u != [] {
        PruneKids(n, t[0], k', zero, u[0]);
        if u[0] == t[0] {
          ResetAt(k, t[1..], v, zero, u[1..]);
          assert u == t <==> u[1..] == t[1..] by { assert u == [u[0]] + u[1..] && t == [t[0]] + t[1..]; }
          if Redundant(k', zero) { RedundantEmpty(k', zero, u[1..]); }
        }
      }
    }
  }

  // ----- which nodes exist

  /** Every node with a purpose leads to something stored. */
  lemma {:induction false} PurposeWitness<V>(n: Node<V>, zero: V) returns (u: Topic)
    requires Compact(n, zero) && !Redundant(n, zero)
    ensures At(n, u, zero) != zero
    decreases n
  {
    if n.val != zero {
      u := [];
    } else {
      var i := LiveWitness(n.kids);
      var k := n.kids[i].value;
      var u' := PurposeWitness(k, zero);
      var c: Byte := n.min + i;
      u := [c] + u';
      assert u[1..] == u';
    }
  }

  lemma {:induction false} NodeMeansBelow<V>(n: Node<V>, t: Topic, zero: V) returns (u: Topic)
    requires Compact(n, zero) && HasNode(n, t) && (t == [] ==> !Redundant(n, zero))
    ensures t <= u && At(n, u, zero) != zero
    decreases |t|
  {
    if t == [] {
      u := PurposeWitness(n, zero);
    } else {
      var k := Kid(n, t[0]).value;
      var u' := NodeMeansBelow(k, t[1..], zero);
      u := [t[0]] + u';
      assert u[1..] == u';
      assert t == [t[0]] + t[1..];
    }
  }

  lemma {:induction false} BelowMeansNode<V>(n: Node<V>, t: Topic, u: Topic, zero: V)
    requires t <= u && At(n, u, zero) != zero
    ensures HasNode(n, t)
    decreases |t|
  {
    if t != [] {
      assert t[1..] <= u[1..];
      BelowMeansNode(Kid(n, t[0]).value, t[1..], u[1..], zero);
    }
  }

  /** Below the root, a compact trie has a node at `t` exactly when something is stored at `t` or at an
      extension of it. */
  lemma NodeIff<V>(n: Node<V>, t: Topic, zero: V)
    requires Compact(n, zero) && t != []
    ensures HasNode(n, t) <==> exists u :: t <= u && At(n, u, zero) != zero
  {
    if HasNode(n, t) {
      var u := NodeMeansBelow(n, t, zero);
    }
    forall u | t <= u && At(n, u, zero) != zero ensures HasNode(n, t) {
      BelowMeansNode(n, t, u, zero);
    }
  }

  lemma AtNeedsNode<V>(n: Node<V>, t: Topic, zero: V)
    ensures !HasNode(n, t) ==> At(n, t, zero) == zero
  {
  }
}
