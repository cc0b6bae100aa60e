/** The nodes of `mtrie_t` and `trie_t` as linked objects changed in place, with the steps that both
    classes write out alike. Every node carries, for the proof only, the value in `Tree` that the nodes
    below it stand for. */
module TrieNodes {
  import opened Options
  import opened Bytes
  import opened Tree

  class TrieNode<V(==)> {
    /** The pipes or the reference count. */
    var val: V
    var min: Byte
    var live: nat
    /** The child table; its length is the source's `count`. */
    var kids: seq<TrieNode?<V>>

    ghost var Repr: set<TrieNode<V>>
    ghost var tree: Node<V>

    /** The nodes below are valid and live in separate parts of `Repr`. */
    ghost predicate Shape()
      reads this, Repr
      decreases Repr, 0
    {
      && this in Repr
      && (forall i :: 0 <= i < |kids| && kids[i] != null ==>
            kids[i] in Repr && kids[i].Repr <= Repr && this !in kids[i].Repr && kids[i].Valid())
      && (forall i, j :: 0 <= i < j < |kids| && kids[i] != null && kids[j] != null ==> kids[i].Repr !! kids[j].Repr)
    }

    /** `tree` describes this node and, through its children, the nodes below. */
    ghost predicate Shows(t: Node<V>)
      reads this, kids
    {
      && t.val == val && t.min == min && t.live == live && |t.kids| == |kids|
      && (forall i :: 0 <= i < |kids| ==> t.kids[i] == if kids[i] == null then None else Some(kids[i].tree))
    }

    ghost predicate Valid()
      reads this, Repr
      ensures Valid() ==> this in Repr
      decreases Repr, 1
    {
      Shape() && Shows(tree)
    }

    constructor (zero: V)
      ensures Valid() && fresh(Repr) && tree == Leaf(zero)
    {
      val, min, live, kids := zero, 0, 0, [];
      Repr := {this};
      tree := Leaf(zero);
    }

    /** The entry of the widened table at `i`, when it starts at character `lo`. */
    ghost function Moved(lo: Byte, i: int): TrieNode?<V>
      reads this
    {
      if 0 <= i - (min - lo) < |kids| then kids[i - (min - lo)] else null
    }

    /** The first half of `add_helper`: a table that also covers `c`. */
    method Extended(c: Byte) returns (lo: Byte, table: seq<TrieNode?<V>>)
      requires Shows(tree) && (c < min || c >= min + |kids|)
      ensures lo == Widen(tree, c).min && |table| == |Widen(tree, c).kids|
      ensures forall i :: 0 <= i < |table| ==> table[i] == Moved(lo, i)
    {
      if |kids| == 0 {
        return c, [null];
      } else if |kids| == 1 {
        var oldc, oldp := min, kids[0];
        var count := (if min < c then c - min else min - c) + 1;
        table := seq(count, _ => null);
        lo := if min < c then min else c;
        table := table[oldc - lo := oldp];
      } else if min < c {
        var oldCount := |kids|;
        return min, kids + seq(c - min + 1 - oldCount, _ => null);
      } else {
        return c, seq(min - c, _ => null) + kids;
      }
    }

    method Extend(c: Byte)
      requires Valid()
      modifies this`min, this`kids, this`tree
      ensures Valid() && tree == Widen(old(tree), c)
    {
      if c < min || c >= min + |kids| {
        var lo, table := Extended(c);
        WidenEntries(tree, c);
        hide Widen;
        Replace(table, min - lo);
        Rebase(lo, Widen(tree, c));
      }
    }

    /** Use another table, in which the children are moved by `off` entries. */
    method Replace(table: seq<TrieNode?<V>>, ghost off: int)
      requires Shape()
      requires forall i :: 0 <= i < |table| && table[i] != null ==> 0 <= i - off < |kids| && table[i] == kids[i - off]
      modifies this`kids
      ensures Shape() && kids == table
    {
      kids := table;
    }

    /** The second half of `add_helper`: a child for `c`, created if there is none. */
    method EnsureKid(c: Byte, zero: V) returns (next: TrieNode<V>)
      requires Valid() && InRange(tree, c)
      modifies this`live, this`kids, this`tree, this`Repr
      ensures Valid() && InRange(tree, c) && kids[c - min] == next && fresh(Repr - old(Repr))
      ensures tree == SetKid(old(tree), c, Some(old(tree).kids[c - old(tree).min].GetOr(Leaf(zero))))
    {
      var i := c - min;
      if kids[i] == null {
        var node := new TrieNode<V>(zero);
        kids := kids[i := node];
        live := live + 1;
        Repr := Repr + node.Repr;
        tree := SetKid(tree, c, Some(node.tree));
      } else {
        assert tree == SetKid(tree, c, tree.kids[i]);
      }
      next := kids[i];
    }

    /** Everything below is in order except that child `i` has changed since `tree` was recorded. */
    ghost predicate AllBut(i: nat)
      reads *
    {
      && i < |kids| && kids[i] != null && kids[i].Valid() && this in Repr && this !in kids[i].Repr
      && (forall j :: 0 <= j < |kids| && j != i && kids[j] != null ==>
            kids[j] in Repr && kids[j].Repr <= Repr && this !in kids[j].Repr && kids[j].Valid()
            && kids[j].Repr !! kids[i].Repr)
      && (forall j, k :: 0 <= j < k < |kids| && j != i && k != i && kids[j] != null && kids[k] != null ==>
            kids[j].Repr !! kids[k].Repr)
      && tree.val == val && tree.min == min && tree.live == live && |tree.kids| == |kids|
      && tree.kids[i].Some?
      && (forall j :: 0 <= j < |kids| && j != i ==> tree.kids[j] == if kids[j] == null then None else Some(kids[j].tree))
    }

    /** Take the changed child into account. */
    ghost method Refresh(i: nat)
      requires AllBut(i) && min + i < 256
      modifies this`Repr, this`tree
      ensures Valid() && Repr == old(Repr) + kids[i].Repr
      ensures tree == SetKid(old(tree), min + i, Some(kids[i].tree))
    {
      Repr := Repr + kids[i].Repr;
      tree := SetKid(tree, min + i, Some(kids[i].tree));
    }

    predicate IsRedundant(zero: V)
      reads this
    {
      val == zero && live == 0
    }

    // ----- removing one subscription

    /** Drop the child at entry `i`. */
    method DropEntry(i: nat)
      requires Valid() && i < |kids| && kids[i] != null && min + i < 256 && live > 0
      modifies this`kids, this`live, this`tree
      ensures Valid() && tree == SetKid(old(tree), min + i, None)
    {
      kids := kids[i := null];
      live := live - 1;
      tree := SetKid(tree, min + i, None);
    }

    /** The first entry with a child. */
    method FirstLive() returns (i: nat)
      requires Valid() && Live(tree.kids) > 0
      ensures i < |kids| && i == Lead(tree.kids)
    {
      ghost var w := LiveWitness(tree.kids);
      i := 0;
      while kids[i] == null
        invariant i <= w < |kids| && kids[w] != null
        invariant forall j :: 0 <= j < i ==> kids[j] == null
        decreases w - i
      {
        i := i + 1;
      }
      LeadUnique(tree.kids, i);
    }

    /** The number of entries without a child at the right end. */
    method LastLive() returns (i: nat)
      requires Valid() && Live(tree.kids) > 0
      ensures i < |kids| && i == Tail(tree.kids)
    {
      ghost var w := LiveWitness(tree.kids);
      i := 0;
      while kids[|kids| - 1 - i] == null
        invariant i <= |kids| - 1 - w && w < |kids| && kids[w] != null
        invariant forall j :: |kids| - i <= j < |kids| ==> kids[j] == null
        decreases |kids| - 1 - w - i
      {
        i := i + 1;
      }
      TailUnique(tree.kids, i);
    }

    method Slice(i: nat, j: nat)
      requires Valid() && i <= j <= |kids|
      modifies this`kids
      ensures Shape() && kids == old(kids)[i..j]
      ensures forall x :: 0 <= x < |kids| ==>
                tree.kids[i..j][x] == if kids[x] == null then None else Some(kids[x].tree)
    {
      ghost var ks := kids;
      kids := kids[i..j];
      assert forall x :: 0 <= x < |kids| ==> kids[x] == ks[i + x];
    }

    /** The table now starts at `lo` and is described by `t`. */
    method Rebase(lo: Byte, ghost t: Node<V>)
      requires Shape() && t.val == val && t.min == lo && t.live == live && |t.kids| == |kids|
      requires forall i :: 0 <= i < |kids| ==> t.kids[i] == if kids[i] == null then None else Some(kids[i].tree)
      modifies this`min, this`tree
      ensures Valid() && tree == t
    {
      min := lo;
      tree := t;
    }

    /** Keep the entries from `i` up to `j`. */
    method Cut(i: nat, j: nat)
      requires Valid() && i < j <= |kids| && min + |kids| <= 256
      requires i == Lead(tree.kids) && j == |kids| - Tail(tree.kids)
      modifies this`kids, this`min, this`tree
      ensures Valid() && tree == Trim(old(tree))
    {
      ghost var t := tree.(min := min + i, kids := tree.kids[i..j]);
      assert t == Trim(tree);
      hide Lead, Tail, Trim;
      Slice(i, j);
      Rebase(min + i, t);
    }

    /** The table lost its only child. */
    method Clear()
      requires Valid() && Live(tree.kids) == 0
      modifies this`kids, this`tree
      ensures Valid() && tree == Trim(old(tree))
    {
      NoneLive(tree.kids);
      kids := [];
      tree := tree.(kids := []);
    }
  }

  lemma NotAllDead<V>(ks: seq<Option<Node<V>>>)
    requires Live(ks) > 0
    ensures Lead(ks) < |ks| && Tail(ks) < |ks| && Lead(ks) + Tail(ks) < |ks|
  {
    var w := LiveWitness(ks);
  }

  lemma {:induction false} NoneLive<V>(kids: seq<Option<Node<V>>>)
    requires Live(kids) == 0
    ensures Lead(kids) == |kids|
  {
    if Lead(kids) < |kids| { LiveSome(kids, Lead(kids)); }
  }

  lemma OnlyOne<V>(kids: seq<Option<Node<V>>>, i: nat)
    requires Live(kids) == 1 && i < |kids| && kids[i].Some?
    ensures Lead(kids) == i && Tail(kids) == |kids| - 1 - i
  {
    forall j | 0 <= j < |kids| && j != i ensures kids[j] == None {
      LiveUpdate(kids, i, None);
      if kids[j].Some? { LiveSome(kids[i := None], j); }
    }
    LeadUnique(kids, i);
    TailUnique(kids, |kids| - 1 - i);
  }

  lemma NullIsDead<V>(kids: seq<Option<Node<V>>>)
    requires |kids| == 1 && kids[0] == None
    ensures Live(kids) == 0
  {
    LiveNulls(kids);
  }

  /** A table that had both ends live keeps a child when one entry is dropped. */
  lemma EndsAreLive<V>(kids: seq<Option<Node<V>>>, i: nat)
    requires |kids| > 1 && i < |kids|
    requires forall j :: 0 <= j < |kids| && (j == 0 || j == |kids| - 1) && j != i ==> kids[j].Some?
    ensures Live(kids) > 0
  {
    LiveSome(kids, if i == 0 then |kids| - 1 else 0);
  }

  lemma {:induction false} LeadUnique<V>(kids: seq<Option<Node<V>>>, i: nat)
    requires i < |kids| && kids[i].Some? && forall j :: 0 <= j < i ==> kids[j] == None
    ensures Lead(kids) == i
  {
  }

  lemma {:induction false} TailUnique<V>(kids: seq<Option<Node<V>>>, i: nat)
    requires i < |kids| && kids[|kids| - 1 - i].Some?
    requires forall j :: |kids| - i <= j < |kids| ==> kids[j] == None
    ensures Tail(kids) == i
  {
    assert Tail(kids) >= i;
  }

  lemma WidenEntries<V>(n: Node<V>, c: Byte)
    ensures var g := Widen(n, c);
            && g.val == n.val && g.live == n.live && |g.kids| >= |n.kids|
            && (forall i :: 0 <= i < |g.kids| ==>
                  g.kids[i] == if 0 <= i - (n.min - g.min) < |n.kids| then n.kids[i - (n.min - g.min)] else None)
            && (n.kids != [] ==> 0 <= n.min - g.min && n.min - g.min + |n.kids| <= |g.kids|)
  {
    if !InRange(n, c) && n.kids != [] {
      var k := if n.min < c then c - n.min + 1 - |n.kids| else n.min - c;
      var more := Nulls<V>(k);
      assert Widen(n, c).kids == if n.min < c then n.kids + more else more + n.kids;
      hide Nulls;
    }
  }
}
