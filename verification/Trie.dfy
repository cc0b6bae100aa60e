/** `trie_t`: the methods change the nodes in place, and each is proved to turn the value that the nodes
    stand for into what `Topics` says. */
module Trie {
  import opened Options
  import opened Bytes
  import opened Tree
  import opened Listing
  import opened Topics
  import opened TrieNodes

  /** The recursive call of `add`. */
  method AddBelow(node: TrieNode<nat>, next: TrieNode<nat>, ghost i: nat, prefix: Topic) returns (fresh_: bool)
    requires node.Valid() && i < |node.kids| && node.kids[i] == next && node.min + i < 256
    requires Canonical(next.tree)
    modifies node.Repr
    ensures node.Valid() && fresh(node.Repr - old(node.Repr))
    ensures node.tree == SetKid(old(node.tree), old(node.min) + i, Some(Topics.Add(old(next.tree), prefix)))
    ensures fresh_ == (Count(old(next.tree), prefix) == 0)
    decreases |prefix|, 1
  {
    fresh_ := Add(next, prefix);
    assert node.AllBut(i);
    node.Refresh(i);
  }

  /** Make room for `c` and find or create the child for it. */
  method Descend(node: TrieNode<nat>, c: Byte) returns (next: TrieNode<nat>)
    requires node.Valid() && Tight(node.tree)
    modifies node`min, node`live, node`kids, node`tree, node`Repr
    ensures node.Valid() && fresh(node.Repr - old(node.Repr))
    ensures InRange(node.tree, c) && node.kids[c - node.min] == next
    ensures var g := Widen(old(node.tree), c);
            node.tree == SetKid(g, c, Some(g.kids[c - g.min].GetOr(Leaf(0))))
  {
    AddTables(node.tree, c);
    hide Tight, Widen;
    node.Extend(c);
    next := node.EnsureKid(c, 0);
    assert if |node.kids| == 1 then node.live == 1 else node.live > 1;
  }

  /** Subscribe once more; was the topic new? */
  method Add(node: TrieNode<nat>, prefix: Topic) returns (fresh_: bool)
    requires node.Valid() && Canonical(node.tree)
    modifies node.Repr
    ensures node.Valid() && fresh(node.Repr - old(node.Repr))
    ensures node.tree == Topics.Add(old(node.tree), prefix)
    ensures fresh_ == (Count(old(node.tree), prefix) == 0)
    decreases |prefix|, 0
  {
    if |prefix| == 0 {
      node.val := node.val + 1;
      node.tree := node.tree.(val := node.val);
      return node.val == 1;
    }
    var c := prefix[0];
    AddUnfold(node.tree, prefix);
    hide Topics.Add, Compact, Widen, SetKid, At;
    var next := Descend(node, c);
    fresh_ := AddBelow(node, next, c - node.min, prefix[1..]);
  }

  /** Walk along the message until a subscription is met. */
  method Check(node: TrieNode<nat>, data: Topic) returns (found: bool)
    requires node.Valid() && Canonical(node.tree)
    ensures found == Topics.Check(node.tree, data)
  {
    var current: TrieNode<nat>, rest := node, data;
    while true
      invariant current.Valid() && Canonical(current.tree)
      invariant Topics.Check(current.tree, rest) == Topics.Check(node.tree, data)
      decreases |rest|
    {
      if current.val > 0 {
        return true;
      }
      if |rest| == 0 {
        return false;
      }
      var c := rest[0];
      if c < current.min || c >= current.min + |current.kids| {
        return false;
      }
      if |current.kids| == 1 {
        current := current.kids[0];
      } else {
        var next := current.kids[c - current.min];
        if next == null {
          return false;
        }
        current := next;
      }
      rest := rest[1..];
    }
  }

  /** The topics below the child at entry `c`, if there is one. */
  method ApplyEntry(node: TrieNode<nat>, c: nat, path: Topic, ghost n: Node<nat>) returns (calls: seq<Topic>)
    requires node.Valid() && Canonical(n) && node.tree == n && c < |node.kids|
    ensures calls == ListedByKid(n, Stored(), path, c)
    decreases n, 0
  {
    ByKid(n, Stored(), path, c);
    hide Listed, ListedBelow, ListedByKid, Live;
    if node.kids[c] == null {
      return [];
    }
    calls := ApplyHelper(node.kids[c], path + [node.min + c], n.kids[c].value);
  }

  method ApplyTable(node: TrieNode<nat>, path: Topic, ghost n: Node<nat>) returns (calls: seq<Topic>)
    requires node.Valid() && Canonical(n) && node.tree == n
    ensures calls == ListedBelow(n, Stored(), path, |n.kids|)
    decreases n, 1
  {
    ListedSplit(n, Stored(), path);
    calls := [];
    var c := 0;
    assert |node.kids| == |n.kids|;
    while c < |node.kids|
      invariant c <= |node.kids| && calls == ListedBelow(n, Stored(), path, c)
    {
      ByKid(n, Stored(), path, c);
      hide *;
      var more := ApplyEntry(node, c, path, n);
      calls := calls + more;
      c := c + 1;
    }
  }

  /** `apply_helper`: list the topics below this node, whose path is `path`. `n` is the node's value. */
  method ApplyHelper(node: TrieNode<nat>, path: Topic, ghost n: Node<nat>) returns (calls: seq<Topic>)
    requires node.Valid() && Canonical(n) && node.tree == n
    ensures calls == Listed(n, Stored(), path)
    decreases n, 2
  {
    calls := if node.val > 0 then [path] else [];
    ListedSplit(n, Stored(), path);
    hide Listed, ListedBelow, Live;
    if |node.kids| > 0 {
      var more := ApplyTable(node, path, n);
      calls := calls + more;
    }
  }

  method Apply(node: TrieNode<nat>) returns (calls: seq<Topic>)
    requires node.Valid() && Canonical(node.tree)
    ensures calls == Applied(node.tree)
  {
    calls := ApplyHelper(node, [], node.tree);
  }

  // ----- removing

  /** The end of `rm`: the child for `c`, one of several, was dropped. With one child left, the source takes
      it from the other end of the table without looking for it. */
  method CompactAfter(node: TrieNode<nat>, c: Byte)
    requires node.Valid() && |node.kids| > 1 && node.min + |node.kids| <= 256 && InRange(node.tree, c)
    requires node.live == Live(node.tree.kids) && node.live > 0
    requires forall i :: 0 <= i < |node.kids| && (i == 0 || i == |node.kids| - 1) && node.min + i != c ==> node.kids[i] != null
    requires node.kids[c - node.min] == null
    modifies node`kids, node`min, node`tree
    ensures node.Valid() && node.tree == Trim(old(node.tree))
  {
    if node.live == 1 {
      OneEnd(node.tree.kids, c - node.min);
      var i := if c == node.min then |node.kids| - 1 else 0;
      assert c == node.min || c == node.min + |node.kids| - 1;
      node.Cut(i, i + 1);
    } else if c == node.min {
      var i := node.FirstLive();
      TailUnique(node.tree.kids, 0);
      node.Cut(i, |node.kids|);
    } else if c == node.min + |node.kids| - 1 {
      var i := node.LastLive();
      LeadUnique(node.tree.kids, 0);
      node.Cut(0, |node.kids| - i);
    } else {
      LeadUnique(node.tree.kids, 0);
      TailUnique(node.tree.kids, 0);
    }
  }

  /** Drop the useless child for `c` and compact what is left. */
  method PruneEntry(node: TrieNode<nat>, c: Byte)
    requires node.Valid() && Tight(node.tree) && InRange(node.tree, c) && node.kids[c - node.min] != null
    modifies node`kids, node`live, node`min, node`tree
    ensures node.Valid() && node.tree == Trim(SetKid(old(node.tree), c, None))
  {
    LiveUpdate(node.tree.kids, c - node.min, None);
    LiveSome(node.tree.kids, c - node.min);
    node.DropEntry(c - node.min);
    if |node.kids| == 1 {
      NullIsDead(node.tree.kids);
      node.Clear();
    } else {
      EndsAreLive(node.tree.kids, c - node.min);
      CompactAfter(node, c);
    }
  }

  /** The recursive call of `rm`. */
  method RmBelow(node: TrieNode<nat>, next: TrieNode<nat>, ghost i: nat, prefix: Topic) returns (last: bool)
    requires node.Valid() && i < |node.kids| && node.kids[i] == next && node.min + i < 256
    requires Canonical(next.tree)
    modifies node.Repr
    ensures node.Valid() && fresh(node.Repr - old(node.Repr)) && node.kids == old(node.kids)
    ensures next.tree == Topics.Rm(old(next.tree), prefix) && last == (Count(old(next.tree), prefix) == 1)
    ensures node.tree == SetKid(old(node.tree), old(node.min) + i, Some(next.tree))
    decreases |prefix|, 1
  {
    last := Rm(next, prefix);
    assert node.AllBut(i);
    node.Refresh(i);
  }

  /** `rm` at a node above the topic: remove below, then prune. */
  method RmThrough(node: TrieNode<nat>, next: TrieNode<nat>, c: Byte, prefix: Topic) returns (last: bool)
    requires node.Valid() && Tight(node.tree) && InRange(node.tree, c) && node.kids[c - node.min] == next
    requires Canonical(next.tree)
    modifies node.Repr
    ensures node.Valid() && fresh(node.Repr - old(node.Repr))
    ensures last == (Count(old(next.tree), prefix) == 1)
    ensures node.tree == Prune(old(node.tree), c, Topics.Rm(old(next.tree), prefix), 0)
    decreases |prefix|, 2
  {
    ghost var n := node.tree;
    last := RmBelow(node, next, c - node.min, prefix);
    hide Topics.Rm, Trim;
    SetKidTight(n, c, next.tree);
    assert node.min == n.min && node.kids[c - node.min] == next && next.Valid();
    assert next.IsRedundant(0) <==> Redundant(next.tree, 0);
    if next.IsRedundant(0) {
      PruneEntry(node, c);
    }
  }

  /** Unsubscribe once; was it the last time? */
  method Rm(node: TrieNode<nat>, prefix: Topic) returns (last: bool)
    requires node.Valid() && Canonical(node.tree)
    modifies node.Repr
    ensures node.Valid() && fresh(node.Repr - old(node.Repr))
    ensures node.tree == Topics.Rm(old(node.tree), prefix) && last == (Count(old(node.tree), prefix) == 1)
    decreases |prefix|, 0
  {
    if |prefix| == 0 {
      if node.val == 0 {
        return false;
      }
      node.val := node.val - 1;
      node.tree := node.tree.(val := node.val);
      return node.val == 0;
    }
    var c := prefix[0];
    RmUnfold(node.tree, prefix);
    hide Topics.Rm, Prune;
    if |node.kids| == 0 || c < node.min || c >= node.min + |node.kids| {
      return false;
    }
    var next := node.kids[c - node.min];
    if next == null {
      return false;
    }
    last := RmThrough(node, next, c, prefix[1..]);
  }

  lemma AddUnfold(n: Node<nat>, t: Topic)
    requires Canonical(n) && t != []
    ensures var g := Widen(n, t[0]);
            var k := g.kids[t[0] - g.min].GetOr(Leaf(0));
            && Canonical(k)
            && Topics.Add(n, t) == SetKid(SetKid(g, t[0], Some(k)), t[0], Some(Topics.Add(k, t[1..])))
            && Count(n, t) == Count(k, t[1..])
  {
    WidenKids(n, t[0], t[0]);
    LeafAt(0, t[1..]);
    LiveNulls<nat>([]);
  }

  /** What the source asserts about a table that got a child. */
  lemma AddTables(n: Node<nat>, c: Byte)
    requires Tight(n)
    ensures var g := Widen(n, c);
            var m := SetKid(g, c, Some(g.kids[c - g.min].GetOr(Leaf(0))));
            if |m.kids| == 1 then m.live == 1 else m.live > 1
  {
    var g := Widen(n, c);
    var k := g.kids[c - g.min].GetOr(Leaf(0));
    GrowTight(n, c, k);
    var ks := SetKid(g, c, Some(k)).kids;
    LiveUpdate(ks, 0, None);
    if |ks| == 1 {
      LiveNulls<nat>([None]);
      assert ks[0 := None] == [None];
    } else {
      LiveSome(ks[0 := None], |ks| - 1);
    }
  }

  /** With one child left and none at `i`, the child is at the end of the table away from `i`. */
  lemma OneEnd<V>(ks: seq<Option<Node<V>>>, i: nat)
    requires |ks| > 1 && i < |ks| && Live(ks) == 1
    requires forall j :: 0 <= j < |ks| && (j == 0 || j == |ks| - 1) && j != i ==> ks[j].Some?
    requires ks[i] == None
    ensures i == 0 || i == |ks| - 1
    ensures var e := if i == 0 then |ks| - 1 else 0; Lead(ks) == e && Tail(ks) == |ks| - 1 - e
  {
    var e := if i == 0 then |ks| - 1 else 0;
    OnlyOne(ks, e);
  }

  lemma RmUnfold(n: Node<nat>, t: Topic)
    requires Canonical(n) && t != []
    ensures Kid(n, t[0]) == None ==> Topics.Rm(n, t) == n && Count(n, t) == 0
    ensures Kid(n, t[0]).Some? ==>
              var k := Kid(n, t[0]).value;
              && Canonical(k) && Count(n, t) == Count(k, t[1..])
              && Topics.Rm(n, t) == Prune(n, t[0], Topics.Rm(k, t[1..]), 0)
  {
    if Kid(n, t[0]).Some? {
      assert SetKid(n, t[0], Kid(n, t[0])) == n;
    }
  }
}
