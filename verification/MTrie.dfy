/** `mtrie_t`: the methods turn the nodes in place, and each is proved to turn the value that the nodes
    stand for into what `Subscriptions` says. */
module MTrie {
  import opened Options
  import opened Bytes
  import opened Tree
  import opened Listing
  import opened Subscriptions
  import opened TrieNodes

  /** The recursive call of `add_helper`. */
  method AddBelow(node: TrieNode<Pipes>, next: TrieNode<Pipes>, ghost i: nat, prefix: Topic, pipe: Pipe) returns (unique: bool)
    requires node.Valid() && i < |node.kids| && node.kids[i] == next && node.min + i < 256
    modifies node.Repr
    ensures node.Valid() && fresh(node.Repr - old(node.Repr))
    ensures node.tree == SetKid(old(node.tree), old(node.min) + i, Some(Subscriptions.Add(old(next.tree), prefix, pipe)))
    ensures unique == AddIsNew(old(next.tree), prefix)
    decreases |prefix|, 1
  {
    unique := Add(next, prefix, pipe);
    assert node.AllBut(i);
    node.Refresh(i);
  }

  method Add(node: TrieNode<Pipes>, prefix: Topic, pipe: Pipe) returns (unique: bool)
    requires node.Valid()
    modifies node.Repr
    ensures node.Valid() && fresh(node.Repr - old(node.Repr))
    ensures node.tree == Subscriptions.Add(old(node.tree), prefix, pipe)
    ensures unique == AddIsNew(old(node.tree), prefix)
    decreases |prefix|, 0
  {
    if |prefix| == 0 {
      unique := node.val == {};
      node.val := node.val + {pipe};
      node.tree := node.tree.(val := node.val);
      return;
    }
    var c := prefix[0];
    AddUnfold(node.tree, prefix, pipe);
    node.Extend(c);
    var next := node.EnsureKid(c, NOBODY);
    unique := AddBelow(node, next, c - node.min, prefix[1..], pipe);
  }

  /** Follow the message down, calling back the pipes of every node on the way. */
  method Match(node: TrieNode<Pipes>, data: Topic) returns (called: multiset<Pipe>)
    requires node.Valid() && Canonical(node.tree)
    ensures called == Matched(node.tree, data)
  {
    var current: TrieNode<Pipes>, rest: Topic := node, data;
    called := multiset{};
    while true
      invariant current.Valid() && Canonical(current.tree)
      invariant called + Matched(current.tree, rest) == Matched(node.tree, data)
      decreases |rest|
    {
      called := called + multiset(current.val);
      if |rest| == 0 || |current.kids| == 0 {
        break;
      }
      if |current.kids| == 1 {
        if rest[0] != current.min {
          break;
        }
        current := current.kids[0];
      } else {
        if rest[0] < current.min || rest[0] >= current.min + |current.kids| {
          break;
        }
        if current.kids[rest[0] - current.min] == null {
          break;
        }
        current := current.kids[rest[0] - current.min];
      }
      rest := rest[1..];
    }
  }

  /** The end of the prefix `rm_helper`: the child for `c` was dropped from a table. */
  method CompactAfter(node: TrieNode<Pipes>, c: Byte)
    requires node.Valid() && |node.kids| > 1 && node.min + |node.kids| <= 256 && InRange(node.tree, c)
    requires node.live == Live(node.tree.kids) && node.live > 0
    requires forall i :: 0 <= i < |node.kids| && (i == 0 || i == |node.kids| - 1) && node.min + i != c ==> node.kids[i] != null
    requires node.kids[c - node.min] == null
    modifies node`kids, node`min, node`tree
    ensures node.Valid() && node.tree == Trim(old(node.tree))
  {
    if node.live == 1 {
      var i := node.FirstLive();
      OnlyOne(node.tree.kids, i);
      node.Cut(i, i + 1);
    } else if c == node.min {
      var i := node.FirstLive();
      TailUnique(node.tree.kids, 0);
      node.Cut(i, |node.kids|);
    } else if c == node.min + |node.kids| - 1 {
      var i := node.LastLive();
      LeadUnique(node.tree.kids, 0);
      node.Cut(0, |node.kids| - i);
    } else {
      LeadUnique(node.tree.kids, 0);
      TailUnique(node.tree.kids, 0);
    }
  }

  /** The recursive call of the prefix `rm_helper`. */
  method RmBelow(node: TrieNode<Pipes>, next: TrieNode<Pipes>, ghost i: nat, prefix: Topic, pipe: Pipe) returns (last: bool)
    requires node.Valid() && i < |node.kids| && node.kids[i] == next && node.min + i < 256
    requires Canonical(next.tree) && Subscriptions.Rm(next.tree, prefix, pipe).Removed?
    modifies node.Repr
    ensures node.Valid() && fresh(node.Repr - old(node.Repr)) && node.kids == old(node.kids)
    ensures Removed(next.tree, last) == Subscriptions.Rm(old(next.tree), prefix, pipe)
    ensures node.tree == SetKid(old(node.tree), old(node.min) + i, Some(next.tree))
    decreases |prefix|, 1
  {
    last := Rm(next, prefix, pipe);
    assert node.AllBut(i);
    node.Refresh(i);
  }

  /** Drop the useless child for `c` and compact what is left. */
  method PruneEntry(node: TrieNode<Pipes>, c: Byte)
    requires node.Valid() && Tight(node.tree) && InRange(node.tree, c) && node.kids[c - node.min] != null
    modifies node`kids, node`live, node`min, node`tree
    ensures node.Valid() && node.tree == Trim(SetKid(old(node.tree), c, None))
  {
    LiveUpdate(node.tree.kids, c - node.min, None);
    LiveSome(node.tree.kids, c - node.min);
    node.DropEntry(c - node.min);
    if |node.kids| == 1 {
      NullIsDead(node.tree.kids);
      node.Clear();
    } else {
      EndsAreLive(node.tree.kids, c - node.min);
      CompactAfter(node, c);
    }
  }

  /** `rm_helper` at the node of the topic itself. */
  method RmHere(node: TrieNode<Pipes>, pipe: Pipe) returns (last: bool)
    requires node.Valid() && Subscriptions.Rm(node.tree, [], pipe).Removed?
    modifies node`val, node`tree
    ensures node.Valid() && Removed(node.tree, last) == Subscriptions.Rm(old(node.tree), [], pipe)
  {
    if node.val != {} {
      assert pipe in node.val;
      node.val := node.val - {pipe};
    }
    node.tree := node.tree.(val := node.val);
    return node.val == {};
  }

  /** `rm_helper` at a node above the topic: remove below, then prune. */
  method RmThrough(node: TrieNode<Pipes>, next: TrieNode<Pipes>, c: Byte, prefix: Topic, pipe: Pipe) returns (last: bool)
    requires node.Valid() && Tight(node.tree) && InRange(node.tree, c) && node.kids[c - node.min] == next
    requires Canonical(next.tree) && Subscriptions.Rm(next.tree, prefix, pipe).Removed?
    modifies node.Repr
    ensures node.Valid() && fresh(node.Repr - old(node.Repr))
    ensures var r := Subscriptions.Rm(old(next.tree), prefix, pipe);
            r.last == last && node.tree == Prune(old(node.tree), c, r.node, NOBODY)
    decreases |prefix|, 2
  {
    ghost var n := node.tree;
    last := RmBelow(node, next, c - node.min, prefix, pipe);
    hide Subscriptions.Rm, Trim;
    SetKidTight(n, c, next.tree);
    assert node.min == n.min && node.kids[c - node.min] == next && next.Valid();
    ghost var k := next.tree;
    assert Subscriptions.Rm(old(next.tree), prefix, pipe).node == k;
    assert next.IsRedundant(NOBODY) <==> Redundant(k, NOBODY);
    if next.IsRedundant(NOBODY) {
      PruneEntry(node, c);
    }
  }

  /** Remove one subscription. The source asserts that other pipes' topics are not named. */
  method Rm(node: TrieNode<Pipes>, prefix: Topic, pipe: Pipe) returns (last: bool)
    requires node.Valid() && Canonical(node.tree) && Subscriptions.Rm(node.tree, prefix, pipe).Removed?
    modifies node.Repr
    ensures node.Valid() && fresh(node.Repr - old(node.Repr))
    ensures Removed(node.tree, last) == Subscriptions.Rm(old(node.tree), prefix, pipe)
    decreases |prefix|, 0
  {
    if |prefix| == 0 {
      last := RmHere(node, pipe);
      return;
    }
    var c := prefix[0];
    RmUnfold(node.tree, prefix, pipe);
    hide Subscriptions.Rm, Prune;
    if |node.kids| == 0 || c < node.min || c >= node.min + |node.kids| {
      return false;
    }
    var next := node.kids[c - node.min];
    if next == null {
      return false;
    }
    last := RmThrough(node, next, c, prefix[1..], pipe);
  }

  // ----- removing a pipe

  /** The recursive call of the pipe's `rm_helper`. `k` is the value of `next`. */
  method DropBelow(node: TrieNode<Pipes>, next: TrieNode<Pipes>, ghost i: nat, pipe: Pipe, path: Topic, ghost k: Node<Pipes>) returns (calls: seq<Topic>)
    requires node.Valid() && i < |node.kids| && node.kids[i] == next && node.min + i < 256
    requires next.tree == k && Canonical(k)
    modifies node.Repr
    ensures node.Valid() && fresh(node.Repr - old(node.Repr)) && node.kids == old(node.kids)
    ensures next.tree == Drop(k, pipe) && calls == Listed(k, Only(pipe), path)
    ensures node.tree == SetKid(old(node.tree), old(node.min) + i, Some(next.tree))
    decreases k, 4
  {
    calls := DropPipe(next, pipe, path, k);
    assert node.AllBut(i);
    node.Refresh(i);
  }

  /** Remove the pipe below entry `c` and drop the child if it became useless. */
  method DropEntryOf(node: TrieNode<Pipes>, c: nat, pipe: Pipe, path: Topic, ghost k: Node<Pipes>) returns (calls: seq<Topic>)
    requires node.Valid() && c < |node.kids| && node.kids[c] != null && node.min + |node.kids| <= 256
    requires node.kids[c].tree == k && Canonical(k) && node.live == Live(node.tree.kids)
    modifies node.Repr
    ensures node.Valid() && fresh(node.Repr - old(node.Repr)) && |node.kids| == old(|node.kids|)
    ensures calls == Listed(k, Only(pipe), path)
    ensures var k' := Drop(k, pipe);
            node.tree == SetKid(old(node.tree), old(node.min) + c, if Redundant(k', NOBODY) then None else Some(k'))
    ensures node.live == Live(node.tree.kids) && node.min == old(node.min)
    ensures node.kids[c] == null <==> Redundant(Drop(k, pipe), NOBODY)
    decreases k, 5
  {
    ghost var n := node.tree;
    LiveSome(n.kids, c);
    calls := DropBelow(node, node.kids[c], c, pipe, path, k);
    hide Drop, Listed;
    LiveUpdate(n.kids, c, Some(Drop(k, pipe)));
    LiveUpdate(n.kids, c, None);
    assert node.kids[c].Valid() && node.kids[c].tree == Drop(k, pipe);
    if node.kids[c].IsRedundant(NOBODY) {
      node.DropEntry(c);
    }
  }

  /** One round of the loop over the table. */
  method DropRound(node: TrieNode<Pipes>, c: nat, pipe: Pipe, path: Topic, ghost n: Node<Pipes>) returns (calls: seq<Topic>)
    requires node.Valid() && Canonical(n) && c < |node.kids| == |n.kids| && node.tree == Mixed(n, pipe, c)
    modifies node.Repr
    ensures node.Valid() && fresh(node.Repr - old(node.Repr)) && |node.kids| == old(|node.kids|)
    ensures node.tree == Mixed(n, pipe, c + 1) && calls == ListedByKid(n, Only(pipe), path, c)
    ensures node.min == n.min
    ensures node.kids[c] != null <==> DropKid(n, pipe, c).Some?
    decreases n, 0
  {
    RoundFacts(n, pipe, path, c);
    assert node.min == n.min && node.live == Live(node.tree.kids);
    assert if node.kids[c] == null then n.kids[c].None? else n.kids[c] == Some(node.kids[c].tree);
    hide *;
    if node.kids[c] == null {
      return [];
    }
    calls := DropEntryOf(node, c, pipe, path + [node.min + c], n.kids[c].value);
  }

  /** What one round has to do. */
  lemma RoundFacts(n: Node<Pipes>, p: Pipe, path: Topic, c: nat)
    requires Canonical(n) && c < |n.kids|
    ensures var m, m' := Mixed(n, p, c), Mixed(n, p, c + 1);
            && n.min + |n.kids| <= 256 && |m.kids| == |m'.kids| == |n.kids|
            && m.kids[c] == n.kids[c] && m.min == m'.min == n.min && m.live == Live(m.kids)
            && m'.kids[c] == DropKid(n, p, c)
            && ListedByKid(n, Only(p), path, c) ==
               (if n.kids[c].Some? then Listed(n.kids[c].value, Only(p), path + [n.min + c]) else [])
            && (n.kids[c].None? ==> m' == m && DropKid(n, p, c).None?)
            && (n.kids[c].Some? ==>
                  var k := n.kids[c].value;
                  && k < n && Canonical(k) && (DropKid(n, p, c).None? <==> Redundant(Drop(k, p), NOBODY))
                  && m' == SetKid(m, n.min + c, if Redundant(Drop(k, p), NOBODY) then None else Some(Drop(k, p))))
  {
    MixedEntry(n, p, c);
    ByKid(n, Only(p), path, c);
    MixedStep(n, p, c);
    hide Mixed, Drop, Listed, Live, DropKids, ListedByKid, SetKid, Redundant;
  }

  /** The loop over the table, with the range of the characters that keep a child. */
  method DropTable(node: TrieNode<Pipes>, pipe: Pipe, path: Topic, ghost n: Node<Pipes>) returns (calls: seq<Topic>, newMin: nat, newMax: nat)
    requires node.Valid() && Canonical(n) && node.tree == Mixed(n, pipe, 0) && |node.kids| > 1
    modifies node.Repr
    ensures node.Valid() && fresh(node.Repr - old(node.Repr)) && |node.kids| == |n.kids|
    ensures node.tree == Mixed(n, pipe, |n.kids|) && calls == ListedBelow(n, Only(pipe), path, |n.kids|)
    ensures newMin == FirstOf(n, DropKids(n, pipe, |n.kids|)) && newMax == LastOf(n, DropKids(n, pipe, |n.kids|))
    decreases n, 1
  {
    calls := [];
    newMin, newMax := node.min + |node.kids| - 1, node.min;
    var c := 0;
    TableStart(n, pipe, path);
    assert node.min == n.min && |node.kids| == |n.kids|;
    hide *;
    while c < |node.kids|
      invariant node.Valid() && fresh(node.Repr - old(node.Repr)) && c <= |node.kids| == |n.kids| && node.min == n.min
      invariant node.tree == Mixed(n, pipe, c) && calls == ListedBelow(n, Only(pipe), path, c)
      invariant newMin == FirstOf(n, DropKids(n, pipe, c)) && newMax == LastOf(n, DropKids(n, pipe, c))
    {
      var more := DropRound(node, c, pipe, path, n);
      calls := calls + more;
      TableStep(n, pipe, path, c);
      OneMoreEntry(n, DropKids(n, pipe, c), DropKid(n, pipe, c));
      if node.kids[c] != null {
        if c + node.min < newMin {
          newMin := c + node.min;
        }
        if c + node.min > newMax {
          newMax := c + node.min;
        }
      }
      c := c + 1;
    }
  }

  /** The case of a single child. */
  method DropSingle(node: TrieNode<Pipes>, pipe: Pipe, path: Topic, ghost n: Node<Pipes>) returns (calls: seq<Topic>)
    requires node.Valid() && Canonical(n) && node.tree == Mixed(n, pipe, 0) && |node.kids| == 1
    modifies node.Repr
    ensures node.Valid() && fresh(node.Repr - old(node.Repr))
    ensures node.tree == Drop(n, pipe) && calls == ListedBelow(n, Only(pipe), path, 1)
    decreases n, 1
  {
    SingleEntry(n, pipe, path);
    DropIsTrim(n, pipe);
    hide Mixed, Drop, ListedBelow, ListedByKid, DropKid, node.Shape;
    calls := DropRound(node, 0, pipe, path, n);
    EndSingle(node);
  }

  method EndSingle(node: TrieNode<Pipes>)
    requires node.Valid() && |node.kids| == 1 && node.min < 256
    modifies node`kids, node`tree
    ensures node.Valid() && node.tree == Trim(old(node.tree))
  {
    if node.kids[0] == null {
      NullIsDead(node.tree.kids);
      node.Clear();
    } else {
      LeadUnique(node.tree.kids, 0);
      TailUnique(node.tree.kids, 0);
    }
  }

  /** The end of the pipe's `rm_helper`: bring the table to the range that is left. */
  method Compacted(node: TrieNode<Pipes>, newMin: nat, newMax: nat)
    requires node.Valid() && |node.kids| > 1 && node.min + |node.kids| <= 256 && node.live == Live(node.tree.kids)
    requires node.live > 0 ==> newMin == node.min + Lead(node.tree.kids) && newMax == node.min + |node.kids| - 1 - Tail(node.tree.kids)
    modifies node`kids, node`min, node`tree
    ensures node.Valid() && node.tree == Trim(old(node.tree))
  {
    if node.live == 0 {
      node.Clear();
    } else {
      // One live child moves to the single-node form, more are cut to their range.
      NotAllDead(node.tree.kids);
      if node.live == 1 {
        OnlyOne(node.tree.kids, Lead(node.tree.kids));
        node.Cut(newMin - node.min, newMin - node.min + 1);
      } else if newMin > node.min || newMax < node.min + |node.kids| - 1 {
        node.Cut(newMin - node.min, newMax - node.min + 1);
      }
    }
  }

  /** Remove the pipe from everything below this node. */
  method DropChildren(node: TrieNode<Pipes>, pipe: Pipe, path: Topic, ghost n: Node<Pipes>) returns (calls: seq<Topic>)
    requires node.Valid() && Canonical(n) && node.tree == Mixed(n, pipe, 0) && |node.kids| > 0
    modifies node.Repr
    ensures node.Valid() && fresh(node.Repr - old(node.Repr))
    ensures node.tree == Drop(n, pipe) && calls == ListedBelow(n, Only(pipe), path, |n.kids|)
    decreases n, 2
  {
    DropIsTrim(n, pipe);
    MixedLast(n, pipe);
    assert |n.kids| == |node.kids| by { assert |Mixed(n, pipe, 0).kids| == |n.kids|; }
    hide Mixed, Drop, ListedBelow, Trim, Lead, Tail, Live, node.Shape;
    if |node.kids| == 1 {
      calls := DropSingle(node, pipe, path, n);
    } else {
      var newMin, newMax;
      calls, newMin, newMax := DropTable(node, pipe, path, n);
      Compacted(node, newMin, newMax);
    }
  }

  /** Remove the pipe from this node. */
  method DropHere(node: TrieNode<Pipes>, pipe: Pipe, path: Topic) returns (calls: seq<Topic>)
    requires node.Valid()
    modifies node`val, node`tree
    ensures node.Valid() && node.tree == old(node.tree).(val := old(node.tree).val - {pipe})
    ensures calls == if old(node.tree).val == {pipe} then [path] else []
  {
    calls := if node.val == {pipe} then [path] else [];
    node.val := node.val - {pipe};
    node.tree := node.tree.(val := node.val);
  }

  /** Remove the pipe from this node and everything below, whose path is `path`; list the topics that
      lost their last pipe. */
  method DropPipe(node: TrieNode<Pipes>, pipe: Pipe, path: Topic, ghost n: Node<Pipes>) returns (calls: seq<Topic>)
    requires node.Valid() && Canonical(n) && node.tree == n
    modifies node.Repr
    ensures node.Valid() && fresh(node.Repr - old(node.Repr))
    ensures node.tree == Drop(n, pipe) && calls == Listed(n, Only(pipe), path)
    decreases n, 3
  {
    assert |node.kids| == |n.kids|;
    MixedFirst(n, pipe);
    DropLeaf(n, pipe, path);
    hide *;
    calls := DropHere(node, pipe, path);
    if |node.kids| == 0 {
      return;
    }
    var more := DropChildren(node, pipe, path, n);
    calls := calls + more;
  }

  /** `rm` of a pipe, with the topics it calls back. */
  method RmPipe(node: TrieNode<Pipes>, pipe: Pipe) returns (calls: seq<Topic>)
    requires node.Valid() && Canonical(node.tree)
    modifies node.Repr
    ensures node.Valid() && fresh(node.Repr - old(node.Repr))
    ensures node.tree == Drop(old(node.tree), pipe) && calls == Subscriptions.Reported(old(node.tree), pipe)
  {
    calls := DropPipe(node, pipe, [], node.tree);
  }

  /** The node while `p` is being removed: the first `c` entries are done. */
  ghost function Mixed(n: Node<Pipes>, p: Pipe, c: nat): Node<Pipes>
    requires c <= |n.kids|
  {
    var ks := DropKids(n, p, c) + n.kids[c..];
    Node(n.val - {p}, n.min, Live(ks), ks)
  }

  lemma SingleEntry(n: Node<Pipes>, p: Pipe, path: Topic)
    requires |n.kids| == 1
    ensures ListedBelow(n, Only(p), path, 1) == ListedByKid(n, Only(p), path, 0)
  {
    assert ListedBelow(n, Only(p), path, 0) == [];
  }

  lemma MixedFirst(n: Node<Pipes>, p: Pipe)
    requires Tight(n)
    ensures Mixed(n, p, 0) == n.(val := n.val - {p})
  {
    assert DropKids(n, p, 0) + n.kids[0..] == n.kids;
  }

  lemma DropLeaf(n: Node<Pipes>, p: Pipe, path: Topic)
    ensures |n.kids| == 0 ==> Drop(n, p) == n.(val := n.val - {p}, live := 0) && ListedBelow(n, Only(p), path, 0) == []
    ensures Listed(n, Only(p), path) == (if n.val == {p} then [path] else []) + ListedBelow(n, Only(p), path, |n.kids|)
  {
  }

  lemma DropIsTrim(n: Node<Pipes>, p: Pipe)
    ensures Drop(n, p) == Trim(Mixed(n, p, |n.kids|))
  {
    assert DropKids(n, p, |n.kids|) + n.kids[|n.kids|..] == DropKids(n, p, |n.kids|);
  }

  lemma MixedLast(n: Node<Pipes>, p: Pipe)
    requires Tight(n)
    ensures var m, ks := Mixed(n, p, |n.kids|), DropKids(n, p, |n.kids|);
            && m.kids == ks && m.live == Live(ks) && m.min == n.min
            && (m.live > 0 ==> FirstOf(n, ks) == n.min + Lead(ks) && LastOf(n, ks) == n.min + |ks| - 1 - Tail(ks))
  {
    assert DropKids(n, p, |n.kids|) + n.kids[|n.kids|..] == DropKids(n, p, |n.kids|);
    EndsFound(n, DropKids(n, p, |n.kids|));
  }

  lemma TableStart(n: Node<Pipes>, p: Pipe, path: Topic)
    ensures DropKids(n, p, 0) == [] && ListedBelow(n, Only(p), path, 0) == []
    ensures FirstOf(n, []) == n.min + |n.kids| - 1 && LastOf(n, []) == n.min
  {
  }

  lemma TableStep(n: Node<Pipes>, p: Pipe, path: Topic, c: nat)
    requires c < |n.kids|
    ensures DropKids(n, p, c + 1) == DropKids(n, p, c) + [DropKid(n, p, c)]
    ensures ListedBelow(n, Only(p), path, c + 1) == ListedBelow(n, Only(p), path, c) + ListedByKid(n, Only(p), path, c)
  {
  }

  lemma MixedEntry(n: Node<Pipes>, p: Pipe, c: nat)
    requires Canonical(n) && c < |n.kids|
    ensures Mixed(n, p, c).kids[c] == n.kids[c]
    ensures Mixed(n, p, c + 1).min == n.min
    ensures Mixed(n, p, c).min == n.min && Mixed(n, p, c).live == Live(Mixed(n, p, c).kids)
    ensures Mixed(n, p, c + 1).live == Live(Mixed(n, p, c + 1).kids)
    ensures n.kids[c].Some? ==> Canonical(n.kids[c].value)
  {
    hide DropKid, Live;
  }

  /** Putting the next entry in place. */
  lemma MixedStep(n: Node<Pipes>, p: Pipe, c: nat)
    requires Tight(n) && c < |n.kids|
    ensures var m := Mixed(n, p, c);
            && Mixed(n, p, c + 1) == (if n.kids[c].None? then m else SetKid(m, n.min + c, DropKid(n, p, c)))
            && Mixed(n, p, c + 1).kids[c] == DropKid(n, p, c)
  {
    var ks := DropKids(n, p, c) + n.kids[c..];
    var k := DropKid(n, p, c);
    assert ks[c] == n.kids[c];
    assert n.kids[c..] == [n.kids[c]] + n.kids[c + 1..];
    assert DropKids(n, p, c + 1) == DropKids(n, p, c) + [k];
    assert DropKids(n, p, c + 1) + n.kids[c + 1..] == ks[c := k];
    LiveUpdate(ks, c, k);
    if n.kids[c].None? {
      assert ks[c := k] == ks;
    } else {
      LiveSome(ks, c);
    }
  }

  /** The first and the last entry with a child among those looked at, as the loop records them. */
  function FirstOf(n: Node<Pipes>, ks: seq<Option<Node<Pipes>>>): int {
    if Lead(ks) < |ks| then n.min + Lead(ks) else n.min + |n.kids| - 1
  }

  function LastOf(n: Node<Pipes>, ks: seq<Option<Node<Pipes>>>): int {
    if Tail(ks) < |ks| then n.min + |ks| - 1 - Tail(ks) else n.min
  }

  lemma {:induction false} LeadAppend<V>(ks: seq<Option<Node<V>>>, k: Option<Node<V>>)
    ensures Lead(ks + [k]) == if Lead(ks) < |ks| then Lead(ks) else if k.Some? then |ks| else |ks| + 1
  {
    var l := Lead(ks);
    if l < |ks| {
      LeadUnique(ks + [k], l);
    } else if k.Some? {
      LeadUnique(ks + [k], |ks|);
    } else {
      assert forall j :: 0 <= j < |ks + [k]| ==> (ks + [k])[j] == None;
    }
  }

  lemma OneMoreEntry(n: Node<Pipes>, ks: seq<Option<Node<Pipes>>>, k: Option<Node<Pipes>>)
    requires |ks| < |n.kids|
    ensures FirstOf(n, ks + [k]) == if k.Some? && n.min + |ks| < FirstOf(n, ks) then n.min + |ks| else FirstOf(n, ks)
    ensures LastOf(n, ks + [k]) == if k.Some? then n.min + |ks| else LastOf(n, ks)
    ensures LastOf(n, ks) <= n.min + |ks|
  {
    LeadAppend(ks, k);
    assert (ks + [k])[..|ks|] == ks;
  }

  lemma EndsFound(n: Node<Pipes>, ks: seq<Option<Node<Pipes>>>)
    requires |ks| == |n.kids|
    ensures Live(ks) > 0 ==> FirstOf(n, ks) == n.min + Lead(ks) && LastOf(n, ks) == n.min + |ks| - 1 - Tail(ks)
  {
    if Live(ks) > 0 {
      NotAllDead(ks);
    }
  }

  lemma RmUnfold(n: Node<Pipes>, t: Topic, p: Pipe)
    requires Canonical(n) && t != []
    ensures Kid(n, t[0]) == None ==> Subscriptions.Rm(n, t, p) == Removed(n, false)
    ensures Kid(n, t[0]).Some? ==>
              var k := Kid(n, t[0]).value;
              && Canonical(k)
              && Subscriptions.Rm(n, t, p) ==
                 match Subscriptions.Rm(k, t[1..], p)
                 case Aborted => Aborted
                 case Removed(k', last) => Removed(Prune(n, t[0], k', NOBODY), last)
  {
    if Kid(n, t[0]).Some? {
      var k := Kid(n, t[0]).value;
      assert HasNode(n, t) <==> HasNode(k, t[1..]);
      if !HasNode(n, t) {
        assert SetKid(n, t[0], Some(k)) == n;
      }
    }
  }

  lemma AddUnfold(n: Node<Pipes>, t: Topic, p: Pipe)
    requires t != []
    ensures var g := Widen(n, t[0]);
            var k := g.kids[t[0] - g.min].GetOr(Leaf(NOBODY));
            && Subscriptions.Add(n, t, p) == SetKid(SetKid(g, t[0], Some(k)), t[0], Some(Subscriptions.Add(k, t[1..], p)))
            && AddIsNew(n, t) == AddIsNew(k, t[1..])
  {
    WidenKids(n, t[0], t[0]);
    LeafAt(NOBODY, t[1..]);
  }
}
