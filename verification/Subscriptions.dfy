/** What `mtrie_t` stands for: a relation between topics and pipes, kept as a compact trie whose nodes
    carry the set of pipes subscribed there. The object in `MTrie` is proved to compute these. */
module Subscriptions {
  import opened Options
  import opened Tree
  import opened Listing

  type Pipe = nat
  type Pipes = set<Pipe>

  const NOBODY: Pipes := {}

  /** The pipes subscribed to exactly topic `t`. */
  function Holders(n: Node<Pipes>, t: Topic): Pipes {
    At(n, t, NOBODY)
  }

  ghost predicate Canonical(n: Node<Pipes>) {
    Compact(n, NOBODY)
  }

  function Empty(): Node<Pipes> {
    Leaf(NOBODY)
  }

  function Add(n: Node<Pipes>, t: Topic, p: Pipe): Node<Pipes> {
    Upsert(n, t, Holders(n, t) + {p}, NOBODY)
  }

  /** The result of `add`: the topic had no pipe before. */
  predicate AddIsNew(n: Node<Pipes>, t: Topic) {
    Holders(n, t) == NOBODY
  }

  /** Removing one subscription: the failed assertion, or the new trie with what `rm` returns. */
  datatype Removal = Aborted | Removed(node: Node<Pipes>, last: bool)

  function Rm(n: Node<Pipes>, t: Topic, p: Pipe): Removal {
    if !HasNode(n, t) then Removed(n, false)
    else
      var v := Holders(n, t);
      if v != NOBODY && p !in v then Aborted
      else Removed(Reset(n, t, v - {p}, NOBODY), v - {p} == NOBODY)
  }

  /** Remove `p` everywhere, dropping the nodes that lose their purpose. */
  function Drop(n: Node<Pipes>, p: Pipe): Node<Pipes>
    decreases n, |n.kids| + 1
  {
    var kids := DropKids(n, p, |n.kids|);
    Trim(Node(n.val - {p}, n.min, Live(kids), kids))
  }

  function DropKids(n: Node<Pipes>, p: Pipe, i: nat): (kids: seq<Option<Node<Pipes>>>)
    requires i <= |n.kids|
    ensures |kids| == i
    decreases n, i
  {
    if i == 0 then []
    else DropKids(n, p, i - 1) + [DropKid(n, p, i - 1)]
  }

  function DropKid(n: Node<Pipes>, p: Pipe, i: nat): Option<Node<Pipes>>
    requires i < |n.kids|
    decreases n, i
  {
    match n.kids[i]
    case None => None
    case Some(k) => var k' := Drop(k, p); if Redundant(k', NOBODY) then None else Some(k')
  }

  /** What it means for `p` to be the only pipe. */
  function Only(p: Pipe): Pipes -> bool {
    v => v == {p}
  }

  /** The topics called back while `p` is removed, in order. */
  function Reported(n: Node<Pipes>, p: Pipe): seq<Topic> {
    Listed(n, Only(p), [])
  }

  /** The pipes called back for a message: those of every node on the way, each as often as it is there. */
  function Matched(n: Node<Pipes>, data: Topic): multiset<Pipe>
    decreases |data|
  {
    multiset(n.val) + if data == [] then multiset{} else
      match Kid(n, data[0])
      case None => multiset{}
      case Some(k) => Matched(k, data[1..])
  }

  // ----- adding

  /** `add` inserts exactly one pair into the relation and keeps the trie canonical; it reports
      a new topic exactly when nobody held it. */
  lemma AddMeans(n: Node<Pipes>, t: Topic, p: Pipe)
    requires Canonical(n)
    ensures Canonical(Add(n, t, p))
    ensures forall u :: Holders(Add(n, t, p), u) == if u == t then Holders(n, u) + {p} else Holders(n, u)
    ensures AddIsNew(n, t) <==> forall q :: q !in Holders(n, t)
  {
    UpsertCompact(n, t, Holders(n, t) + {p}, NOBODY);
    forall u { UpsertAt(n, t, Holders(n, t) + {p}, NOBODY, u); }
  }

  // ----- removing one subscription

  /** Removing a subscription that is held removes exactly that pair, and reports whether it was the
      topic's last. */
  lemma RmHeld(n: Node<Pipes>, t: Topic, p: Pipe)
    requires Canonical(n) && p in Holders(n, t)
    ensures Rm(n, t, p).Removed?
    ensures Canonical(Rm(n, t, p).node)
    ensures forall u :: Holders(Rm(n, t, p).node, u) == if u == t then Holders(n, u) - {p} else Holders(n, u)
    ensures Rm(n, t, p).last <==> Holders(n, t) == {p}
  {
    AtNeedsNode(n, t, NOBODY);
    var v := Holders(n, t) - {p};
    ResetCompact(n, t, v, NOBODY);
    forall u { ResetAt(n, t, v, NOBODY, u); }
  }

  /** Somebody holds a longer topic that begins with `t`; the root counts as begun by everybody. */
  ghost predicate Inner(n: Node<Pipes>, t: Topic) {
    t == [] || exists u :: t <= u && Holders(n, u) != NOBODY
  }

  /** Removing a subscription that is not held never changes the relation, but it does not always pass
      unnoticed: it fails an assertion exactly when other pipes hold the topic, and it reports the
      removal of a last subscription exactly when nobody holds the topic while its node exists. */
  lemma RmNotHeld(n: Node<Pipes>, t: Topic, p: Pipe)
    requires Canonical(n) && p !in Holders(n, t)
    ensures Rm(n, t, p).Aborted? <==> Holders(n, t) != NOBODY
    ensures Rm(n, t, p).Removed? ==> forall u :: Holders(Rm(n, t, p).node, u) == Holders(n, u)
    ensures Rm(n, t, p).Removed? ==> Canonical(Rm(n, t, p).node)
    ensures Rm(n, t, p).Removed? ==> (Rm(n, t, p).last <==> Inner(n, t))
  {
    AtNeedsNode(n, t, NOBODY);
    InnerIsNode(n, t);
    var v := Holders(n, t) - {p};
    ResetCompact(n, t, v, NOBODY);
    forall u { ResetAt(n, t, v, NOBODY, u); }
  }

  lemma InnerIsNode(n: Node<Pipes>, t: Topic)
    requires Canonical(n)
    ensures Inner(n, t) <==> HasNode(n, t)
  {
    if t != [] && HasNode(n, t) {
      var u := NodeMeansBelow(n, t, NOBODY);
      assert t <= u && Holders(n, u) != NOBODY;
    }
    forall u | t <= u && Holders(n, u) != NOBODY ensures HasNode(n, t) {
      BelowMeansNode(n, t, u, NOBODY);
    }
  }

  /** What callers of `rm` expect: it succeeds, and reports true exactly for the last subscription. */
  ghost predicate RmAsPromised(n: Node<Pipes>, t: Topic, p: Pipe) {
    Rm(n, t, p).Removed? && (Rm(n, t, p).last <==> Holders(n, t) == {p})
  }

  /** That expectation is met exactly when the pair is held or nobody subscribed to `t` or below it
      (and `t` is not the empty topic). */
  lemma RmAsPromisedIff(n: Node<Pipes>, t: Topic, p: Pipe)
    requires Canonical(n)
    ensures RmAsPromised(n, t, p) <==> p in Holders(n, t) || !Inner(n, t)
  {
    if p in Holders(n, t) {
      RmHeld(n, t, p);
    } else {
      RmNotHeld(n, t, p);
      assert t <= t;
    }
  }

  /** A concrete case: with one subscription to "AB", unsubscribing from "A" reports the removal of a last
      subscription that never was. */
  lemma SpuriousRemoval(p: Pipe)
    ensures var n := Add(Empty(), [65, 66], p);
            Holders(n, [65]) == NOBODY && Rm(n, [65], p).Removed? && Rm(n, [65], p).last
  {
    var n := Add(Empty(), [65, 66], p);
    LiveNulls<Pipes>([]);
    AddMeans(Empty(), [65, 66], p);
    RmNotHeld(n, [65], p);
    assert p in Holders(n, [65, 66]) && [65] <= [65, 66];
  }

  // ----- removing a pipe

  lemma DropKidsAt(n: Node<Pipes>, p: Pipe, m: nat, i: nat)
    requires i < m <= |n.kids|
    ensures DropKids(n, p, m)[i] == DropKid(n, p, i)
  {
  }

  lemma {:induction false} DropCompact(n: Node<Pipes>, p: Pipe)
    requires Canonical(n)
    ensures Canonical(Drop(n, p))
    decreases n
  {
    var kids := DropKids(n, p, |n.kids|);
    var m := Node(n.val - {p}, n.min, Live(kids), kids);
    forall i | 0 <= i < |kids| && kids[i].Some?
      ensures Canonical(kids[i].value) && !Redundant(kids[i].value, NOBODY)
    {
      DropKidsAt(n, p, |n.kids|, i);
      DropCompact(n.kids[i].value, p);
    }
    TrimTight(m);
    TrimGood(m, NOBODY);
  }

  /** Removing a pipe takes it out of every topic and leaves everything else. */
  lemma {:induction false} DropAt(n: Node<Pipes>, p: Pipe, u: Topic)
    requires Canonical(n)
    ensures Holders(Drop(n, p), u) == Holders(n, u) - {p}
    decreases |u|
  {
    if u != [] {
      var kids := DropKids(n, p, |n.kids|);
      var m := Node(n.val - {p}, n.min, Live(kids), kids);
      TrimKids(m, u[0]);
      if InRange(n, u[0]) {
        var i := u[0] - n.min;
        DropKidsAt(n, p, |n.kids|, i);
        if n.kids[i].Some? {
          var k := n.kids[i].value;
          DropAt(k, p, u[1..]);
          DropCompact(k, p);
          if Redundant(Drop(k, p), NOBODY) { RedundantEmpty(Drop(k, p), NOBODY, u[1..]); }
        }
      }
    }
  }

  /** Removing a pipe removes exactly its pairs, keeps the trie canonical, and reports every topic that
      lost its last pipe, with its full name, once, and no other. */
  lemma RmPipeMeans(n: Node<Pipes>, p: Pipe)
    requires Canonical(n)
    ensures Canonical(Drop(n, p))
    ensures forall u :: Holders(Drop(n, p), u) == Holders(n, u) - {p}
    ensures forall u :: u in Reported(n, p) <==> Holders(n, u) == {p}
    ensures NoRepeats(Reported(n, p))
  {
    DropCompact(n, p);
    forall u { DropAt(n, p, u); }
    ListedMeans(n, Only(p), NOBODY);
  }

  // ----- matching

  /** How many of the `i` shortest beginnings of the message the pipe holds. */
  function Holds(n: Node<Pipes>, data: Topic, p: Pipe, i: nat): nat
    requires i <= |data| + 1
  {
    if i == 0 then 0 else Holds(n, data, p, i - 1) + if p in Holders(n, data[..i - 1]) then 1 else 0
  }

  lemma {:induction false} HoldsBelow(n: Node<Pipes>, data: Topic, p: Pipe, i: nat)
    requires data != [] && i <= |data|
    ensures var k := Kid(n, data[0]);
            Holds(n, data, p, i + 1) ==
            (if p in n.val then 1 else 0) + if k.None? then 0 else Holds(k.value, data[1..], p, i)
  {
    assert data[..0] == [];
    if i == 0 {
      assert Holds(n, data, p, 0) == 0;
    } else {
      HoldsBelow(n, data, p, i - 1);
      assert data[..i][0] == data[0] && data[..i][1..] == data[1..][..i - 1];
    }
  }

  /** `match` calls back a pipe once for each beginning of the message that it holds. */
  lemma {:induction false} MatchedCounts(n: Node<Pipes>, data: Topic, p: Pipe)
    ensures Matched(n, data)[p] == Holds(n, data, p, |data| + 1)
    decreases |data|
  {
    if data == [] {
      assert Holds(n, data, p, 0) == 0 && data[..0] == [];
    } else {
      HoldsBelow(n, data, p, |data|);
      if Kid(n, data[0]).Some? {
        MatchedCounts(Kid(n, data[0]).value, data[1..], p);
      }
    }
  }

  lemma {:induction false} HoldsSome(n: Node<Pipes>, data: Topic, p: Pipe, i: nat)
    requires i <= |data| + 1
    ensures Holds(n, data, p, i) > 0 <==> exists j :: 0 <= j < i && p in Holders(n, data[..j])
  {
    if i > 0 { HoldsSome(n, data, p, i - 1); }
  }

  /** So it calls back exactly the pipes that hold some beginning of the message. */
  lemma MatchedIff(n: Node<Pipes>, data: Topic, p: Pipe)
    ensures p in Matched(n, data) <==> exists i :: 0 <= i <= |data| && p in Holders(n, data[..i])
  {
    MatchedCounts(n, data, p);
    HoldsSome(n, data, p, |data| + 1);
    hide Holds, Matched, Holders;
    if p in Matched(n, data) {
      var i :| 0 <= i < |data| + 1 && p in Holders(n, data[..i]);
    }
  }
}
