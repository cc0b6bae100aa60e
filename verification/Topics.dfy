/** What `trie_t` stands for: how many times each topic is subscribed. The nodes in `Trie` are proved to
    compute these. */
module Topics {
  import opened Tree
  import opened Listing

  /** How many times topic `t` is subscribed. */
  function Count(n: Node<nat>, t: Topic): nat {
    At(n, t, 0)
  }

  ghost predicate Canonical(n: Node<nat>) {
    Compact(n, 0)
  }

  function Add(n: Node<nat>, t: Topic): Node<nat> {
    Upsert(n, t, Count(n, t) + 1, 0)
  }

  function Rm(n: Node<nat>, t: Topic): Node<nat> {
    if Count(n, t) == 0 then n else Reset(n, t, Count(n, t) - 1, 0)
  }

  /** `check`: some node on the way of the message is a subscription. */
  predicate Check(n: Node<nat>, data: Topic)
    decreases |data|
  {
    n.val > 0 || (data != [] && Kid(n, data[0]).Some? && Check(Kid(n, data[0]).value, data[1..]))
  }

  function Stored(): nat -> bool {
    v => v > 0
  }

  /** The topics `apply` visits, in order. */
  function Applied(n: Node<nat>): seq<Topic> {
    Listed(n, Stored(), [])
  }

  /** `add` raises the count of its topic by one and leaves the others. */
  lemma AddMeans(n: Node<nat>, t: Topic)
    requires Canonical(n)
    ensures Canonical(Add(n, t))
    ensures forall u :: Count(Add(n, t), u) == Count(n, u) + if u == t then 1 else 0
  {
    UpsertCompact(n, t, Count(n, t) + 1, 0);
    forall u { UpsertAt(n, t, Count(n, t) + 1, 0, u); }
  }

  /** `rm` lowers the count of its topic by one, if it is not zero, and leaves the others. */
  lemma RmMeans(n: Node<nat>, t: Topic)
    requires Canonical(n)
    ensures Canonical(Rm(n, t))
    ensures forall u :: Count(Rm(n, t), u) == Count(n, u) - if u == t && Count(n, t) > 0 then 1 else 0
  {
    if Count(n, t) > 0 {
      AtNeedsNode(n, t, 0);
      ResetCompact(n, t, Count(n, t) - 1, 0);
      forall u { ResetAt(n, t, Count(n, t) - 1, 0, u); }
    }
  }

  /** A message passes exactly when some prefix of it is subscribed. */
  lemma {:induction false} CheckIff(n: Node<nat>, data: Topic)
    ensures Check(n, data) <==> exists i :: 0 <= i <= |data| && Count(n, data[..i]) > 0
    decreases |data|
  {
    assert data[..0] == [];
    if data != [] && Kid(n, data[0]).Some? {
      var k := Kid(n, data[0]).value;
      CheckIff(k, data[1..]);
      forall i | 1 <= i <= |data| ensures Count(n, data[..i]) == Count(k, data[1..][..i - 1]) {
        assert data[..i][1..] == data[1..][..i - 1];
      }
      if Check(k, data[1..]) {
        var i :| 0 <= i <= |data[1..]| && Count(k, data[1..][..i]) > 0;
        assert Count(n, data[..i + 1]) > 0;
      }
      forall i | 0 <= i <= |data| && Count(n, data[..i]) > 0 ensures Check(n, data) {
        if i > 0 { assert Count(k, data[1..][..i - 1]) > 0; }
      }
    }
  }

  /** `apply` visits each subscribed topic once, however often it is subscribed, and no other. */
  lemma AppliedMeans(n: Node<nat>)
    requires Canonical(n)
    ensures forall u :: u in Applied(n) <==> Count(n, u) > 0
    ensures NoRepeats(Applied(n))
  {
    ListedMeans(n, Stored(), 0);
  }
}
