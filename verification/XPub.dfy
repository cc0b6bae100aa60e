/** `xpub_t` as an object: its methods do to the trie of nodes what `Sockets` says. */
module XPubSocket {
  import opened Options
  import opened Tree
  import opened Subscriptions
  import opened Streams
  import opened Sockets
  import opened TrieNodes
  import MTrie

  class XPub {
    var subscriptions: TrieNode<Pipes>
    var pending: seq<Blob>
    var tells: bool
    var verbose: bool

    ghost predicate Valid()
      reads this, subscriptions, subscriptions.Repr
    {
      subscriptions.Valid() && Canonical(subscriptions.tree)
    }

    ghost function View(): Xpub
      reads this, subscriptions
    {
      Xpub(subscriptions.tree, pending, tells, verbose)
    }

    constructor (tells: bool)
      ensures Valid() && fresh(subscriptions.Repr) && View() == Xpub(Empty(), [], tells, false)
    {
      this.tells, verbose, pending := tells, false, [];
      subscriptions := new TrieNode<Pipes>(NOBODY);
      new;
      LiveNulls<Pipes>([]);
    }

    /** One round of `xread_activated`. */
    method Process(pipe: Pipe, sub: Blob)
      requires Valid() && Hear(View(), pipe, sub).Some?
      modifies this`pending, subscriptions.Repr
      ensures Valid() && fresh(subscriptions.Repr - old(subscriptions.Repr))
      ensures Some(View()) == Hear(old(View()), pipe, sub)
    {
      if |sub| > 0 && (sub[0] == 0 || sub[0] == 1) {
        var unique: bool;
        ghost var n := subscriptions.tree;
        if sub[0] == 0 {
          RmCanonical(n, sub[1..], pipe);
          unique := MTrie.Rm(subscriptions, sub[1..], pipe);
        } else {
          AddMeans(n, sub[1..], pipe);
          unique := MTrie.Add(subscriptions, sub[1..], pipe);
        }
        if tells && (unique || (sub[0] != 0 && verbose)) {
          pending := pending + [sub];
        }
        assert old(pending) + [] == old(pending);
      }
    }

    /** Read everything that the pipe has. */
    method ReadActivated(pipe: Pipe, arrived: seq<Blob>)
      requires Valid() && HearAll(View(), pipe, arrived).Some?
      modifies this`pending, subscriptions.Repr
      ensures Valid() && fresh(subscriptions.Repr - old(subscriptions.Repr))
      ensures Some(View()) == HearAll(old(View()), pipe, arrived)
    {
      ghost var x := View();
      forall i: nat | i < |arrived|
        ensures HearAll(x, pipe, arrived[..i]).Some?
        ensures HearAll(x, pipe, arrived[..i + 1]) == Hear(HearAll(x, pipe, arrived[..i]).value, pipe, arrived[i])
      {
        HearAllAppend(x, pipe, arrived, i);
      }
      assert arrived[..0] == [] && arrived[..|arrived|] == arrived;
      hide HearAll, Hear, Canonical;
      for i := 0 to |arrived|
        invariant Valid() && fresh(subscriptions.Repr - old(subscriptions.Repr))
        invariant Some(View()) == HearAll(x, pipe, arrived[..i])
      {
        assert HearAll(x, pipe, arrived[..i + 1]).Some?;
        Process(pipe, arrived[i]);
      }
    }

    method Attached(pipe: Pipe, canHasAll: bool, arrived: seq<Blob>)
      requires Valid() && HearAll(Attach(View(), pipe, canHasAll), pipe, arrived).Some?
      modifies this`pending, subscriptions.Repr
      ensures Valid() && fresh(subscriptions.Repr - old(subscriptions.Repr))
      ensures Some(View()) == HearAll(Attach(old(View()), pipe, canHasAll), pipe, arrived)
    {
      if canHasAll {
        AddMeans(subscriptions.tree, [], pipe);
        var unique := MTrie.Add(subscriptions, [], pipe);
      }
      ReadActivated(pipe, arrived);
    }

    /** `xterminated`: every topic that the trie calls back becomes a pending unsubscription. */
    method Terminated(pipe: Pipe)
      requires Valid()
      modifies this`pending, subscriptions.Repr
      ensures Valid() && fresh(subscriptions.Repr - old(subscriptions.Repr))
      ensures View() == Quit(old(View()), pipe)
    {
      RmPipeMeans(subscriptions.tree, pipe);
      var calls := MTrie.RmPipe(subscriptions, pipe);
      SendUnsubscriptions(calls);
      assert pending + [] == pending;
      hide All, Drop, Reported;
    }

    /** The callbacks of `send_unsubscription`. */
    method SendUnsubscriptions(calls: seq<Topic>)
      modifies this`pending
      ensures pending == old(pending) + if tells then All(calls, false) else []
    {
      assert pending == old(pending) + [];
      if tells {
        assert All(calls[..0], false) == [];
        for i := 0 to |calls|
          invariant pending == old(pending) + All(calls[..i], false)
        {
          AllStep(calls[..i + 1], false);
          assert calls[..i + 1][..i] == calls[..i];
          pending := pending + [Off(calls[i])];
        }
        assert calls[..|calls|] == calls;
      }
    }

    method Recv() returns (msg: Option<Blob>)
      requires Valid()
      modifies this`pending
      ensures Valid()
      ensures msg.None? <==> old(pending) == []
      ensures msg.None? ==> View() == old(View())
      ensures msg.Some? ==> msg.value == old(pending)[0] && View() == old(View()).(pending := old(pending)[1..])
    {
      if |pending| == 0 {
        return None;
      }
      msg := Some(pending[0]);
      pending := pending[1..];
    }
  }

  lemma RmCanonical(n: Node<Pipes>, t: Topic, p: Pipe)
    requires Canonical(n) && Rm(n, t, p).Removed?
    ensures Canonical(Rm(n, t, p).node)
  {
    if p in Holders(n, t) {
      RmHeld(n, t, p);
    } else {
      RmNotHeld(n, t, p);
    }
  }
}
