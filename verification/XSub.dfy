/** `xsub_t` as an object: what it passes upstream, and which received messages it hands to its user. */
module XSubSocket {
  import opened Options
  import opened Tree
  import opened Streams
  import opened Parts
  import opened Sockets
  import opened TrieNodes
  import Topics
  import Trie

  /** What is left after the parts up to the end of the current message. */
  function AfterMessage(s: seq<Part>): (r: seq<Part>)
    ensures |r| <= |s| && (s != [] ==> |r| < |s|)
    ensures Whole(s) ==> Whole(r)
  {
    if s == [] then [] else if s[0].more then AfterMessage(s[1..]) else s[1..]
  }

  /** The parts that the user gets of `s`. `mid` says that the first part continues a message that is being
      handed over. */
  function Wanted(subs: Node<nat>, filter: bool, s: seq<Part>, mid: bool): seq<Part>
    decreases |s|
  {
    if s == [] then []
    else if mid || !filter || Topics.Check(subs, s[0].data) then [s[0]] + Wanted(subs, filter, s[1..], s[0].more)
    else Wanted(subs, filter, AfterMessage(s), false)
  }

  // ----- what that means for messages

  predicate IsMessage(m: seq<Part>) {
    |m| > 0 && forall i :: 0 <= i < |m| ==> (m[i].more <==> i < |m| - 1)
  }

  type Message = m: seq<Part> | IsMessage(m) witness [Part([], false)]

  function Flat(ms: seq<Message>): seq<Part> {
    if ms == [] then [] else ms[0] + Flat(ms[1..])
  }

  /** The messages whose first part begins with a subscribed topic. */
  function Chosen(subs: Node<nat>, ms: seq<Message>): seq<Message> {
    if ms == [] then []
    else (if Topics.Check(subs, ms[0][0].data) then [ms[0]] else []) + Chosen(subs, ms[1..])
  }

  lemma {:induction false} WantedRest(subs: Node<nat>, filter: bool, m: seq<Part>, rest: seq<Part>)
    requires IsMessage(m)
    ensures Wanted(subs, filter, m + rest, true) == m + Wanted(subs, filter, rest, false)
    ensures AfterMessage(m + rest) == rest
    decreases |m|
  {
    var s := m + rest;
    assert s[1..] == m[1..] + rest && m == [m[0]] + m[1..];
    if |m| > 1 {
      WantedRest(subs, filter, m[1..], rest);
    } else {
      assert m[1..] + rest == rest;
    }
  }

  /** The filter works on whole messages: it lets all parts of a message through or none. */
  lemma {:induction false} WantedIsChosen(subs: Node<nat>, ms: seq<Message>)
    ensures Wanted(subs, true, Flat(ms), false) == Flat(Chosen(subs, ms))
    ensures Wanted(subs, false, Flat(ms), false) == Flat(ms)
    decreases |ms|
  {
    if ms != [] {
      hide Wanted, AfterMessage, IsMessage, Topics.Check;
      WantedIsChosen(subs, ms[1..]);
      OneMessage(subs, true, ms[0], Flat(ms[1..]));
      OneMessage(subs, false, ms[0], Flat(ms[1..]));
      if Topics.Check(subs, ms[0][0].data) {
        FlatStep(ms[0], Chosen(subs, ms[1..]));
      } else {
        assert [] + Chosen(subs, ms[1..]) == Chosen(subs, ms[1..]);
        assert [] + Wanted(subs, true, Flat(ms[1..]), false) == Wanted(subs, true, Flat(ms[1..]), false);
      }
    }
  }

  lemma FlatStep(m: Message, ms: seq<Message>)
    ensures Flat([m] + ms) == m + Flat(ms)
  {
    assert ([m] + ms)[1..] == ms;
  }

  lemma OneMessage(subs: Node<nat>, filter: bool, m: seq<Part>, rest: seq<Part>)
    requires IsMessage(m)
    ensures Wanted(subs, filter, m + rest, false) ==
            (if !filter || Topics.Check(subs, m[0].data) then m else []) + Wanted(subs, filter, rest, false)
  {
    WantedRest(subs, filter, m, rest);
    FirstPart(subs, filter, m + rest);
    hide Wanted, AfterMessage;
  }

  lemma FirstPart(subs: Node<nat>, filter: bool, s: seq<Part>)
    requires s != []
    ensures Wanted(subs, filter, s, false) ==
            if !filter || Topics.Check(subs, s[0].data) then Wanted(subs, filter, s, true)
            else Wanted(subs, filter, AfterMessage(s), false)
  {
  }

  datatype Outcome = Einval | Swallowed | SentToAll

  class XSub {
    var subscriptions: TrieNode<nat>
    var hasMessage: bool
    var message: Part
    var more: bool
    var filter: bool
    /** What fair queueing is going to hand out. */
    var incoming: seq<Part>

    ghost predicate Valid()
      reads this, subscriptions, subscriptions.Repr
    {
      && subscriptions.Valid() && Topics.Canonical(subscriptions.tree)
      && Whole(incoming)
      && (hasMessage ==> !more)
      && (more || (hasMessage && message.more) ==> incoming != [])
    }

    constructor (filter: bool)
      ensures Valid() && fresh(subscriptions.Repr) && subscriptions.tree == Leaf(0) && Total() == []
    {
      this.filter, hasMessage, more, incoming := filter, false, false, [];
      message := Part([], false);
      subscriptions := new TrieNode<nat>(0);
      new;
      LiveNulls<nat>([]);
    }

    /** Everything the user is going to get if nothing else arrives and no subscription changes. */
    ghost function Total(): seq<Part>
      reads this, subscriptions
    {
      var n := subscriptions.tree;
      if hasMessage then [message] + Wanted(n, filter, incoming, message.more) else Wanted(n, filter, incoming, more)
    }

    /** `fq.recv` */
    method FqRecv() returns (msg: Option<Part>)
      requires Whole(incoming)
      modifies this`incoming
      ensures Whole(incoming)
      ensures msg.None? <==> old(incoming) == []
      ensures msg.None? ==> incoming == []
      ensures msg.Some? ==> msg.value == old(incoming)[0] && incoming == old(incoming)[1..]
      ensures msg.Some? && msg.value.more ==> incoming != []
    {
      if |incoming| == 0 {
        return None;
      }
      msg := Some(incoming[0]);
      incoming := incoming[1..];
    }

    /** Take the remaining parts of a message that nobody wants. */
    method Discard(first: Part)
      requires Whole(incoming) && (first.more ==> incoming != [])
      modifies this`incoming
      ensures Whole(incoming) && |incoming| <= |old(incoming)|
      ensures incoming == AfterMessage([first] + old(incoming))
    {
      var msg := first;
      assert ([first] + incoming)[1..] == incoming;
      while msg.more
        invariant Whole(incoming) && (msg.more ==> incoming != []) && |incoming| <= |old(incoming)|
        invariant AfterMessage([msg] + incoming) == AfterMessage([first] + old(incoming))
        decreases |incoming|
      {
        ghost var before := incoming;
        var next := FqRecv();
        assert next.Some?;
        msg := next.value;
        assert ([msg] + incoming)[1..] == incoming && before == [msg] + incoming;
      }
      assert ([msg] + incoming)[1..] == incoming;
    }

    /** The loop of `xrecv` and `xhas_in`: the next part that the user wants. */
    method Next(mid: bool) returns (msg: Option<Part>)
      requires subscriptions.Valid() && Topics.Canonical(subscriptions.tree) && Whole(incoming)
      modifies this`incoming
      ensures Whole(incoming)
      ensures var n := subscriptions.tree;
              match msg
              case None => incoming == [] && Wanted(n, filter, old(incoming), mid) == []
              case Some(m) =>
                && Wanted(n, filter, old(incoming), mid) == [m] + Wanted(n, filter, incoming, m.more)
                && (m.more ==> incoming != [])
    {
      while true
        invariant Whole(incoming)
        invariant Wanted(subscriptions.tree, filter, incoming, mid)
               == Wanted(subscriptions.tree, filter, old(incoming), mid)
        decreases |incoming|
      {
        ghost var before := incoming;
        msg := FqRecv();
        if msg.None? {
          return;
        }
        if mid {
          return;
        }
        var found := Trie.Check(subscriptions, msg.value.data);
        if !filter || found {
          return;
        }
        assert before == [msg.value] + incoming;
        Discard(msg.value);
      }
    }

    method XRecv() returns (msg: Option<Part>)
      requires Valid()
      modifies this`incoming, this`hasMessage, this`more
      ensures Valid()
      ensures match msg
              case None => old(Total()) == [] && Total() == [] && incoming == []
              case Some(m) => old(Total()) == [m] + Total()
    {
      if hasMessage {
        hasMessage := false;
        more := message.more;
        return Some(message);
      }
      msg := Next(more);
      if msg.Some? {
        more := msg.value.more;
      }
    }

    method XHasIn() returns (yes: bool)
      requires Valid()
      modifies this`incoming, this`hasMessage, this`message
      ensures Valid() && Total() == old(Total())
      ensures yes <==> Total() != []
    {
      if more || hasMessage {
        return true;
      }
      var msg := Next(false);
      if msg.None? {
        return false;
      }
      message := msg.value;
      hasMessage := true;
      return true;
    }

    /** Subscribe or unsubscribe; `SentToAll` says that the message goes to every pipe. */
    method XSend(b: Blob) returns (r: Outcome)
      requires Valid()
      modifies subscriptions.Repr
      ensures Valid() && fresh(subscriptions.Repr - old(subscriptions.Repr))
      ensures match Send(old(subscriptions.tree), b)
              case Invalid => r == Einval && subscriptions.tree == old(subscriptions.tree)
              case Kept(n) => r == Swallowed && subscriptions.tree == n
              case Passed(n) => r == SentToAll && subscriptions.tree == n
    {
      if |b| < 1 || (b[0] != 0 && b[0] != 1) {
        return Einval;
      }
      var news: bool;
      SendCanonical(subscriptions.tree, b);
      if b[0] == 1 {
        news := Trie.Add(subscriptions, b[1..]);
      } else {
        news := Trie.Rm(subscriptions, b[1..]);
      }
      return if news then SentToAll else Swallowed;
    }

    /** What a newly attached pipe is sent. */
    method Attached() returns (messages: seq<Blob>)
      requires Valid()
      ensures messages == Greeting(subscriptions.tree)
    {
      var topics := Trie.Apply(subscriptions);
      messages := [];
      for i := 0 to |topics|
        invariant messages == All(topics[..i], true)
      {
        AllStep(topics[..i + 1], true);
        assert topics[..i + 1][..i] == topics[..i];
        messages := messages + [On(topics[i])];
      }
      assert topics[..|topics|] == topics;
    }
  }
}
