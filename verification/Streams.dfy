/** Subscription messages, and what a stream of them amounts to. The same streams travel from an XSUB to an
    XPUB and from an XPUB to its user. */
module Streams {
  import opened Tree
  import opened Listing

  type Blob = Topic

  /** How both sockets read a message: the first byte says what to do with the topic in the rest. */
  datatype Command = Subscribe(topic: Topic) | Unsubscribe(topic: Topic) | Other

  function Parse(b: Blob): Command {
    if b == [] then Other
    else if b[0] == 1 then Subscribe(b[1..])
    else if b[0] == 0 then Unsubscribe(b[1..])
    else Other
  }

  function On(t: Topic): (b: Blob)
    ensures Parse(b) == Subscribe(t)
  {
    assert ([1] + t)[1..] == t;
    [1] + t
  }

  function Off(t: Topic): (b: Blob)
    ensures Parse(b) == Unsubscribe(t)
  {
    assert ([0] + t)[1..] == t;
    [0] + t
  }

  function After(held: set<Topic>, b: Blob): set<Topic> {
    match Parse(b)
    case Subscribe(t) => held + {t}
    case Unsubscribe(t) => held - {t}
    case Other => held
  }

  /** The topics subscribed to after a stream. */
  function Replay(s: seq<Blob>): set<Topic> {
    if s == [] then {} else After(Replay(s[..|s| - 1]), s[|s| - 1])
  }

  /** Saying it is news: a subscription to a topic not held, or the end of one that is. */
  predicate IsNews(held: set<Topic>, b: Blob) {
    match Parse(b)
    case Subscribe(t) => t !in held
    case Unsubscribe(t) => t in held
    case Other => false
  }

  /** No message of the stream is redundant, and none ends a subscription that is not held. */
  predicate Strict(s: seq<Blob>) {
    s == [] || (Strict(s[..|s| - 1]) && IsNews(Replay(s[..|s| - 1]), s[|s| - 1]))
  }

  function All(topics: seq<Topic>, on: bool): (s: seq<Blob>)
    ensures |s| == |topics|
  {
    seq(|topics|, i requires 0 <= i < |topics| => if on then On(topics[i]) else Off(topics[i]))
  }

  lemma ReplayAppend(s: seq<Blob>, b: Blob)
    ensures Replay(s + [b]) == After(Replay(s), b)
    ensures Strict(s + [b]) <==> Strict(s) && IsNews(Replay(s), b)
  {
    assert (s + [b])[..|s|] == s;
  }

  lemma AllStep(topics: seq<Topic>, on: bool)
    requires topics != []
    ensures var m := |topics| - 1;
            All(topics, on) == All(topics[..m], on) + [if on then On(topics[m]) else Off(topics[m])]
  {
  }

  lemma NoRepeatsPrefix(topics: seq<Topic>)
    requires topics != [] && NoRepeats(topics)
    ensures NoRepeats(topics[..|topics| - 1]) && topics[|topics| - 1] !in topics[..|topics| - 1]
  {
  }

  /** Ending several subscriptions, each held and named once. */
  lemma {:induction false} ReplayOff(s: seq<Blob>, topics: seq<Topic>)
    requires NoRepeats(topics) && forall t :: t in topics ==> t in Replay(s)
    ensures forall t :: t in Replay(s + All(topics, false)) <==> t in Replay(s) && t !in topics
    ensures Strict(s) ==> Strict(s + All(topics, false))
    decreases |topics|
  {
    if topics == [] {
      assert s + All(topics, false) == s;
    } else {
      var m := |topics| - 1;
      var init := topics[..m];
      assert topics == init + [topics[m]];
      NoRepeatsPrefix(topics);
      ReplayOff(s, init);
      AllStep(topics, false);
      assert s + All(topics, false) == (s + All(init, false)) + [Off(topics[m])];
      ReplayAppend(s + All(init, false), Off(topics[m]));
    }
  }

  /** Announcing several subscriptions to a peer that heard nothing yet. */
  lemma {:induction false} ReplayOn(topics: seq<Topic>)
    requires NoRepeats(topics)
    ensures forall t :: t in Replay(All(topics, true)) <==> t in topics
    ensures Strict(All(topics, true))
  {
    if topics != [] {
      var m := |topics| - 1;
      var init := topics[..m];
      assert topics == init + [topics[m]];
      NoRepeatsPrefix(topics);
      ReplayOn(init);
      AllStep(topics, true);
      ReplayAppend(All(init, true), On(topics[m]));
    }
  }

  /** A prefix of a strict stream is strict, and what follows it is news. */
  lemma {:induction false} StrictAt(s: seq<Blob>, i: nat)
    requires Strict(s) && i < |s|
    ensures IsNews(Replay(s[..i]), s[i])
    ensures Replay(s[..i + 1]) == After(Replay(s[..i]), s[i])
  {
    if i == |s| - 1 {
      assert s[..i + 1] == s;
    } else {
      StrictAt(s[..|s| - 1], i);
      assert s[..|s| - 1][..i] == s[..i] && s[..|s| - 1][..i + 1] == s[..i + 1];
    }
  }
}
