/** What the XSUB and XPUB sockets do with subscriptions, on the values their tries stand for. */
module Sockets {
  import opened Options
  import opened Tree
  import opened Listing
  import opened Subscriptions
  import opened Streams
  import Topics

  // ----- XSUB

  /** What `xsend` does: refuse the message, take note of it, or pass it on to all publishers. */
  datatype Sent = Invalid | Kept(subs: Node<nat>) | Passed(subs: Node<nat>)

  function Send(subs: Node<nat>, b: Blob): Sent {
    match Parse(b)
    case Other => Invalid
    case Subscribe(t) =>
      if Topics.Count(subs, t) == 0 then Passed(Topics.Add(subs, t)) else Kept(Topics.Add(subs, t))
    case Unsubscribe(t) =>
      if Topics.Count(subs, t) == 1 then Passed(Topics.Rm(subs, t)) else Kept(Topics.Rm(subs, t))
  }

  /** What a new publisher is told. */
  function Greeting(subs: Node<nat>): seq<Blob> {
    All(Topics.Applied(subs), true)
  }

  ghost predicate Agrees(held: set<Topic>, subs: Node<nat>) {
    forall t :: t in held <==> Topics.Count(subs, t) > 0
  }

  /** If a publisher was told everything so far, then after `xsend` it still is: what is passed on is
      news to it, and what is not passed on makes no difference to it. */
  lemma SendAgrees(subs: Node<nat>, b: Blob, held: set<Topic>)
    requires Topics.Canonical(subs) && Agrees(held, subs)
    ensures match Send(subs, b)
            case Invalid => Parse(b) == Other
            case Kept(subs') => Topics.Canonical(subs') && Agrees(held, subs')
            case Passed(subs') => Topics.Canonical(subs') && Agrees(After(held, b), subs') && IsNews(held, b)
  {
    match Parse(b)
    case Other =>
    case Subscribe(t) => Topics.AddMeans(subs, t);
    case Unsubscribe(t) => Topics.RmMeans(subs, t);
  }

  lemma SendCanonical(subs: Node<nat>, b: Blob)
    requires Topics.Canonical(subs)
    ensures match Send(subs, b)
            case Invalid => true
            case Kept(subs') => Topics.Canonical(subs')
            case Passed(subs') => Topics.Canonical(subs')
  {
    match Parse(b)
    case Other =>
    case Subscribe(t) => Topics.AddMeans(subs, t);
    case Unsubscribe(t) => Topics.RmMeans(subs, t);
  }

  lemma GreetingAgrees(subs: Node<nat>)
    requires Topics.Canonical(subs)
    ensures Strict(Greeting(subs)) && Agrees(Replay(Greeting(subs)), subs)
  {
    Topics.AppliedMeans(subs);
    ReplayOn(Topics.Applied(subs));
  }

  // ----- XPUB

  /** `tells` is whether the socket is an XPUB, which tells its user about subscriptions, or a PUB. */
  datatype Xpub = Xpub(subs: Node<Pipes>, pending: seq<Blob>, tells: bool, verbose: bool)

  /** One round of `xread_activated`; nothing when an assertion fails. */
  function Hear(x: Xpub, p: Pipe, b: Blob): Option<Xpub> {
    match Parse(b)
    case Other => Some(x)
    case Subscribe(t) =>
      Some(x.(subs := Add(x.subs, t, p),
      pending := x.pending + if x.tells && (AddIsNew(x.subs, t) || x.verbose) then [b] else []))
    case Unsubscribe(t) =>
      match Rm(x.subs, t, p)
      case Aborted => None
      case Removed(n, last) =>
        Some(x.(subs := n, pending := x.pending + if x.tells && last then [b] else []))
  }

  function HearAll(x: Xpub, p: Pipe, s: seq<Blob>): Option<Xpub> {
    if s == [] then Some(x)
    else
      match HearAll(x, p, s[..|s| - 1])
      case None => None
      case Some(y) => Hear(y, p, s[|s| - 1])
  }

  /** `xterminated` */
  function Quit(x: Xpub, p: Pipe): Xpub {
    x.(subs := Drop(x.subs, p),
    pending := x.pending + if x.tells then All(Reported(x.subs, p), false) else [])
  }

  /** `xattach_pipe` before it starts to read. */
  function Attach(x: Xpub, p: Pipe, canHasAll: bool): Xpub {
    if canHasAll then x.(subs := Add(x.subs, [], p)) else x
  }

  ghost predicate Held(x: Xpub, t: Topic) {
    Holders(x.subs, t) != NOBODY
  }

  /** What the user has been told, with what is waiting for it, amounts to the topics with a subscriber. */
  ghost predicate Exact(x: Xpub, received: seq<Blob>) {
    x.tells ==> forall t :: t in Replay(received + x.pending) <==> Held(x, t)
  }

  /** Without `verbose`, the user hears nothing redundant either. */
  ghost predicate Terse(x: Xpub, received: seq<Blob>) {
    x.tells && !x.verbose ==> Strict(received + x.pending)
  }

  ghost predicate Sound(x: Xpub, received: seq<Blob>) {
    Canonical(x.subs) && Exact(x, received) && Terse(x, received)
  }

  /** A pipe's messages that the socket copes with. */
  ghost predicate Fair(x: Xpub, p: Pipe, b: Blob) {
    Parse(b).Unsubscribe? ==> p in Holders(x.subs, Parse(b).topic) || !Inner(x.subs, Parse(b).topic)
  }

  /** After one message, the relation holds this pair or does not, and is otherwise as before. */
  ghost predicate Heard(x: Xpub, p: Pipe, b: Blob, y: Xpub) {
    && y.tells == x.tells && y.verbose == x.verbose
    && forall t :: Holders(y.subs, t) ==
                   if Parse(b) == Subscribe(t) then Holders(x.subs, t) + {p}
                   else if Parse(b) == Unsubscribe(t) then Holders(x.subs, t) - {p}
                   else Holders(x.subs, t)
  }

  /** The user's picture stays exact if it is told of every change, and of nothing else or of what
      `verbose` adds. */
  lemma Told(x: Xpub, y: Xpub, b: Blob, received: seq<Blob>, told: bool)
    requires Exact(x, received) && Terse(x, received) && x.tells && y.tells && y.verbose == x.verbose
    requires y.pending == x.pending + if told then [b] else []
    requires !told ==> forall t :: Held(y, t) <==> Held(x, t)
    requires told && Parse(b).Subscribe? ==> forall t :: Held(y, t) <==> Held(x, t) || t == Parse(b).topic
    requires told && Parse(b).Unsubscribe? ==> forall t :: Held(y, t) <==> Held(x, t) && t != Parse(b).topic
    requires told ==> !Parse(b).Other?
    requires told && !x.verbose ==> (Held(x, Parse(b).topic) <==> Parse(b).Unsubscribe?)
    ensures Exact(y, received) && Terse(y, received)
  {
    var before := received + x.pending;
    ReplayAppend(before, b);
    if told {
      assert received + y.pending == before + [b];
    } else {
      assert received + y.pending == before;
    }
    hide Replay, Strict, Held;
  }

  lemma HearOn(x: Xpub, p: Pipe, b: Blob, received: seq<Blob>)
    requires Sound(x, received) && Parse(b).Subscribe?
    ensures var y := Hear(x, p, b); y.Some? && Heard(x, p, b, y.value) && Sound(y.value, received)
  {
    var t := Parse(b).topic;
    AddMeans(x.subs, t, p);
    hide Add, Holders, Replay;
    var y := Hear(x, p, b).value;
    if x.tells {
      Told(x, y, b, received, AddIsNew(x.subs, t) || x.verbose);
    }
  }

  lemma HearOff(x: Xpub, p: Pipe, b: Blob, received: seq<Blob>)
    requires Sound(x, received) && Fair(x, p, b) && Parse(b).Unsubscribe?
    ensures var y := Hear(x, p, b); y.Some? && Heard(x, p, b, y.value) && Sound(y.value, received)
  {
    var t := Parse(b).topic;
    if p in Holders(x.subs, t) {
      RmHeld(x.subs, t, p);
    } else {
      RmAsPromisedIff(x.subs, t, p);
      RmNotHeld(x.subs, t, p);
    }
    hide Rm, Holders, Inner, Replay;
    var y := Hear(x, p, b).value;
    if x.tells {
      Told(x, y, b, received, Rm(x.subs, t, p).last);
    }
  }

  lemma HearFair(x: Xpub, p: Pipe, b: Blob, received: seq<Blob>)
    requires Sound(x, received) && Fair(x, p, b)
    ensures var y := Hear(x, p, b); y.Some? && Heard(x, p, b, y.value) && Sound(y.value, received)
  {
    hide Sound;
    match Parse(b)
    case Other =>
    case Subscribe(_) => HearOn(x, p, b, received);
    case Unsubscribe(_) => HearOff(x, p, b, received);
  }

  /** A terse socket survives a message, with the user's picture exact and free of redundancy, exactly when
      the message does not end a subscription that the pipe does not hold while somebody holds that topic
      or a longer one. */
  lemma HearSoundIff(x: Xpub, p: Pipe, b: Blob, received: seq<Blob>)
    requires Sound(x, received) && x.tells && !x.verbose
    ensures Fair(x, p, b) <==> Hear(x, p, b).Some? && Sound(Hear(x, p, b).value, received)
  {
    if Fair(x, p, b) {
      HearFair(x, p, b, received);
    } else {
      var t := Parse(b).topic;
      RmNotHeld(x.subs, t, p);
      if Hear(x, p, b).Some? {
        ReplayAppend(received + x.pending, b);
        assert received + (x.pending + [b]) == received + x.pending + [b];
      }
    }
  }

  /** Is the message passed to the user of an XPUB? A subscription if nobody had the topic, or always with `verbose`; the
      end of one if the pipe was the last to have it. A pipe that did not have it counts as the last when somebody
      has a longer topic. */
  ghost predicate Passes(x: Xpub, p: Pipe, b: Blob) {
    match Parse(b)
    case Subscribe(t) => x.verbose || !Held(x, t)
    case Unsubscribe(t) => if p in Holders(x.subs, t) then Holders(x.subs, t) == {p} else Inner(x.subs, t)
    case Other => false
  }

  /** Just these messages are queued for the user of an XPUB, and nothing for that of a PUB. */
  lemma HearQueues(x: Xpub, p: Pipe, b: Blob)
    requires Canonical(x.subs) && Hear(x, p, b).Some?
    ensures Hear(x, p, b).value.pending == x.pending + if x.tells && Passes(x, p, b) then [b] else []
  {
    match Parse(b)
    case Other => assert x.pending + [] == x.pending;
    case Subscribe(t) => AddMeans(x.subs, t, p);
    case Unsubscribe(t) =>
      if p in Holders(x.subs, t) { RmHeld(x.subs, t, p); } else { RmNotHeld(x.subs, t, p); }
  }

  /** When a pipe terminates, the user of an XPUB hears once of the end of each topic that only this pipe had, and the user
      of a PUB hears nothing. */
  lemma QuitQueues(x: Xpub, p: Pipe)
    requires Canonical(x.subs)
    ensures !x.tells ==> Quit(x, p).pending == x.pending
    ensures x.tells ==>
              exists topics :: Quit(x, p).pending == x.pending + All(topics, false) && NoRepeats(topics)
                               && forall t :: t in topics <==> Holders(x.subs, t) == {p}
  {
    RmPipeMeans(x.subs, p);
    assert x.pending + [] == x.pending;
    if x.tells {
      var topics := Reported(x.subs, p);
      assert Quit(x, p).pending == x.pending + All(topics, false);
    }
  }

  /** When a pipe terminates, exactly its pairs go, and the user's picture stays exact. */
  lemma QuitSound(x: Xpub, p: Pipe, received: seq<Blob>)
    requires Sound(x, received)
    ensures Sound(Quit(x, p), received)
    ensures forall t :: Holders(Quit(x, p).subs, t) == Holders(x.subs, t) - {p}
  {
    RmPipeMeans(x.subs, p);
    var gone := Reported(x.subs, p);
    if x.tells {
      TellGone(x, p, received, gone);
    }
    hide Reported, Drop, Replay, Strict, All;
  }

  lemma HearAllAppend(x: Xpub, p: Pipe, s: seq<Blob>, i: nat)
    requires i < |s| && HearAll(x, p, s).Some?
    ensures HearAll(x, p, s[..i]).Some?
    ensures HearAll(x, p, s[..i + 1]) == Hear(HearAll(x, p, s[..i]).value, p, s[i])
    decreases |s|
  {
    if i == |s| - 1 {
      assert s[..i + 1] == s;
    } else {
      HearAllAppend(x, p, s[..|s| - 1], i);
      assert s[..|s| - 1][..i] == s[..i] && s[..|s| - 1][..i + 1] == s[..i + 1];
    }
    assert s[..i + 1][..i] == s[..i];
  }

  lemma TellGone(x: Xpub, p: Pipe, received: seq<Blob>, gone: seq<Topic>)
    requires Exact(x, received) && x.tells && NoRepeats(gone)
    requires forall t :: t in gone <==> Holders(x.subs, t) == {p}
    ensures var now := received + (x.pending + All(gone, false));
            && (forall t :: t in Replay(now) <==> Holders(x.subs, t) - {p} != NOBODY)
            && (Strict(received + x.pending) ==> Strict(now))
  {
    hide Holders;
    ReplayOff(received + x.pending, gone);
    assert received + (x.pending + All(gone, false)) == received + x.pending + All(gone, false);
    hide *;
    forall t ensures (Holders(x.subs, t) - {p} != NOBODY) <==> (Holders(x.subs, t) != {} && Holders(x.subs, t) != {p}) {
      if Holders(x.subs, t) - {p} == {} && Holders(x.subs, t) != {} {
        var q :| q in Holders(x.subs, t);
        assert q == p;
      }
    }
  }

  /** Attaching a pipe that gets everything does not tell the user, so its picture stays exact only if the
      empty topic had a subscriber already. */
  lemma AttachExactIff(x: Xpub, p: Pipe, received: seq<Blob>, canHasAll: bool)
    requires Sound(x, received) && x.tells
    ensures Sound(Attach(x, p, canHasAll), received) <==> !canHasAll || Held(x, [])
  {
    AddMeans(x.subs, [], p);
    if canHasAll && !Held(x, []) {
      assert [] !in Replay(received + x.pending);
      assert Held(Attach(x, p, canHasAll), []);
    }
  }

  /** `xrecv` moves the oldest notification to the user. */
  lemma TakeSound(x: Xpub, received: seq<Blob>)
    requires Sound(x, received) && x.pending != []
    ensures Sound(x.(pending := x.pending[1..]), received + [x.pending[0]])
  {
    assert received + [x.pending[0]] + x.pending[1..] == received + x.pending;
  }
}
