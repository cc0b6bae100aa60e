/** Any number of XSUB and XPUB sockets joined by pipes without high-water mark. A step is a call at one
    socket; what is written to a pipe is read from it in order, at any later time or never. */
module PubSub {
  import opened Options
  import opened Tree
  import opened Subscriptions
  import opened Streams
  import opened Sockets
  import Arrays
  import Fanout
  import Topics

  /** The subscriber's end of a pipe: not attached yet, attached, or terminated. */
  datatype Stage = New | Attached | Gone

  /** `log` is everything written to the pipe, of which `taken` messages have been read; `alive` says that
      the publisher's end has not terminated, and `refuses` that the subscriber's end accepts no messages any
      more, because its peer is closing. Such a pipe stays attached until all its messages have been read. */
  datatype Link = Link(sub: nat, pub: nat, log: seq<Blob>, taken: nat, stage: Stage, alive: bool, refuses: bool)

  type Fan = c: Fanout.Cursors<Pipe> | c.matching <= c.active <= c.eligible <= |c.pipes|
    witness Fanout.Cursors([], 0, 0, 0, false)

  /** An XSUB socket: its subscriptions, and the order of its pipes in `dist_t`. */
  datatype Subscriber = Subscriber(topics: Node<nat>, dist: Fan)

  /** An XPUB socket and what its user has received from it. */
  datatype Publisher = Publisher(x: Xpub, received: seq<Blob>)

  datatype System = System(subs: map<nat, Subscriber>, links: map<Pipe, Link>, pubs: map<nat, Publisher>)

  datatype Step =
    | NewSub(sub: nat)
    | NewPub(pub: nat, tells: bool, verbose: bool)
    | Open(p: Pipe, sub: nat, pub: nat)
    | SubAttach(p: Pipe)
    | SubSend(sub: nat, b: Blob, more: bool)
    | PeerCloses(p: Pipe)
    | SubTerminated(p: Pipe)
    | PubRead(p: Pipe)
    | PubTerminated(p: Pipe)
    | PubRecv(pub: nat)

  const START := System(map[], map[], map[])

  function WithX(s: System, pub: nat, x: Xpub): System
    requires pub in s.pubs
  {
    s.(pubs := s.pubs[pub := s.pubs[pub].(x := x)])
  }

  function Place(ps: seq<Pipe>, p: Pipe): (i: nat)
    requires p in ps
    ensures i < |ps| && ps[i] == p
  {
    if ps[0] == p then 0 else 1 + Place(ps[1..], p)
  }

  predicate InPlace(s: System, p: Pipe) {
    && p in s.links && s.links[p].stage == Attached && s.links[p].sub in s.subs
    && p in s.subs[s.links[p].sub].dist.pipes
  }

  predicate Readable(s: System, p: Pipe) {
    && p in s.links && s.links[p].alive && s.links[p].pub in s.pubs
    && s.links[p].taken < |s.links[p].log|
  }

  predicate Enabled(s: System, e: Step) {
    match e
    case NewSub(sub) => sub !in s.subs
    case NewPub(pub, _, _) => pub !in s.pubs
    case Open(p, sub, pub) => p !in s.links && sub in s.subs && pub in s.pubs
    case SubAttach(p) => p in s.links && s.links[p].stage == New && s.links[p].sub in s.subs
    case SubSend(sub, b, _) => sub in s.subs
    case PeerCloses(p) => p in s.links
    case SubTerminated(p) => InPlace(s, p)
    case PubRead(p) => Readable(s, p)
    case PubTerminated(p) => p in s.links && s.links[p].alive && s.links[p].pub in s.pubs
    case PubRecv(pub) => pub in s.pubs && s.pubs[pub].x.pending != []
  }

  /** The next state; none when an assertion fails in the source. */
  function Next(s: System, e: Step): Option<System>
    requires Enabled(s, e)
  {
    match e
    case NewSub(sub) => Some(AfterNewSub(s, sub))
    case NewPub(pub, tells, verbose) => Some(AfterNewPub(s, pub, tells, verbose))
    case Open(p, sub, pub) => Some(AfterOpen(s, p, sub, pub))
    case SubAttach(p) => Some(AfterAttach(s, p))
    case SubSend(sub, b, more) => Some(AfterSend(s, sub, b, more))
    case PeerCloses(p) => Some(AfterClosing(s, p))
    case SubTerminated(p) => Some(AfterTermination(s, p))
    case PubRead(p) => AfterRead(s, p)
    case PubTerminated(p) => Some(AfterQuit(s, p))
    case PubRecv(pub) => Some(AfterRecv(s, pub))
  }

  function AfterNewSub(s: System, sub: nat): System {
    s.(subs := s.subs[sub := Subscriber(Leaf(0), Fanout.Cursors([], 0, 0, 0, false))])
  }

  function AfterNewPub(s: System, pub: nat, tells: bool, verbose: bool): System {
    s.(pubs := s.pubs[pub := Publisher(Xpub(Empty(), [], tells, verbose), [])])
  }

  function AfterOpen(s: System, p: Pipe, sub: nat, pub: nat): System {
    s.(links := s.links[p := Link(sub, pub, [], 0, New, true, false)])
  }

  function AfterClosing(s: System, p: Pipe): System
    requires p in s.links
  {
    s.(links := s.links[p := s.links[p].(refuses := true)])
  }

  function AfterRead(s: System, p: Pipe): Option<System>
    requires p in s.links && s.links[p].pub in s.pubs && s.links[p].taken < |s.links[p].log|
  {
    var l := s.links[p];
    match Hear(s.pubs[l.pub].x, p, l.log[l.taken])
    case None => None
    case Some(x) => Some(WithX(s, l.pub, x).(links := s.links[p := l.(taken := l.taken + 1)]))
  }

  function AfterQuit(s: System, p: Pipe): System
    requires p in s.links && s.links[p].pub in s.pubs
  {
    var l := s.links[p];
    WithX(s, l.pub, Quit(s.pubs[l.pub].x, p)).(links := s.links[p := l.(alive := false)])
  }

  function AfterRecv(s: System, pub: nat): System
    requires pub in s.pubs && s.pubs[pub].x.pending != []
  {
    var u := s.pubs[pub];
    s.(pubs := s.pubs[pub := Publisher(u.x.(pending := u.x.pending[1..]), u.received + [u.x.pending[0]])])
  }

  /** The new pipe is told of all subscriptions, if it accepts messages. */
  function AfterAttach(s: System, p: Pipe): System
    requires p in s.links && s.links[p].sub in s.subs
  {
    var l := s.links[p];
    var z := s.subs[l.sub];
    var m := l.(stage := Attached, log := if l.refuses then [] else Greeting(z.topics));
    s.(subs := s.subs[l.sub := z.(dist := Fanout.Attach(z.dist, p))], links := s.links[p := m])
  }

  function Takers(links: map<Pipe, Link>): set<Pipe> {
    set p | p in links && !links[p].refuses
  }

  /** The subscription goes to the active pipes, if it changes anything. */
  function AfterSend(s: System, sub: nat, b: Blob, more: bool): System
    requires sub in s.subs
  {
    var z := s.subs[sub];
    match Send(z.topics, b)
    case Invalid => s
    case Kept(n) => s.(subs := s.subs[sub := z.(topics := n)])
    case Passed(n) =>
      s.(subs := s.subs[sub := Subscriber(n, Fanout.SentToAll(z.dist, Takers(s.links), more))],
         links := Tell(s.links, z.dist.pipes[..z.dist.active], b))
  }

  /** The message is written to those of the pipes that accept it. */
  function Tell(links: map<Pipe, Link>, ps: seq<Pipe>, b: Blob): map<Pipe, Link> {
    map p | p in links ::
      if p in ps && !links[p].refuses then links[p].(log := links[p].log + [b]) else links[p]
  }

  function AfterTermination(s: System, p: Pipe): System
    requires InPlace(s, p)
  {
    var l := s.links[p];
    var z := s.subs[l.sub];
    s.(subs := s.subs[l.sub := z.(dist := Fanout.Terminated(z.dist, Place(z.dist.pipes, p)))],
       links := s.links[p := l.(stage := Gone)])
  }

  /** What the subscriber has to take care of. */
  predicate Safe(s: System, e: Step)
    requires Enabled(s, e)
  {
    match e
    case SubAttach(p) => SafeAttach(s, p)
    case SubTerminated(p) => SafeTermination(s, p)
    case _ => true
  }

  /** No pipe that accepts messages is attached in the middle of a message. */
  predicate SafeAttach(s: System, p: Pipe)
    requires p in s.links && s.links[p].sub in s.subs
  {
    s.links[p].refuses || !s.subs[s.links[p].sub].dist.more
  }

  /** A pipe that terminates is behind the active ones, or the last of them, or all pipes are active, or the last active
      one does not accept messages. */
  predicate SafeTermination(s: System, p: Pipe)
    requires InPlace(s, p)
  {
    var c := s.subs[s.links[p].sub].dist;
    Spares(c, Place(c.pipes, p), s.links)
  }

  predicate Spares(c: Fan, i: nat, links: map<Pipe, Link>) {
    || i >= c.active || i + 1 == c.active || c.active == |c.pipes|
    || (c.pipes[c.active - 1] in links && links[c.pipes[c.active - 1]].refuses)
  }

  // ----- the invariant

  /** The attached pipes are those in the array, and those that accept messages are active. */
  ghost predicate SubOk(links: map<Pipe, Link>, sub: nat, z: Subscriber) {
    && Topics.Canonical(z.topics) && Fanout.Ok(z.dist)
    && (forall p :: p in z.dist.pipes <==> p in links && links[p].stage == Attached && links[p].sub == sub)
    && (forall p :: p in z.dist.pipes && !links[p].refuses ==> p in Fanout.Active(z.dist))
  }

  ghost predicate LinkOk(s: System, l: Link) {
    && l.taken <= |l.log| && Strict(l.log)
    && l.sub in s.subs && l.pub in s.pubs
    && (l.stage == New ==> l.log == [])
    && (l.stage == Attached && !l.refuses ==> Agrees(Replay(l.log), s.subs[l.sub].topics))
  }

  /** What the publisher knows about a pipe: what it has read from it. */
  ghost predicate Knows(links: map<Pipe, Link>, pub: nat, x: Xpub) {
    forall p, t :: p in Holders(x.subs, t) <==>
                   p in links && links[p].pub == pub && links[p].alive && t in Read(links[p])
  }

  ghost function Read(l: Link): set<Topic> {
    if l.taken <= |l.log| then Replay(l.log[..l.taken]) else {}
  }

  ghost predicate Inv(s: System) {
    && (forall sub :: sub in s.subs ==> SubOk(s.links, sub, s.subs[sub]))
    && (forall p :: p in s.links ==> LinkOk(s, s.links[p]))
    && (forall pub :: pub in s.pubs ==>
          Sound(s.pubs[pub].x, s.pubs[pub].received) && Knows(s.links, pub, s.pubs[pub].x))
  }

  /** What is known depends on the publishers' ends only. */
  lemma SameKnown(a: map<Pipe, Link>, b: map<Pipe, Link>, pub: nat, x: Xpub)
    requires Knows(a, pub, x) && a.Keys == b.Keys
    requires forall p :: p in a ==> a[p].pub == b[p].pub && a[p].alive == b[p].alive && Read(a[p]) == Read(b[p])
    ensures Knows(b, pub, x)
  {
    hide Holders, Read;
  }

  /** The publishers' parts of the invariant do not notice a step of the subscribers. */
  lemma SubSideInv(s: System, s': System)
    requires Inv(s) && s'.pubs == s.pubs && s'.links.Keys == s.links.Keys
    requires forall p :: p in s.links ==>
               && LinkOk(s', s'.links[p]) && Read(s'.links[p]) == Read(s.links[p])
               && s'.links[p].pub == s.links[p].pub && s'.links[p].alive == s.links[p].alive
    ensures Inv(s') <==> forall sub :: sub in s'.subs ==> SubOk(s'.links, sub, s'.subs[sub])
  {
    hide Read, Knows, LinkOk, Sound, SubOk;
    forall u | u in s.pubs ensures Knows(s'.links, u, s.pubs[u].x) {
      SameKnown(s.links, s'.links, u, s.pubs[u].x);
    }
  }

  /** A subscriber's part depends on where its pipes are, and on which of them accept messages. */
  lemma OtherSub(a: map<Pipe, Link>, b: map<Pipe, Link>, sub: nat, z: Subscriber)
    requires SubOk(a, sub, z)
    requires forall p :: p in b && b[p].stage == Attached && b[p].sub == sub <==>
                         p in a && a[p].stage == Attached && a[p].sub == sub
    requires forall p :: p in a && p in b && a[p].sub == sub ==> a[p].refuses ==> b[p].refuses
    ensures SubOk(b, sub, z)
  {
    hide Fanout.Ok, Fanout.Active;
  }

  lemma NewSubInv(s: System, sub: nat)
    requires Inv(s) && sub !in s.subs
    ensures Inv(AfterNewSub(s, sub))
  {
    hide Sound, Strict, Replay, Agrees, Knows;
    var s' := AfterNewSub(s, sub);
    LiveNulls<nat>([]);
    forall p | p in s.links ensures s.links[p].sub != sub { assert LinkOk(s, s.links[p]); }
    assert SubOk(s'.links, sub, s'.subs[sub]);
    hide SubOk;
  }

  lemma NewPubInv(s: System, pub: nat, tells: bool, verbose: bool)
    requires Inv(s) && pub !in s.pubs
    ensures Inv(AfterNewPub(s, pub, tells, verbose))
  {
    LiveNulls<Pipes>([]);
    forall t ensures Holders(Empty(), t) == {} { LeafAt(NOBODY, t); }
    var x := Xpub(Empty(), [], tells, verbose);
    assert Sound(x, []);
    assert Knows(s.links, pub, x) by {
      forall p | p in s.links ensures s.links[p].pub != pub { assert LinkOk(s, s.links[p]); }
    }
    hide Sound, Strict, Replay, Agrees, Knows, SubOk;
  }

  lemma OpenKnown(links: map<Pipe, Link>, p: Pipe, l: Link, pub: nat, x: Xpub)
    requires Knows(links, pub, x) && p !in links && Read(l) == {}
    ensures Knows(links[p := l], pub, x)
  {
    hide Holders, Read;
  }

  lemma OpenInv(s: System, p: Pipe, sub: nat, pub: nat)
    requires Inv(s) && p !in s.links && sub in s.subs && pub in s.pubs
    ensures Inv(AfterOpen(s, p, sub, pub))
  {
    hide Sound, Knows, Agrees, SubOk;
    var s' := AfterOpen(s, p, sub, pub);
    var l := s'.links[p];
    assert LinkOk(s', l) && Read(l) == {};
    hide Strict, Replay, Read;
    forall u | u in s.subs ensures SubOk(s'.links, u, s.subs[u]) {
      OtherSub(s.links, s'.links, u, s.subs[u]);
    }
    forall u | u in s.pubs ensures Knows(s'.links, u, s.pubs[u].x) {
      OpenKnown(s.links, p, l, u, s.pubs[u].x);
    }
  }

  /** A step at one pipe of a subscriber. */
  lemma OneLink(s: System, s': System, p: Pipe, l: Link)
    requires Inv(s) && p in s.links && s'.pubs == s.pubs && s'.links == s.links[p := l]
    requires l.sub == s.links[p].sub && l.pub == s.links[p].pub && l.alive == s.links[p].alive
    requires LinkOk(s', l) && Read(l) == Read(s.links[p]) && s'.subs.Keys == s.subs.Keys
    requires forall u :: u in s.subs ==>
               s'.subs[u].topics == s.subs[u].topics && (u != l.sub ==> s'.subs[u] == s.subs[u])
    ensures l.sub in s'.subs && (Inv(s') <==> SubOk(s'.links, l.sub, s'.subs[l.sub]))
  {
    hide Read, LinkOk, Knows, Sound, SubOk;
    OtherSubs(s, s', p, l);
    OtherLinks(s, s', p);
    SubSideInv(s, s');
  }

  lemma OtherSubs(s: System, s': System, p: Pipe, l: Link)
    requires Inv(s) && p in s.links && s'.links == s.links[p := l] && l.sub == s.links[p].sub
    requires s'.subs.Keys == s.subs.Keys && forall u :: u in s.subs && u != l.sub ==> s'.subs[u] == s.subs[u]
    ensures l.sub in s.subs && forall u :: u in s.subs && u != l.sub ==> SubOk(s'.links, u, s'.subs[u])
  {
    hide Read, Knows, Sound, Strict, Replay, Agrees, SubOk;
    assert LinkOk(s, s.links[p]);
    forall u | u in s.subs && u != l.sub ensures SubOk(s'.links, u, s'.subs[u]) {
      OtherSub(s.links, s'.links, u, s.subs[u]);
    }
  }

  lemma OtherLinks(s: System, s': System, p: Pipe)
    requires Inv(s) && s'.pubs == s.pubs && s'.subs.Keys == s.subs.Keys
    requires forall u :: u in s.subs ==> s'.subs[u].topics == s.subs[u].topics
    ensures forall q :: q in s.links && q != p ==> LinkOk(s', s.links[q])
  {
    hide Read, Knows, Sound, Strict, Replay, Agrees, SubOk;
    forall q | q in s.links && q != p ensures LinkOk(s', s.links[q]) {
      assert LinkOk(s, s.links[q]);
    }
  }

  lemma ClosesInv(s: System, p: Pipe)
    requires Inv(s) && p in s.links
    ensures Inv(AfterClosing(s, p))
  {
    var s', l := AfterClosing(s, p), s.links[p];
    assert LinkOk(s, l);
    hide Sound, Holders, Knows, Replay, SubOk, Strict, Agrees;
    OtherSub(s.links, s'.links, l.sub, s.subs[l.sub]);
    OneLink(s, s', p, l.(refuses := true));
  }

  // ----- attaching

  /** A pipe that is attached in the middle of a message misses its next part. */
  lemma AttachSub(links: map<Pipe, Link>, p: Pipe, z: Subscriber, l: Link)
    requires p in links && links[p].stage == New && SubOk(links, l.sub, z)
    requires l.sub == links[p].sub && l.stage == Attached
    ensures SubOk(links[p := l], l.sub, z.(dist := Fanout.Attach(z.dist, p))) <==> l.refuses || !z.dist.more
  {
    Fanout.AttachMeans(z.dist, p);
    var d: Fan := Fanout.Attach(z.dist, p);
    forall q ensures q in d.pipes <==> q in z.dist.pipes || q == p {
      assert q in Arrays.All(d.pipes) <==> q in Arrays.All(z.dist.pipes) + {p};
    }
    assert p !in Fanout.Active(z.dist);
    hide Fanout.Ok, Fanout.Active, Fanout.Attach, Topics.Canonical, Arrays.All;
  }

  lemma AttachLink(s: System, p: Pipe)
    requires Inv(s) && p in s.links && s.links[p].stage == New && s.links[p].sub in s.subs
    ensures var s' := AfterAttach(s, p);
            p in s'.links && LinkOk(s', s'.links[p]) && Read(s'.links[p]) == Read(s.links[p])
  {
    var l := s.links[p];
    var s' := AfterAttach(s, p);
    var l' := s'.links[p];
    GreetingAgrees(s.subs[l.sub].topics);
    assert LinkOk(s, l);
    hide Greeting, Strict, Agrees;
    assert l'.log[..0] == l.log[..0];
  }

  lemma AttachInv(s: System, p: Pipe)
    requires Inv(s) && p in s.links && s.links[p].stage == New && s.links[p].sub in s.subs
    ensures Inv(AfterAttach(s, p)) <==> SafeAttach(s, p)
  {
    var s' := AfterAttach(s, p);
    AttachLink(s, p);
    AttachSub(s.links, p, s.subs[s.links[p].sub], s'.links[p]);
    hide Greeting, LinkOk, Knows, Read, SubOk, Sound, Fanout.Attach;
    OneLink(s, s', p, s'.links[p]);
  }

  // ----- sending

  /** A pipe that is active and accepts messages is told, and stays active. */
  lemma SendSub(s: System, sub: nat, n: Node<nat>, more: bool)
    requires Inv(s) && sub in s.subs && Topics.Canonical(n)
    ensures SubOk(s.links, sub, Subscriber(n, Fanout.SentToAll(s.subs[sub].dist, Takers(s.links), more)))
  {
    hide Knows, Sound, Strict, Replay, Agrees, Read;
    var c: Fan := s.subs[sub].dist;
    assert SubOk(s.links, sub, s.subs[sub]);
    Fanout.SentMeans(c.(matching := c.active), Takers(s.links), more);
    var d := Fanout.SentToAll(c, Takers(s.links), more);
    Arrays.SameItems(d.pipes, c.pipes);
    forall p | p in d.pipes && !s.links[p].refuses ensures p in Fanout.Active(d) {
      assert p in Fanout.Active(c) && p in Takers(s.links) && p in Arrays.Top(c.pipes, c.active);
      assert Arrays.Top(c.pipes, c.active) <= Arrays.Top(c.pipes, c.eligible);
    }
    hide Fanout.SentToAll;
  }

  lemma TellRead(l: Link, b: Blob)
    requires l.taken <= |l.log|
    ensures Read(l.(log := l.log + [b])) == Read(l)
  {
    assert (l.log + [b])[..l.taken] == l.log[..l.taken];
  }

  /** Only pipes of the subscriber are told, and all of them that accept messages. */
  lemma ToldMeans(s: System, sub: nat, b: Blob, p: Pipe)
    requires Inv(s) && sub in s.subs && p in s.links
    ensures var c, l := s.subs[sub].dist, s.links[p];
            var told := Tell(s.links, c.pipes[..c.active], b);
            && p in told
            && told[p] == if l.stage == Attached && l.sub == sub && !l.refuses then l.(log := l.log + [b]) else l
  {
    var c: Fan := s.subs[sub].dist;
    assert SubOk(s.links, sub, s.subs[sub]);
    assert p in c.pipes[..c.active] <==> p in Fanout.Active(c);
    assert p in c.pipes[..c.active] ==> p in c.pipes;
  }

  /** A pipe that is told hears news. */
  lemma ToldLink(s: System, l: Link, n: Node<nat>, b: Blob)
    requires LinkOk(s, l) && Topics.Canonical(s.subs[l.sub].topics)
    requires l.stage == Attached && !l.refuses && Send(s.subs[l.sub].topics, b) == Passed(n)
    ensures Strict(l.log + [b]) && Agrees(Replay(l.log + [b]), n)
  {
    hide Strict, Replay, Send, Agrees;
    SendAgrees(s.subs[l.sub].topics, b, Replay(l.log));
    ReplayAppend(l.log, b);
  }

  lemma SendLink(s: System, sub: nat, b: Blob, more: bool, p: Pipe)
    requires Inv(s) && sub in s.subs && p in s.links
    ensures var s' := AfterSend(s, sub, b, more);
            && p in s'.links && LinkOk(s', s'.links[p]) && Read(s'.links[p]) == Read(s.links[p])
            && s'.links[p] == s.links[p].(log := s'.links[p].log)
  {
    hide Strict, Replay, Tell, Send, Agrees, Knows, Sound, Fanout.SentToAll, Read, Fanout.Ok, Fanout.Active;
    var l, z := s.links[p], s.subs[sub];
    assert LinkOk(s, l) && SubOk(s.links, sub, z);
    TellRead(l, b);
    match Send(z.topics, b)
    case Invalid =>
    case Kept(n) =>
      if l.stage == Attached && l.sub == sub && !l.refuses { SendAgrees(z.topics, b, Replay(l.log)); }
    case Passed(n) =>
      ToldMeans(s, sub, b, p);
      if l.stage == Attached && l.sub == sub && !l.refuses { ToldLink(s, l, n, b); }
  }

  lemma SendSubs(s: System, sub: nat, b: Blob, more: bool)
    requires Inv(s) && sub in s.subs
    ensures var s' := AfterSend(s, sub, b, more);
            s'.pubs == s.pubs && s'.links.Keys == s.links.Keys && SubOk(s.links, sub, s'.subs[sub])
    ensures forall u :: u in s.subs && u != sub ==> AfterSend(s, sub, b, more).subs[u] == s.subs[u]
    ensures AfterSend(s, sub, b, more).subs.Keys == s.subs.Keys
  {
    SendCanonical(s.subs[sub].topics, b);
    assert SubOk(s.links, sub, s.subs[sub]);
    match Send(s.subs[sub].topics, b)
    case Passed(n) => SendSub(s, sub, n, more);
    case _ =>
  }

  lemma SendInv(s: System, sub: nat, b: Blob, more: bool)
    requires Inv(s) && sub in s.subs
    ensures Inv(AfterSend(s, sub, b, more))
  {
    var s' := AfterSend(s, sub, b, more);
    SendSubs(s, sub, b, more);
    forall p | p in s.links
      ensures LinkOk(s', s'.links[p]) && Read(s'.links[p]) == Read(s.links[p])
      ensures s'.links[p] == s.links[p].(log := s'.links[p].log)
    {
      SendLink(s, sub, b, more, p);
    }
    hide AfterSend, Sound, Read, LinkOk, Knows;
    forall u | u in s'.subs ensures SubOk(s'.links, u, s'.subs[u]) {
      OtherSub(s.links, s'.links, u, s'.subs[u]);
    }
    hide SubOk;
    SubSideInv(s, s');
  }

  // ----- termination

  /** Those that accept messages stay active exactly when the pipe terminates as `Safe` says. */
  lemma TerminatedActive(c: Fan, i: nat, takes: set<Pipe>)
    requires Fanout.Ok(c) && i < |c.pipes|
    requires forall p :: p in c.pipes && p in takes ==> p in Fanout.Active(c)
    ensures var d := Fanout.Terminated(c, i);
            && Fanout.Ok(d) && (forall p :: p in d.pipes <==> p in c.pipes && p != c.pipes[i])
            && ((forall p :: p in d.pipes && p in takes ==> p in Fanout.Active(d)) <==>
                || i >= c.active || i + 1 == c.active || c.active == |c.pipes|
                || c.pipes[c.active - 1] !in takes)
  {
    var d, n := Fanout.Terminated(c, i), |c.pipes|;
    Fanout.TerminatedOk(c, i);
    Arrays.RemainingItems(d.pipes, c.pipes, i);
    Fanout.ErasedKeepsIff(c.pipes, i, c.active);
    if c.active > 0 {
      Arrays.InTop(c.pipes, c.active, c.active - 1);
      Arrays.InTop(c.pipes, c.active, n - 1);
      assert c.pipes[c.active - 1] in c.pipes;
    }
    assert d.active == Fanout.Without(c.active, i) && d.pipes == Arrays.Erased(c.pipes, i);
    hide Fanout.Terminated, Arrays.Top, Arrays.Erased;
  }

  /** The same for the subscriber's part of the invariant. */
  lemma TerminatedSub(links: map<Pipe, Link>, p: Pipe, z: Subscriber, l: Link, i: nat)
    requires SubOk(links, l.sub, z) && p in links && l.sub == links[p].sub && l.stage == Gone
    requires i < |z.dist.pipes| && z.dist.pipes[i] == p
    ensures SubOk(links[p := l], l.sub, z.(dist := Fanout.Terminated(z.dist, i))) <==> Spares(z.dist, i, links)
  {
    var c: Fan := z.dist;
    var d: Fan := Fanout.Terminated(c, i);
    hide Fanout.Terminated, Fanout.Active, Fanout.Ok, Topics.Canonical;
    TerminatedActive(c, i, Takers(links));
    if c.active > 0 { assert c.pipes[c.active - 1] in c.pipes; }
    assert forall q :: q in d.pipes ==> q in links && q != p && (q in Takers(links) <==> !links[q].refuses);
  }

  lemma TerminatedInv(s: System, p: Pipe)
    requires Inv(s) && InPlace(s, p)
    ensures Inv(AfterTermination(s, p)) <==> SafeTermination(s, p)
  {
    hide Strict, Agrees, Sound, Knows, Replay, SubOk, Fanout.Terminated, Place, Spares;
    var s', l := AfterTermination(s, p), s.links[p];
    TerminatedSub(s.links, p, s.subs[l.sub], l.(stage := Gone), Place(s.subs[l.sub].dist.pipes, p));
    assert LinkOk(s, l) && LinkOk(s', s'.links[p]);
    OneLink(s, s', p, l.(stage := Gone));
  }

  // ----- the publishers' side

  lemma ReadStep(l: Link)
    requires Strict(l.log) && l.taken < |l.log|
    ensures IsNews(Read(l), l.log[l.taken])
    ensures Read(l.(taken := l.taken + 1)) == After(Read(l), l.log[l.taken])
  {
    StrictAt(l.log, l.taken);
  }

  /** What a publisher reads never fails its assertion and never ends a subscription that it does not know. */
  lemma ReadFair(s: System, p: Pipe)
    requires Inv(s) && Readable(s, p)
    ensures var l := s.links[p]; Fair(s.pubs[l.pub].x, p, l.log[l.taken])
  {
    PubSide(s, p);
    hide Inv, Holders, Replay, Strict, Inner;
    ReadStep(s.links[p]);
  }

  lemma ReadKnows(links: map<Pipe, Link>, pub: nat, x: Xpub, y: Xpub, p: Pipe)
    requires Knows(links, pub, x) && p in links && links[p].pub == pub && links[p].alive
    requires Strict(links[p].log) && links[p].taken < |links[p].log|
    requires Heard(x, p, links[p].log[links[p].taken], y)
    ensures var l := links[p]; Knows(links[p := l.(taken := l.taken + 1)], pub, y)
  {
    ReadStep(links[p]);
    hide Holders, Strict, Read;
  }

  /** A step at one pipe leaves alone what other publishers know. */
  lemma OthersKnow(links: map<Pipe, Link>, pub: nat, x: Xpub, p: Pipe, l: Link)
    requires Knows(links, pub, x) && p in links && links[p].pub != pub && l.pub == links[p].pub
    ensures Knows(links[p := l], pub, x)
  {
    hide Holders, Read;
  }

  /** A step of a publisher at one of its pipes keeps the invariant if it is sound and it knows what it
      should. */
  lemma PubSideInv(s: System, p: Pipe, l: Link, x: Xpub)
    requires Inv(s) && p in s.links && s.links[p].pub in s.pubs
    requires l == s.links[p].(taken := l.taken, alive := l.alive) && l.taken <= |l.log|
    requires Sound(x, s.pubs[l.pub].received) && Knows(s.links[p := l], l.pub, x)
    ensures Inv(WithX(s, l.pub, x).(links := s.links[p := l]))
  {
    hide Knows, Sound, Strict, Agrees, Replay, SubOk;
    assert LinkOk(s, s.links[p]);
    forall pub | pub in s.pubs && pub != l.pub ensures Knows(s.links[p := l], pub, s.pubs[pub].x) {
      OthersKnow(s.links, pub, s.pubs[pub].x, p, l);
    }
    forall u | u in s.subs ensures SubOk(s.links[p := l], u, s.subs[u]) {
      OtherSub(s.links, s.links[p := l], u, s.subs[u]);
    }
  }

  /** What the publisher's end of a pipe may rely on. */
  lemma PubSide(s: System, p: Pipe)
    requires Inv(s) && p in s.links
    ensures var l := s.links[p];
            && Strict(l.log) && l.taken <= |l.log| && l.pub in s.pubs
            && Sound(s.pubs[l.pub].x, s.pubs[l.pub].received) && Knows(s.links, l.pub, s.pubs[l.pub].x)
  {
    hide Knows, Sound, Strict, Agrees, Replay, SubOk;
    assert LinkOk(s, s.links[p]);
  }

  lemma ReadInv(s: System, p: Pipe)
    requires Inv(s) && Readable(s, p)
    ensures AfterRead(s, p).Some? && Inv(AfterRead(s, p).value)
  {
    PubSide(s, p);
    ReadFair(s, p);
    hide Inv, Fair, Sound, Knows, Hear, Heard, Strict;
    var l := s.links[p];
    var u := s.pubs[l.pub];
    HearFair(u.x, p, l.log[l.taken], u.received);
    var y := Hear(u.x, p, l.log[l.taken]).value;
    ReadKnows(s.links, l.pub, u.x, y, p);
    PubSideInv(s, p, l.(taken := l.taken + 1), y);
  }

  lemma QuitKnows(links: map<Pipe, Link>, pub: nat, x: Xpub, y: Xpub, p: Pipe)
    requires Knows(links, pub, x) && p in links
    requires forall t :: Holders(y.subs, t) == Holders(x.subs, t) - {p}
    ensures Knows(links[p := links[p].(alive := false)], pub, y)
  {
    hide Holders, Read;
    var l := links[p].(alive := false);
    forall q, t ensures q in Holders(y.subs, t) <==>
                        q in links && links[p := l][q].pub == pub && links[p := l][q].alive
                        && t in Read(links[p := l][q])
    {
      assert q in Holders(y.subs, t) <==> q in Holders(x.subs, t) - {p};
    }
  }

  lemma QuitInv(s: System, p: Pipe)
    requires Inv(s) && p in s.links && s.links[p].alive && s.links[p].pub in s.pubs
    ensures Inv(AfterQuit(s, p))
  {
    PubSide(s, p);
    hide Inv, Sound, Knows, Strict, Quit;
    var l := s.links[p];
    var u := s.pubs[l.pub];
    QuitSound(u.x, p, u.received);
    QuitKnows(s.links, l.pub, u.x, Quit(u.x, p), p);
    PubSideInv(s, p, l.(alive := false), Quit(u.x, p));
  }

  lemma RecvInv(s: System, pub: nat)
    requires Inv(s) && pub in s.pubs && s.pubs[pub].x.pending != []
    ensures Inv(AfterRecv(s, pub))
  {
    var u := s.pubs[pub];
    TakeSound(u.x, u.received);
    assert Knows(s.links, pub, u.x.(pending := u.x.pending[1..])) by {
      assert Knows(s.links, pub, u.x);
      hide Holders, Read;
    }
    hide Sound, Knows, LinkOk;
  }

  /** Every step can be taken without a failed assertion, and keeps the invariant exactly when it is safe. */
  lemma StepInv(s: System, e: Step)
    requires Inv(s) && Enabled(s, e)
    ensures Next(s, e).Some? && (Inv(Next(s, e).value) <==> Safe(s, e))
  {
    hide Inv;
    match e
    case NewSub(sub) => NewSubInv(s, sub);
    case NewPub(pub, tells, verbose) => NewPubInv(s, pub, tells, verbose);
    case Open(p, sub, pub) => OpenInv(s, p, sub, pub);
    case SubAttach(p) => AttachInv(s, p);
    case SubSend(sub, b, more) => SendInv(s, sub, b, more);
    case PeerCloses(p) => ClosesInv(s, p);
    case SubTerminated(p) => TerminatedInv(s, p);
    case PubRead(p) => ReadInv(s, p);
    case PubTerminated(p) => QuitInv(s, p);
    case PubRecv(pub) => RecvInv(s, pub);
  }

  // ----- whole runs

  /** A run; steps that are not possible are passed over. */
  function Run(s: System, es: seq<Step>): Option<System>
    decreases |es|
  {
    if es == [] then Some(s)
    else if !Enabled(s, es[0]) then Run(s, es[1..])
    else
      match Next(s, es[0])
      case None => None
      case Some(n) => Run(n, es[1..])
  }

  /** All steps of the run are safe. */
  predicate Careful(s: System, es: seq<Step>)
    decreases |es|
  {
    es == [] ||
    if !Enabled(s, es[0]) then Careful(s, es[1..])
    else Safe(s, es[0]) && (Next(s, es[0]).Some? ==> Careful(Next(s, es[0]).value, es[1..]))
  }

  /** No careful run fails an assertion; in particular every unsubscription names a pair that is held. */
  lemma {:induction false} RunInv(s: System, es: seq<Step>)
    requires Inv(s) && Careful(s, es)
    ensures Run(s, es).Some? && Inv(Run(s, es).value)
    decreases |es|
  {
    if es != [] {
      if Enabled(s, es[0]) {
        StepInv(s, es[0]);
        RunInv(Next(s, es[0]).value, es[1..]);
      } else {
        RunInv(s, es[1..]);
      }
    }
  }

  ghost predicate Drained(s: System, p: Pipe) {
    && p in s.links && s.links[p].stage == Attached && s.links[p].alive && !s.links[p].refuses
    && s.links[p].taken == |s.links[p].log|
    && s.links[p].sub in s.subs && s.links[p].pub in s.pubs
  }

  ghost predicate Agreed(n: Node<nat>, x: Xpub, p: Pipe) {
    && (forall t :: p in Holders(x.subs, t) <==> Topics.Count(n, t) > 0)
    && (forall data :: p in Matched(x.subs, data) <==> Topics.Check(n, data))
  }

  /** What the publisher has read makes it hold what the subscriber has. */
  lemma DrainedHolds(s: System, p: Pipe, t: Topic)
    requires Inv(s) && Drained(s, p)
    ensures p in Holders(s.pubs[s.links[p].pub].x.subs, t) <==> Topics.Count(s.subs[s.links[p].sub].topics, t) > 0
  {
    hide Strict, Replay, SubOk, Sound, Holders, Topics.Count;
    var l := s.links[p];
    assert LinkOk(s, l) && Knows(s.links, l.pub, s.pubs[l.pub].x);
    assert l.log[..l.taken] == l.log;
    assert p in Holders(s.pubs[l.pub].x.subs, t) <==> t in Read(l);
  }

  lemma DrainedAgrees(s: System, p: Pipe)
    requires Inv(s) && Drained(s, p)
    ensures Agreed(s.subs[s.links[p].sub].topics, s.pubs[s.links[p].pub].x, p)
  {
    hide Inv, Holders, Topics.Count, Matched, Topics.Check;
    var n, x := s.subs[s.links[p].sub].topics, s.pubs[s.links[p].pub].x;
    forall t ensures p in Holders(x.subs, t) <==> Topics.Count(n, t) > 0 {
      DrainedHolds(s, p, t);
    }
    forall data ensures p in Matched(x.subs, data) <==> Topics.Check(n, data) {
      MatchedIff(x.subs, data, p);
      Topics.CheckIff(n, data);
    }
  }

  /** Once a pipe is drained, and its peer is not closing, its two ends agree on every topic, and the publisher selects
      the pipe for exactly those messages that the subscriber's own filter lets through. */
  lemma EndsAgree(es: seq<Step>, p: Pipe)
    requires Careful(START, es) && Run(START, es).Some? && Drained(Run(START, es).value, p)
    ensures var s := Run(START, es).value; Agreed(s.subs[s.links[p].sub].topics, s.pubs[s.links[p].pub].x, p)
  {
    hide Careful, Run, Agreed;
    RunInv(START, es);
    DrainedAgrees(Run(START, es).value, p);
  }

  /** In every careful run, what a publisher's user has received, with what is waiting, amounts to the topics that
      some pipe is subscribed to; without `verbose` nothing in it is redundant. */
  lemma UserKnows(es: seq<Step>, pub: nat)
    requires Careful(START, es)
    ensures Run(START, es).Some?
    ensures var s := Run(START, es).value;
            pub in s.pubs && s.pubs[pub].x.tells ==>
              var u := s.pubs[pub];
              && (forall t :: t in Replay(u.received + u.x.pending) <==> Holders(u.x.subs, t) != NOBODY)
              && (!u.x.verbose ==> Strict(u.received + u.x.pending))
  {
    RunInv(START, es);
  }

  // ----- chains

  /** An XSUB to which a stream is sent, as a device does with what it receives from an XPUB. */
  function Forward(s: seq<Blob>): Sent {
    if s == [] then Kept(Leaf(0))
    else
      match Forward(s[..|s| - 1])
      case Invalid => Invalid
      case Kept(n) => Send(n, s[|s| - 1])
      case Passed(n) => Send(n, s[|s| - 1])
  }

  /** Forwarding the notifications of a terse XPUB to an XSUB, nothing is refused or swallowed: the XSUB's
      topics are those of the XPUB, each counted once, and every message goes on upstream. */
  lemma {:induction false} ForwardPasses(s: seq<Blob>)
    requires Strict(s)
    ensures s != [] ==> Forward(s).Passed?
    ensures !Forward(s).Invalid?
    ensures Topics.Canonical(Forward(s).subs)
    ensures forall t :: Topics.Count(Forward(s).subs, t) == if t in Replay(s) then 1 else 0
  {
    if s == [] {
      LiveNulls<nat>([]);
      forall t ensures Topics.Count(Leaf(0), t) == 0 { LeafAt(0, t); }
    } else {
      var m := |s| - 1;
      ForwardPasses(s[..m]);
      var n := Forward(s[..m]).subs;
      match Parse(s[m])
      case Other =>
      case Subscribe(t) => Topics.AddMeans(n, t);
      case Unsubscribe(t) => Topics.RmMeans(n, t);
    }
  }
}
