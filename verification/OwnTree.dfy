/** The ownership tree of `own.cpp`: objects that launch children, ask each other to terminate and
    deallocate themselves, on different threads, with nothing but commands and counters between them.
    The machine interleaves all objects; commands from one object to another arrive in order, all
    others in any order. */
module OwnTree {
  import opened Options

  type Id = nat

  /** The fields of `own_t`. Of the commands counted by `sentSeq`, `reserved` are announced with
      `inc_seqnum` and not sent yet; of the events counted by `termAcks`, `events` were registered
      with `register_term_acks`. `gone`: destroyed. `depth`: distance from the root. */
  datatype Obj = Obj(owner: Option<Id>, terminating: bool, sentSeq: nat, procSeq: nat,
                     owned: set<Id>, termAcks: int, gone: bool, reserved: nat, events: nat, depth: nat)

  /** `Seq` stands for every other command that carries a sequence number (`attach`, `bind`). */
  datatype Cmd =
    | Plug(dst: Id, src: Id)
    | Own(dst: Id, obj: Id)
    | Seq(dst: Id, src: Id)
    | TermReq(dst: Id, obj: Id)
    | Term(dst: Id, src: Id)
    | TermAck(dst: Id, src: Id)

  function Sender(c: Cmd): Id {
    match c
    case Own(dst, _) => dst
    case TermReq(_, obj) => obj
    case Plug(_, src) => src
    case Seq(_, src) => src
    case Term(_, src) => src
    case TermAck(_, src) => src
  }

  /** `told`: objects that were sent `term`; `acked`: objects whose `term_ack` was processed;
      `failed`: some assertion did not hold. */
  datatype State = State(objs: map<Id, Obj>, flight: seq<Cmd>, told: set<Id>, acked: set<Id>, failed: bool)

  datatype Action =
    | NewRoot(o: Id)
    | LaunchChild(o: Id, child: Id, reserve: nat)
    | Reserve(o: Id)
    | SendReserved(o: Id, src: Id)
    | SendToOwner(o: Id)
    | Terminate(o: Id, order: seq<Id>)
    | TermChild(o: Id, child: Id)
    | RegisterEvents(o: Id, n: nat)
    | UnregisterEvent(o: Id)
    | Deliver(i: nat, order: seq<Id>)

  function Fresh(owner: Option<Id>, seqs: nat, reserved: nat, depth: nat): Obj {
    Obj(owner, false, seqs, 0, {}, 0, false, reserved, 0, depth)
  }

  predicate Live(s: State, o: Id) {
    o in s.objs && !s.objs[o].gone
  }

  /** An enumeration of a set, in the order in which its iterator visits it. */
  ghost predicate Lists(order: seq<Id>, xs: set<Id>) {
    && (forall x :: x in order <==> x in xs)
    && |order| == |xs|
    && (forall i, j :: 0 <= i < j < |order| ==> order[i] != order[j])
  }

  ghost predicate Enabled(s: State, a: Action) {
    && !s.failed
    && match a
       case NewRoot(o) => o !in s.objs
       case LaunchChild(o, child, _) => Live(s, o) && child !in s.objs
       // Announcing a command is allowed as long as the receiver cannot be shutting down yet.
       case Reserve(o) => Live(s, o) && !s.objs[o].terminating
       case SendReserved(o, _) => o in s.objs && s.objs[o].reserved > 0
       case SendToOwner(o) => Live(s, o) && s.objs[o].owner.Some?
       case Terminate(o, order) => Live(s, o) && Lists(order, s.objs[o].owned)
       case TermChild(o, _) => Live(s, o)
       case RegisterEvents(o, _) => Live(s, o)
       case UnregisterEvent(o) => Live(s, o) && s.objs[o].events > 0
       case Deliver(i, order) =>
         && i < |s.flight|
         && (s.flight[i].dst in s.objs ==> Lists(order, s.objs[s.flight[i].dst].owned))
         && forall j :: 0 <= j < i ==>
              s.flight[j].dst != s.flight[i].dst || Sender(s.flight[j]) != Sender(s.flight[i])
  }

  function Put(s: State, o: Id, obj: Obj): State {
    s.(objs := s.objs[o := obj])
  }

  function Post(s: State, c: Cmd): State {
    s.(flight := s.flight + [c], told := if c.Term? then s.told + {c.dst} else s.told)
  }

  /** `check_term_acks`: deallocate when nothing is awaited any more. */
  function Settle(s: State, o: Id): State
    requires o in s.objs
  {
    var obj := s.objs[o];
    if !(obj.terminating && obj.procSeq == obj.sentSeq && obj.termAcks == 0) then s
    else if obj.owned != {} then s.(failed := true)
    else
      var s1 := Put(s, o, obj.(gone := true));
      if obj.owner.Some? then Post(s1, TermAck(obj.owner.value, o)) else s1
  }

  function ProcessTermReq(s: State, o: Id, child: Id): State
    requires o in s.objs
  {
    var obj := s.objs[o];
    if obj.terminating || child !in obj.owned then s
    else Post(Put(s, o, obj.(owned := obj.owned - {child}, termAcks := obj.termAcks + 1)), Term(child, o))
  }

  function AllTerms(order: seq<Id>, o: Id): seq<Cmd> {
    seq(|order|, i requires 0 <= i < |order| => Term(order[i], o))
  }

  /** The first half of `process_term`: every owned object is told, and awaited from now on. */
  function TellAll(s: State, o: Id, order: seq<Id>): State
    requires o in s.objs
  {
    var obj := s.objs[o];
    Put(s, o, obj.(owned := {}, termAcks := obj.termAcks + |obj.owned|, terminating := true))
    .(flight := s.flight + AllTerms(order, o), told := s.told + obj.owned)
  }

  function ProcessTerm(s: State, o: Id, order: seq<Id>): State
    requires o in s.objs
  {
    if s.objs[o].terminating then s.(failed := true) else Settle(TellAll(s, o, order), o)
  }

  function CountOne(s: State, o: Id): State
    requires o in s.objs
  {
    Put(s, o, s.objs[o].(procSeq := s.objs[o].procSeq + 1))
  }

  function ProcessSeqnum(s: State, o: Id): State
    requires o in s.objs
  {
    Settle(CountOne(s, o), o)
  }

  function ProcessOwn(s: State, o: Id, child: Id): State
    requires o in s.objs
  {
    var obj := s.objs[o];
    if obj.terminating then Post(Put(s, o, obj.(termAcks := obj.termAcks + 1)), Term(child, o))
    else Put(s, o, obj.(owned := obj.owned + {child}))
  }

  function UnregisterTermAck(s: State, o: Id): State
    requires o in s.objs
  {
    var obj := s.objs[o];
    if obj.termAcks <= 0 then s.(failed := true)
    else Settle(Put(s, o, obj.(termAcks := obj.termAcks - 1)), o)
  }

  function Remove<T>(s: seq<T>, i: nat): seq<T>
    requires i < |s|
  {
    s[..i] + s[i + 1..]
  }

  function Process(s: State, c: Cmd, order: seq<Id>): State
    requires c.dst in s.objs
  {
    match c
    case Plug(dst, _) => ProcessSeqnum(s, dst)
    case Own(dst, child) => ProcessSeqnum(ProcessOwn(s, dst, child), dst)
    case Seq(dst, _) => ProcessSeqnum(s, dst)
    case TermReq(dst, child) => ProcessTermReq(s, dst, child)
    case Term(dst, _) => ProcessTerm(s, dst, order)
    case TermAck(dst, child) => UnregisterTermAck(s.(acked := s.acked + {child}), dst)
  }

  ghost function Step(s: State, a: Action): State
    requires Enabled(s, a)
  {
    match a
    case NewRoot(o) => Put(s, o, Fresh(None, 0, 0, 0))
    case LaunchChild(o, child, reserve) =>
      var s1 := Put(s, child, Fresh(Some(o), 1 + reserve, reserve, s.objs[o].depth + 1));
      Post(Post(Put(s1, o, s.objs[o].(sentSeq := s.objs[o].sentSeq + 1)), Plug(child, o)), Own(o, child))
    case Reserve(o) =>
      var obj := s.objs[o];
      Put(s, o, obj.(sentSeq := obj.sentSeq + 1, reserved := obj.reserved + 1))
    case SendReserved(o, src) =>
      Post(Put(s, o, s.objs[o].(reserved := s.objs[o].reserved - 1)), Seq(o, src))
    case SendToOwner(o) =>
      var p := s.objs[o].owner.value;
      if p !in s.objs then s.(failed := true)
      else Post(Put(s, p, s.objs[p].(sentSeq := s.objs[p].sentSeq + 1)), Seq(p, o))
    case Terminate(o, order) =>
      var obj := s.objs[o];
      if obj.terminating then s
      else if obj.owner == None then ProcessTerm(s, o, order)
      else Post(s, TermReq(obj.owner.value, o))
    case TermChild(o, child) => ProcessTermReq(s, o, child)
    case RegisterEvents(o, n) =>
      var obj := s.objs[o];
      Put(s, o, obj.(termAcks := obj.termAcks + n, events := obj.events + n))
    case UnregisterEvent(o) =>
      UnregisterTermAck(Put(s, o, s.objs[o].(events := s.objs[o].events - 1)), o)
    case Deliver(i, order) =>
      var c := s.flight[i];
      // Commands go to objects, not to freed memory.
      if !Live(s, c.dst) then s.(failed := true)
      else Process(s.(flight := Remove(s.flight, i)), c, order)
  }

  // ----- the invariant

  predicate Numbered(c: Cmd) {
    c.Plug? || c.Own? || c.Seq?
  }

  /** The numbered commands in flight to `o`. */
  function SeqCount(cmds: seq<Cmd>, o: Id): nat {
    if cmds == [] then 0
    else SeqCount(cmds[..|cmds| - 1], o)
         + (if Numbered(cmds[|cmds| - 1]) && cmds[|cmds| - 1].dst == o then 1 else 0)
  }

  /** The children of `o` that were told to terminate and whose acknowledgement is still to come. */
  function Awaited(s: State, o: Id): set<Id> {
    set c | c in s.objs && s.objs[c].owner == Some(o) && c in s.told && c !in s.acked
  }

  /** Sequence numbers: sent minus processed are the commands in flight or announced. */
  ghost predicate Counted(s: State, o: Id)
    requires o in s.objs
  {
    s.objs[o].sentSeq == s.objs[o].procSeq + SeqCount(s.flight, o) + s.objs[o].reserved
  }

  ghost predicate Waiting(s: State, o: Id)
    requires o in s.objs
  {
    s.objs[o].termAcks == |Awaited(s, o)| + s.objs[o].events
  }

  ghost predicate ObjectInv(s: State, o: Id)
    requires o in s.objs
  {
    var obj := s.objs[o];
    && (obj.terminating ==> obj.owned == {})
    && (obj.gone ==> obj.terminating && obj.procSeq == obj.sentSeq && obj.termAcks == 0)
    && (forall c :: c in obj.owned ==> c in s.objs && s.objs[c].owner == Some(o))
  }

  /** Where child `c` of `o` is between its launch and the end of its acknowledgement. */
  ghost predicate ChildInv(s: State, o: Id, c: Id)
    requires c in s.objs
  {
    && o in s.objs
    && (c in s.told <==> !(c in s.objs[o].owned || Own(o, c) in s.flight))
    && !(c in s.objs[o].owned && Own(o, c) in s.flight)
    && (Term(c, o) in s.flight <==> c in s.told && !s.objs[c].terminating)
    && (s.objs[c].terminating ==> c in s.told)
    && (TermAck(o, c) in s.flight <==> s.objs[c].gone && c !in s.acked)
    && (c in s.acked ==> s.objs[c].gone)
    && (TermReq(o, c) in s.flight ==> c !in s.acked)
  }

  ghost predicate ObjectOk(s: State, o: Id)
    requires o in s.objs
  {
    Counted(s, o) && Waiting(s, o) && ObjectInv(s, o)
  }

  ghost predicate Tree(s: State) {
    && (forall o :: o in s.objs ==> ObjectOk(s, o))
    && (forall c :: c in s.objs && s.objs[c].owner.Some? ==> ChildInv(s, s.objs[c].owner.value, c))
  }

  /** Commands between owner and child name the two correctly, the rest have receivers. */
  ghost predicate Addressed(s: State, c: Cmd) {
    && c.dst in s.objs
    && (c.Own? || c.TermReq? ==> c.obj in s.objs && s.objs[c.obj].owner == Some(c.dst))
    && (c.TermAck? ==> c.src in s.objs && s.objs[c.src].owner == Some(c.dst))
    && (c.Term? || c.Plug? ==> s.objs[c.dst].owner == Some(c.src))
  }

  predicate Unique(c: Cmd) {
    c.Plug? || c.Own? || c.Term? || c.TermAck?
  }

  ghost predicate Channel(s: State) {
    && (forall i :: 0 <= i < |s.flight| ==> Addressed(s, s.flight[i]))
    && (forall i, j :: 0 <= i < j < |s.flight| && Unique(s.flight[i]) ==> s.flight[i] != s.flight[j])
    && (forall i, j :: 0 <= i < j < |s.flight| && s.flight[i].TermAck? && s.flight[j].TermReq? ==>
          s.flight[i].src != s.flight[j].obj)
    && s.told <= s.objs.Keys && s.acked <= s.objs.Keys
  }

  ghost predicate Inv(s: State) {
    !s.failed && Tree(s) && Channel(s)
  }

  // ----- counting

  lemma CountAppend(s: seq<Cmd>, c: Cmd, o: Id)
    ensures SeqCount(s + [c], o) == SeqCount(s, o) + (if Numbered(c) && c.dst == o then 1 else 0)
  {
    assert (s + [c])[..|s|] == s;
  }

  lemma {:induction false} CountConcat(s: seq<Cmd>, t: seq<Cmd>, o: Id)
    ensures SeqCount(s + t, o) == SeqCount(s, o) + SeqCount(t, o)
    decreases |t|
  {
    if t == [] {
      assert s + t == s;
    } else {
      CountConcat(s, t[..|t| - 1], o);
      assert (s + t)[..|s + t| - 1] == s + t[..|t| - 1];
    }
  }

  lemma CountRemove(s: seq<Cmd>, i: nat, o: Id)
    requires i < |s|
    ensures SeqCount(Remove(s, i), o) == SeqCount(s, o) - (if Numbered(s[i]) && s[i].dst == o then 1 else 0)
  {
    CountConcat(s[..i], s[i + 1..], o);
    CountConcat(s[..i + 1], s[i + 1..], o);
    assert s[..i + 1] + s[i + 1..] == s;
    assert s[..i + 1] == s[..i] + [s[i]];
    CountAppend(s[..i], s[i], o);
  }

  lemma {:induction false} CountNone(s: seq<Cmd>, o: Id)
    requires forall i :: 0 <= i < |s| ==> !Numbered(s[i])
    ensures SeqCount(s, o) == 0
  {
    if s != [] {
      CountNone(s[..|s| - 1], o);
    }
  }

  lemma {:induction false} CountPositive(s: seq<Cmd>, i: nat, o: Id)
    requires i < |s| && Numbered(s[i]) && s[i].dst == o
    ensures SeqCount(s, o) > 0
  {
    if i < |s| - 1 {
      CountPositive(s[..|s| - 1], i, o);
    }
  }

  // ----- the channel

  /** `s'` keeps the owners of `s`, and its histories name known objects. */
  ghost predicate SameOwners(s: State, s': State) {
    && (forall x :: x in s.objs ==> x in s'.objs && s'.objs[x].owner == s.objs[x].owner)
    && s'.told <= s'.objs.Keys && s'.acked <= s'.objs.Keys
  }

  /** `c` may be sent: it is well addressed, no duplicate, and not a request after an acknowledgement. */
  ghost predicate Sendable(s: State, s': State, c: Cmd) {
    && Addressed(s', c)
    && (Unique(c) ==> c !in s.flight)
    && (c.TermReq? ==> TermAck(c.dst, c.obj) !in s.flight)
  }

  lemma ChannelSend(s: State, s': State, c: Cmd)
    requires Channel(s) && SameOwners(s, s') && s'.flight == s.flight + [c] && Sendable(s, s', c)
    ensures Channel(s')
  {
    forall i | 0 <= i < |s'.flight| ensures Addressed(s', s'.flight[i]) {
      if i < |s.flight| { assert Addressed(s, s.flight[i]); }
    }
    if c.TermReq? {
      forall i | 0 <= i < |s.flight| && s.flight[i].TermAck? ensures s.flight[i].src != c.obj {
        assert Addressed(s, s.flight[i]);
        assert s.flight[i] == TermAck(s.flight[i].dst, s.flight[i].src);
      }
    }
  }

  lemma ChannelSame(s: State, s': State)
    requires Channel(s) && SameOwners(s, s') && s'.flight == s.flight
    ensures Channel(s')
  {
    forall i | 0 <= i < |s'.flight| ensures Addressed(s', s'.flight[i]) {
      assert Addressed(s, s.flight[i]);
    }
  }

  lemma ChannelRemove(s: State, s': State, i: nat)
    requires Channel(s) && SameOwners(s, s') && i < |s.flight| && s'.flight == Remove(s.flight, i)
    ensures Channel(s')
    ensures Unique(s.flight[i]) ==> s.flight[i] !in s'.flight
    ensures forall c :: c != s.flight[i] ==> (c in s'.flight <==> c in s.flight)
  {
    var f, f' := s.flight, s'.flight;
    assert forall k :: 0 <= k < |f'| ==> f'[k] == f[if k < i then k else k + 1];
    forall k | 0 <= k < |f'| ensures Addressed(s', f'[k]) {
      assert Addressed(s, f[if k < i then k else k + 1]);
    }
    assert f == f[..i] + [f[i]] + f[i + 1..];
  }

  // ----- one object settles

  lemma SettleChild(s: State, o: Id, c: Id)
    requires Live(s, o) && c in s.objs && s.objs[c].owner.Some? && ObjectOk(s, o)
    requires ChildInv(s, s.objs[c].owner.value, c)
    ensures ChildInv(Settle(s, o), s.objs[c].owner.value, c)
  {
  }

  /** Nobody new is awaited when owners and histories stay as they are. */
  lemma SameWaiting(s: State, s': State, x: Id)
    requires x in s.objs && x in s'.objs && Waiting(s, x)
    requires s'.told == s.told && s'.acked == s.acked
    requires forall c :: c in s.objs <==> c in s'.objs
    requires forall c :: c in s.objs ==> s'.objs[c].owner == s.objs[c].owner
    requires s'.objs[x].termAcks - s'.objs[x].events == s.objs[x].termAcks - s.objs[x].events
    ensures Waiting(s', x)
  {
    assert Awaited(s', x) == Awaited(s, x);
  }

  lemma SettleCounted(s: State, o: Id, x: Id)
    requires o in s.objs && x in s.objs && Counted(s, x)
    ensures Counted(Settle(s, o), x)
  {
    if s.objs[o].owner.Some? {
      CountAppend(s.flight, TermAck(s.objs[o].owner.value, o), x);
    }
  }

  lemma SettleObjectInv(s: State, o: Id, x: Id)
    requires Live(s, o) && x in s.objs && ObjectInv(s, o) && ObjectInv(s, x)
    ensures ObjectInv(Settle(s, o), x)
  {
  }

  lemma SettleWaiting(s: State, o: Id, x: Id)
    requires o in s.objs && x in s.objs && Waiting(s, x)
    ensures Waiting(Settle(s, o), x)
  {
    SameWaiting(s, Settle(s, o), x);
  }

  lemma SettleObject(s: State, o: Id, x: Id)
    requires Live(s, o) && x in s.objs && ObjectOk(s, o) && ObjectOk(s, x)
    ensures ObjectOk(Settle(s, o), x)
  {
    SettleCounted(s, o, x);
    SettleWaiting(s, o, x);
    SettleObjectInv(s, o, x);
  }

  lemma SettleTree(s: State, o: Id)
    requires Inv(s) && Live(s, o)
    ensures Tree(Settle(s, o))
  {
    var s' := Settle(s, o);
    forall x | x in s'.objs ensures ObjectOk(s', x) { SettleObject(s, o, x); }
    forall c | c in s'.objs && s'.objs[c].owner.Some? ensures ChildInv(s', s'.objs[c].owner.value, c) {
      SettleChild(s, o, c);
    }
  }

  lemma SettleInv(s: State, o: Id)
    requires Inv(s) && Live(s, o)
    ensures Inv(Settle(s, o))
  {
    var s' := Settle(s, o);
    var obj := s.objs[o];
    assert ObjectOk(s, o);
    SettleTree(s, o);
    if s' != s && obj.owner.Some? {
      assert ChildInv(s, obj.owner.value, o);
      ChannelSend(s, s', TermAck(obj.owner.value, o));
    } else {
      ChannelSame(s, s');
    }
  }

  // ----- the steps that only move numbers

  /** Shutdown commands, as opposed to those that merely occupy a sequence number. */
  predicate Shapes(c: Cmd) {
    c.Own? || c.Term? || c.TermAck? || c.TermReq?
  }

  /** Child `c` of `o` looks the same in both states. */
  lemma ChildSame(s: State, s': State, o: Id, c: Id)
    requires c in s.objs && c in s'.objs && ChildInv(s, o, c) && o in s'.objs
    requires c in s'.objs[o].owned <==> c in s.objs[o].owned
    requires s'.objs[c].terminating == s.objs[c].terminating && s'.objs[c].gone == s.objs[c].gone
    requires (c in s'.told <==> c in s.told) && (c in s'.acked <==> c in s.acked)
    requires forall k :: k == Own(o, c) || k == Term(c, o) || k == TermAck(o, c) || k == TermReq(o, c) ==>
               (k in s'.flight <==> k in s.flight)
    ensures ChildInv(s', o, c)
  {
    assert Own(o, c) in s'.flight <==> Own(o, c) in s.flight;
    assert Term(c, o) in s'.flight <==> Term(c, o) in s.flight;
    assert TermAck(o, c) in s'.flight <==> TermAck(o, c) in s.flight;
    assert TermReq(o, c) in s'.flight <==> TermReq(o, c) in s.flight;
  }

  /** `obj'` differs from `obj` in its counters only. */
  predicate SameButCounters(obj: Obj, obj': Obj) {
    && obj'.owner == obj.owner && obj'.terminating == obj.terminating
    && obj'.owned == obj.owned && obj'.gone == obj.gone
    && obj'.termAcks - obj'.events == obj.termAcks - obj.events
  }

  lemma NumbersObject(s: State, s': State, o: Id, x: Id)
    requires x in s.objs && o in s.objs && ObjectOk(s, x) && !s.objs[o].gone && o in s'.objs
    requires s'.objs == s.objs[o := s'.objs[o]] && SameButCounters(s.objs[o], s'.objs[o])
    requires s'.told == s.told && s'.acked == s.acked
    requires Counted(s', x)
    ensures ObjectOk(s', x)
  {
    SameWaiting(s, s', x);
  }

  /** Object `o` changes its counters only, and no shutdown command enters or leaves the channel. */
  lemma NumbersInv(s: State, s': State, o: Id)
    requires Tree(s) && o in s.objs && !s.objs[o].gone && o in s'.objs
    requires s'.objs == s.objs[o := s'.objs[o]] && s'.told == s.told && s'.acked == s.acked
    requires SameButCounters(s.objs[o], s'.objs[o])
    requires forall x :: x in s.objs ==> Counted(s', x)
    requires forall c :: Shapes(c) ==> (c in s'.flight <==> c in s.flight)
    ensures Tree(s')
  {
    forall x | x in s'.objs ensures ObjectOk(s', x) {
      NumbersObject(s, s', o, x);
    }
    hide ObjectOk;
    forall c | c in s'.objs && s'.objs[c].owner.Some? ensures ChildInv(s', s'.objs[c].owner.value, c) {
      ChildSame(s, s', s.objs[c].owner.value, c);
    }
  }

  lemma ReserveInv(s: State, o: Id)
    requires Inv(s) && Enabled(s, Reserve(o))
    ensures Inv(Step(s, Reserve(o)))
  {
    var s' := Step(s, Reserve(o));
    forall x | x in s.objs ensures Counted(s', x) { assert ObjectOk(s, x); }
    ChannelSame(s, s');
    NumbersInv(s, s', o);
  }

  lemma RegisterInv(s: State, o: Id, n: nat)
    requires Inv(s) && Enabled(s, RegisterEvents(o, n))
    ensures Inv(Step(s, RegisterEvents(o, n)))
  {
    var s' := Step(s, RegisterEvents(o, n));
    forall x | x in s.objs ensures Counted(s', x) { assert ObjectOk(s, x); }
    ChannelSame(s, s');
    NumbersInv(s, s', o);
  }

  lemma PostSeqInv(s: State, s': State, o: Id, obj: Obj, c: Cmd)
    requires Inv(s) && Live(s, o) && c.Seq? && c.dst == o
    requires s' == Post(Put(s, o, obj), c)
    requires obj == s.objs[o].(sentSeq := obj.sentSeq, reserved := obj.reserved)
    requires obj.sentSeq - obj.reserved == s.objs[o].sentSeq - s.objs[o].reserved + 1
    ensures Inv(s')
  {
    forall x | x in s.objs ensures Counted(s', x) {
      assert ObjectOk(s, x);
      CountAppend(s.flight, c, x);
    }
    ChannelSend(s, s', c);
    NumbersInv(s, s', o);
  }

  /** Announced or numbered commands keep their receiver alive. */
  lemma CountedIsLive(s: State, o: Id)
    requires o in s.objs && ObjectOk(s, o)
    requires s.objs[o].reserved > 0 || SeqCount(s.flight, o) > 0
    ensures Live(s, o)
  {
  }

  /** While a child is not done, its owner is there. */
  lemma OwnerIsLive(s: State, c: Id)
    requires Inv(s) && c in s.objs && s.objs[c].owner.Some?
    requires !s.objs[c].gone || c !in s.acked
    ensures Live(s, s.objs[c].owner.value)
  {
    var o := s.objs[c].owner.value;
    assert ChildInv(s, o, c);
    assert ObjectOk(s, o);
    if Own(o, c) in s.flight {
      var i :| 0 <= i < |s.flight| && s.flight[i] == Own(o, c);
      CountPositive(s.flight, i, o);
    } else if c in s.told {
      assert c in Awaited(s, o);
    }
  }

  // ----- new objects

  lemma {:induction false} NoneFor(cmds: seq<Cmd>, o: Id)
    requires forall i :: 0 <= i < |cmds| ==> cmds[i].dst != o
    ensures SeqCount(cmds, o) == 0
  {
    if cmds != [] {
      NoneFor(cmds[..|cmds| - 1], o);
    }
  }

  /** No command, history or object mentions `o`. */
  ghost predicate Unknown(s: State, o: Id) {
    && SeqCount(s.flight, o) == 0
    && (forall c :: c in s.objs ==> s.objs[c].owner != Some(o))
    && o !in s.told && o !in s.acked
    && (forall c :: c in s.flight ==> c.dst != o && ((c.Own? || c.TermReq?) ==> c.obj != o) && (c.TermAck? ==> c.src != o))
    && (forall x :: x in s.objs ==> o !in s.objs[x].owned)
  }

  /** An object that does not exist yet is mentioned nowhere. */
  lemma Unmentioned(s: State, o: Id)
    requires Inv(s) && o !in s.objs
    ensures Unknown(s, o)
  {
    forall i | 0 <= i < |s.flight|
      ensures s.flight[i].dst != o && ((s.flight[i].Own? || s.flight[i].TermReq?) ==> s.flight[i].obj != o)
              && (s.flight[i].TermAck? ==> s.flight[i].src != o)
    {
      assert Addressed(s, s.flight[i]);
    }
    NoneFor(s.flight, o);
    forall c | c in s.objs ensures s.objs[c].owner != Some(o) {
      if s.objs[c].owner.Some? { assert ChildInv(s, s.objs[c].owner.value, c); }
    }
    forall x | x in s.objs ensures o !in s.objs[x].owned { assert ObjectOk(s, x); }
  }

  /** Object `x` itself is untouched, and so is what it counts and awaits. */
  lemma OtherObject(s: State, s': State, x: Id)
    requires x in s.objs && x in s'.objs && s'.objs[x] == s.objs[x] && ObjectOk(s, x)
    requires SeqCount(s'.flight, x) == SeqCount(s.flight, x)
    requires Awaited(s', x) == Awaited(s, x)
    requires forall c :: c in s.objs ==> c in s'.objs && s'.objs[c].owner == s.objs[c].owner
    ensures ObjectOk(s', x)
  {
  }

  /** A new object `o` is nobody's awaited child, and awaits nobody. */
  lemma NewAwaits(s: State, s': State, o: Id, x: Id)
    requires s'.objs.Keys == s.objs.Keys + {o} && o !in s.objs
    requires o !in s.told && s'.told == s.told && s'.acked == s.acked
    requires forall c :: c in s.objs ==> s'.objs[c].owner == s.objs[c].owner && s.objs[c].owner != Some(o)
    ensures x == o ==> Awaited(s', x) == {}
    ensures x != o ==> Awaited(s', x) == Awaited(s, x)
  {
  }

  lemma NewRootTree(s: State, o: Id)
    requires Inv(s) && Enabled(s, NewRoot(o))
    ensures Tree(Step(s, NewRoot(o)))
  {
    var s' := Step(s, NewRoot(o));
    Unmentioned(s, o);
    forall x | x in s'.objs ensures ObjectOk(s', x) {
      NewAwaits(s, s', o, x);
      if x != o { OtherObject(s, s', x); }
    }
    forall c | c in s'.objs && s'.objs[c].owner.Some? ensures ChildInv(s', s'.objs[c].owner.value, c) {
      ChildSame(s, s', s.objs[c].owner.value, c);
    }
  }

  lemma NewRootInv(s: State, o: Id)
    requires Inv(s) && Enabled(s, NewRoot(o))
    ensures Inv(Step(s, NewRoot(o)))
  {
    NewRootTree(s, o);
    ChannelSame(s, Step(s, NewRoot(o)));
  }

  ghost predicate Launched(s: State, s': State, o: Id, child: Id, r: nat) {
    && Live(s, o) && child !in s.objs
    && s'.objs == s.objs[child := Fresh(Some(o), 1 + r, r, s.objs[o].depth + 1)][o := s.objs[o].(sentSeq := s.objs[o].sentSeq + 1)]
    && s'.flight == s.flight + [Plug(child, o)] + [Own(o, child)]
    && s'.told == s.told && s'.acked == s.acked
  }

  lemma LaunchCounted(s: State, s': State, o: Id, child: Id, r: nat, x: Id)
    requires Launched(s, s', o, child, r) && x in s'.objs
    requires SeqCount(s.flight, child) == 0 && (x != child ==> Counted(s, x))
    ensures Counted(s', x)
    ensures x != child && x != o ==> SeqCount(s'.flight, x) == SeqCount(s.flight, x)
  {
    CountAppend(s.flight, Plug(child, o), x);
    CountAppend(s.flight + [Plug(child, o)], Own(o, child), x);
  }

  lemma LaunchObject(s: State, s': State, o: Id, child: Id, r: nat, x: Id)
    requires Launched(s, s', o, child, r) && x in s'.objs
    requires SeqCount(s.flight, child) == 0 && (x != child ==> ObjectOk(s, x))
    requires child !in s.told && forall c :: c in s.objs ==> s.objs[c].owner != Some(child)
    ensures ObjectOk(s', x)
  {
    LaunchCounted(s, s', o, child, r, x);
    NewAwaits(s, s', child, x);
    if x != child && x != o { OtherObject(s, s', x); }
  }

  lemma LaunchChildInv(s: State, s': State, o: Id, child: Id, r: nat)
    requires Launched(s, s', o, child, r) && Unknown(s, child)
    ensures ChildInv(s', o, child)
  {
    assert s'.flight[|s.flight| + 1] == Own(o, child);
  }

  lemma LaunchOther(s: State, s': State, o: Id, child: Id, r: nat, c: Id)
    requires Launched(s, s', o, child, r)
    requires c in s.objs && s.objs[c].owner.Some? && ChildInv(s, s.objs[c].owner.value, c)
    ensures ChildInv(s', s.objs[c].owner.value, c)
  {
    ChildSame(s, s', s.objs[c].owner.value, c);
  }

  lemma LaunchTree(s: State, s': State, o: Id, child: Id, r: nat)
    requires Tree(s) && Launched(s, s', o, child, r) && Unknown(s, child)
    ensures Tree(s')
  {
    forall x | x in s'.objs ensures ObjectOk(s', x) { LaunchObject(s, s', o, child, r, x); }
    forall c | c in s'.objs && s'.objs[c].owner.Some? ensures ChildInv(s', s'.objs[c].owner.value, c) {
      if c == child { LaunchChildInv(s, s', o, child, r); } else { LaunchOther(s, s', o, child, r, c); }
    }
  }

  lemma LaunchChannel(s: State, s': State, o: Id, child: Id, r: nat)
    requires Channel(s) && Launched(s, s', o, child, r) && Unknown(s, child)
    ensures Channel(s')
  {
    var s1 := s'.(flight := s.flight + [Plug(child, o)]);
    ChannelSend(s, s1, Plug(child, o));
    ChannelSend(s1, s', Own(o, child));
  }

  lemma LaunchIs(s: State, o: Id, child: Id, r: nat)
    requires Enabled(s, LaunchChild(o, child, r))
    ensures Launched(s, Step(s, LaunchChild(o, child, r)), o, child, r)
  {
  }

  lemma LaunchInv(s: State, o: Id, child: Id, r: nat)
    requires Inv(s) && Enabled(s, LaunchChild(o, child, r))
    ensures Inv(Step(s, LaunchChild(o, child, r)))
  {
    LaunchIs(s, o, child, r);
    Unmentioned(s, child);
    LaunchTree(s, Step(s, LaunchChild(o, child, r)), o, child, r);
    LaunchChannel(s, Step(s, LaunchChild(o, child, r)), o, child, r);
  }

  // ----- telling children to terminate

  lemma AwaitOne(s: State, s': State, o: Id, child: Id)
    requires child in s.objs && s.objs[child].owner == Some(o) && child !in s.told && child !in s.acked
    requires s'.told == s.told + {child} && s'.acked == s.acked
    requires forall c :: c in s.objs <==> c in s'.objs
    requires forall c :: c in s.objs ==> s'.objs[c].owner == s.objs[c].owner
    ensures |Awaited(s', o)| == |Awaited(s, o)| + 1
    ensures forall x :: x != o ==> Awaited(s', x) == Awaited(s, x)
  {
    assert Awaited(s', o) == Awaited(s, o) + {child};
    forall x | x != o ensures Awaited(s', x) == Awaited(s, x) {}
  }

  /** `child` of `o`, so far owned or about to be, is sent `term`. */
  ghost predicate Tells(s: State, s': State, o: Id, child: Id, obj: Obj) {
    && o in s.objs && child in s.objs && s.objs[child].owner == Some(o) && child !in s.told
    && s'.objs == s.objs[o := obj] && s'.flight == s.flight + [Term(child, o)]
    && s'.told == s.told + {child} && s'.acked == s.acked
    && obj == s.objs[o].(owned := obj.owned, termAcks := s.objs[o].termAcks + 1)
    && obj.owned == s.objs[o].owned - {child}
  }

  lemma TellsObject(s: State, s': State, o: Id, child: Id, x: Id)
    requires x in s.objs && o in s'.objs && Tells(s, s', o, child, s'.objs[o]) && ObjectOk(s, x)
    requires !s.objs[o].gone && child !in s.acked
    ensures ObjectOk(s', x)
  {
    CountAppend(s.flight, Term(child, o), x);
    AwaitOne(s, s', o, child);
    if x != o { OtherObject(s, s', x); }
  }

  lemma TellsChild(s: State, s': State, o: Id, child: Id, c: Id)
    requires o in s'.objs && Tells(s, s', o, child, s'.objs[o]) && !s.objs[o].gone
    requires Own(o, child) !in s.flight
    requires c in s.objs && s.objs[c].owner.Some? && ChildInv(s, s.objs[c].owner.value, c)
    ensures ChildInv(s', s.objs[c].owner.value, c)
  {
    if c != child { ChildSame(s, s', s.objs[c].owner.value, c); }
  }

  lemma NotTold(s: State, o: Id, child: Id)
    requires Tree(s) && child in s.objs && s.objs[child].owner == Some(o) && child !in s.told
    ensures Term(child, o) !in s.flight
  {
    assert ChildInv(s, o, child);
    hide ObjectOk;
  }

  lemma TellsTree(s: State, s': State, o: Id, child: Id)
    requires Tree(s) && o in s'.objs && Tells(s, s', o, child, s'.objs[o])
    requires !s.objs[o].gone && child !in s.acked && Own(o, child) !in s.flight
    ensures Tree(s')
  {
    forall x | x in s'.objs ensures ObjectOk(s', x) { TellsObject(s, s', o, child, x); }
    forall c | c in s'.objs && s'.objs[c].owner.Some? ensures ChildInv(s', s'.objs[c].owner.value, c) {
      TellsChild(s, s', o, child, c);
    }
    hide ObjectOk, ChildInv;
  }

  lemma TellsInv(s: State, s': State, o: Id, child: Id)
    requires Tree(s) && Channel(s) && o in s'.objs && Tells(s, s', o, child, s'.objs[o])
    requires !s.objs[o].gone && child !in s.acked && Own(o, child) !in s.flight
    ensures Tree(s') && Channel(s')
  {
    TellsTree(s, s', o, child);
    NotTold(s, o, child);
    hide Tree, Channel;
    ChannelSend(s, s', Term(child, o));
  }

  lemma TermReqInv(s: State, o: Id, child: Id)
    requires Inv(s) && Live(s, o)
    ensures Inv(ProcessTermReq(s, o, child))
  {
    if !s.objs[o].terminating && child in s.objs[o].owned {
      assert ObjectOk(s, o);
      assert ChildInv(s, o, child);
      TellsInv(s, ProcessTermReq(s, o, child), o, child);
    }
  }

  // ----- deliveries

  /** `Plug` or another numbered command is counted. */
  lemma NumberedInv(s: State, i: nat)
    requires Inv(s) && i < |s.flight| && Live(s, s.flight[i].dst)
    requires s.flight[i].Plug? || s.flight[i].Seq?
    ensures Inv(CountOne(s.(flight := Remove(s.flight, i)), s.flight[i].dst))
  {
    var o := s.flight[i].dst;
    var s' := CountOne(s.(flight := Remove(s.flight, i)), o);
    NumberedCounts(s, i);
    ChannelRemove(s, s', i);
    hide Tree, Channel, Counted, Remove;
    NumbersInv(s, s', o);
  }

  lemma NumberedCounts(s: State, i: nat)
    requires Tree(s) && i < |s.flight| && s.flight[i].dst in s.objs && Numbered(s.flight[i])
    ensures var s' := CountOne(s.(flight := Remove(s.flight, i)), s.flight[i].dst);
            forall x :: x in s.objs ==> Counted(s', x)
  {
    var s' := CountOne(s.(flight := Remove(s.flight, i)), s.flight[i].dst);
    forall x | x in s.objs ensures Counted(s', x) {
      assert ObjectOk(s, x);
      CountRemove(s.flight, i, x);
    }
  }

  /** `own` arrives at a live owner that is not terminating: the child is owned from now on. */
  ghost predicate Adopts(s: State, s': State, i: nat) {
    && i < |s.flight| && s.flight[i].Own? && s.flight[i].dst in s.objs
    && s'.flight == Remove(s.flight, i) && s'.told == s.told && s'.acked == s.acked
    && (var o, child := s.flight[i].dst, s.flight[i].obj;
        var obj := s.objs[o];
        && child in s.objs && s.objs[child].owner == Some(o) && !obj.gone && !obj.terminating
        && s'.objs == s.objs[o := obj.(owned := obj.owned + {child}, procSeq := obj.procSeq + 1)])
  }

  lemma AdoptsObject(s: State, s': State, i: nat, x: Id)
    requires Adopts(s, s', i) && x in s.objs && ObjectOk(s, x)
    ensures ObjectOk(s', x)
  {
    CountRemove(s.flight, i, x);
    assert Awaited(s', x) == Awaited(s, x);
  }

  lemma AdoptsChild(s: State, s': State, i: nat, c: Id)
    requires Adopts(s, s', i) && c in s.objs && s.objs[c].owner.Some? && ChildInv(s, s.objs[c].owner.value, c)
    requires s.flight[i] !in s'.flight && forall k :: k != s.flight[i] ==> (k in s'.flight <==> k in s.flight)
    ensures ChildInv(s', s.objs[c].owner.value, c)
  {
    if c != s.flight[i].obj { ChildSame(s, s', s.objs[c].owner.value, c); }
  }

  lemma AdoptsInv(s: State, s': State, i: nat)
    requires Tree(s) && Channel(s) && Adopts(s, s', i)
    ensures Tree(s') && Channel(s')
  {
    ChannelRemove(s, s', i);
    forall x | x in s'.objs ensures ObjectOk(s', x) { AdoptsObject(s, s', i, x); }
    forall c | c in s'.objs && s'.objs[c].owner.Some? ensures ChildInv(s', s'.objs[c].owner.value, c) {
      AdoptsChild(s, s', i, c);
    }
  }

  /** `own` arrives at a terminating owner: the child is told at once. */
  ghost predicate Refuses(s: State, s': State, i: nat) {
    && i < |s.flight| && s.flight[i].Own? && s.flight[i].dst in s.objs
    && s'.acked == s.acked
    && (var o, child := s.flight[i].dst, s.flight[i].obj;
        var obj := s.objs[o];
        && child in s.objs && s.objs[child].owner == Some(o) && !obj.gone && obj.terminating
        && child !in s.told && child !in s.acked
        && s'.objs == s.objs[o := obj.(termAcks := obj.termAcks + 1, procSeq := obj.procSeq + 1)]
        && s'.flight == Remove(s.flight, i) + [Term(child, o)] && s'.told == s.told + {child})
  }

  lemma RefusesObject(s: State, s': State, i: nat, x: Id)
    requires Refuses(s, s', i) && x in s.objs && ObjectOk(s, x)
    ensures ObjectOk(s', x)
  {
    var o, child := s.flight[i].dst, s.flight[i].obj;
    CountRemove(s.flight, i, x);
    CountAppend(Remove(s.flight, i), Term(child, o), x);
    AwaitOne(s, s', o, child);
    if x != o { OtherObject(s, s', x); }
  }

  lemma RefusesChild(s: State, s': State, i: nat, c: Id)
    requires Refuses(s, s', i) && c in s.objs && s.objs[c].owner.Some? && ChildInv(s, s.objs[c].owner.value, c)
    requires var f := Remove(s.flight, i);
             s.flight[i] !in f && forall k :: k != s.flight[i] ==> (k in f <==> k in s.flight)
    ensures ChildInv(s', s.objs[c].owner.value, c)
  {
    if c != s.flight[i].obj { ChildSame(s, s', s.objs[c].owner.value, c); }
  }

  lemma RefusesTree(s: State, s': State, i: nat)
    requires Tree(s) && Refuses(s, s', i)
    requires var f := Remove(s.flight, i);
             s.flight[i] !in f && forall k :: k != s.flight[i] ==> (k in f <==> k in s.flight)
    ensures Tree(s')
  {
    forall x | x in s'.objs ensures ObjectOk(s', x) { RefusesObject(s, s', i, x); }
    forall c | c in s'.objs && s'.objs[c].owner.Some? ensures ChildInv(s', s'.objs[c].owner.value, c) {
      RefusesChild(s, s', i, c);
    }
    hide ObjectOk, ChildInv, Remove;
  }

  lemma RefusesInv(s: State, s': State, i: nat)
    requires Tree(s) && Channel(s) && Refuses(s, s', i)
    ensures Tree(s') && Channel(s')
  {
    var o, child := s.flight[i].dst, s.flight[i].obj;
    var s1 := s.(flight := Remove(s.flight, i));
    ChannelRemove(s, s1, i);
    RefusesTree(s, s', i);
    NotTold(s, o, child);
    assert Term(child, o) !in s1.flight;
    hide Tree, Channel, Remove;
    ChannelSend(s1, s', Term(child, o));
  }

  function AfterOwn(s: State, i: nat): State
    requires i < |s.flight| && s.flight[i].Own? && s.flight[i].dst in s.objs
  {
    CountOne(ProcessOwn(s.(flight := Remove(s.flight, i)), s.flight[i].dst, s.flight[i].obj), s.flight[i].dst)
  }

  lemma OwnFacts(s: State, i: nat)
    requires Inv(s) && i < |s.flight| && s.flight[i].Own?
    ensures var o, child := s.flight[i].dst, s.flight[i].obj;
            && o in s.objs && child in s.objs && s.objs[child].owner == Some(o)
            && child !in s.told && child !in s.acked
  {
    assert Addressed(s, s.flight[i]);
    assert ChildInv(s, s.flight[i].dst, s.flight[i].obj);
    assert ObjectOk(s, s.flight[i].obj);
  }

  lemma OwnIs(s: State, i: nat)
    requires i < |s.flight| && s.flight[i].Own? && Live(s, s.flight[i].dst)
    requires var o, child := s.flight[i].dst, s.flight[i].obj;
             child in s.objs && s.objs[child].owner == Some(o) && child !in s.told && child !in s.acked
    ensures if s.objs[s.flight[i].dst].terminating then Refuses(s, AfterOwn(s, i), i) else Adopts(s, AfterOwn(s, i), i)
  {
  }

  /** The numbered command `own` is processed by a live owner. */
  lemma OwnInv(s: State, i: nat)
    requires Inv(s) && i < |s.flight| && s.flight[i].Own? && Live(s, s.flight[i].dst)
    ensures Inv(AfterOwn(s, i))
  {
    OwnFacts(s, i);
    OwnIs(s, i);
    if s.objs[s.flight[i].dst].terminating {
      RefusesInv(s, AfterOwn(s, i), i);
    } else {
      AdoptsInv(s, AfterOwn(s, i), i);
    }
  }

  /** `term_ack` arrives: one child less is awaited. */
  ghost predicate Acknowledges(s: State, s': State, i: nat) {
    && i < |s.flight| && s.flight[i].TermAck? && s.flight[i].dst in s.objs
    && s'.flight == Remove(s.flight, i) && s'.told == s.told
    && (var o, child := s.flight[i].dst, s.flight[i].src;
        && child in s.objs && s.objs[child].owner == Some(o) && !s.objs[o].gone
        && child in s.told && child !in s.acked && s.objs[child].gone && s.objs[child].terminating
        && s'.objs == s.objs[o := s.objs[o].(termAcks := s.objs[o].termAcks - 1)]
        && s'.acked == s.acked + {child}
        && TermReq(o, child) !in s'.flight)
  }

  lemma AcknowledgesAwaited(s: State, s': State, i: nat, x: Id)
    requires Acknowledges(s, s', i) && x in s.objs
    ensures var o, child := s.flight[i].dst, s.flight[i].src;
            && (x == o ==> child in Awaited(s, x))
            && Awaited(s', x) == Awaited(s, x) - if x == o then {child} else {}
  {
    hide Remove;
  }

  lemma AcknowledgesObject(s: State, s': State, i: nat, x: Id)
    requires Acknowledges(s, s', i) && x in s.objs && ObjectOk(s, x)
    ensures ObjectOk(s', x)
  {
    var o, child := s.flight[i].dst, s.flight[i].src;
    CountRemove(s.flight, i, x);
    AcknowledgesAwaited(s, s', i, x);
    hide Awaited, Remove;
    if x != o { OtherObject(s, s', x); }
  }

  lemma AcknowledgesChild(s: State, s': State, i: nat, c: Id)
    requires Acknowledges(s, s', i) && c in s.objs && s.objs[c].owner.Some? && ChildInv(s, s.objs[c].owner.value, c)
    requires s.flight[i] !in s'.flight && forall k :: k != s.flight[i] ==> (k in s'.flight <==> k in s.flight)
    ensures ChildInv(s', s.objs[c].owner.value, c)
  {
    if c != s.flight[i].src { ChildSame(s, s', s.objs[c].owner.value, c); }
  }

  /** Commands of one sender arrive in order, so no request is behind the acknowledgement. */
  lemma NoRequestLeft(s: State, i: nat)
    requires Channel(s) && i < |s.flight| && s.flight[i].TermAck?
    requires forall j :: 0 <= j < i ==> s.flight[j].dst != s.flight[i].dst || Sender(s.flight[j]) != Sender(s.flight[i])
    ensures TermReq(s.flight[i].dst, s.flight[i].src) !in Remove(s.flight, i)
  {
    var req := TermReq(s.flight[i].dst, s.flight[i].src);
    forall j | 0 <= j < |s.flight| ensures s.flight[j] != req {
      if j < i { assert Sender(req) == Sender(s.flight[i]); }
    }
  }

  lemma AcknowledgesInv(s: State, s': State, i: nat)
    requires Tree(s) && Channel(s) && Acknowledges(s, s', i)
    ensures Tree(s') && Channel(s')
  {
    ChannelRemove(s, s', i);
    forall x | x in s'.objs ensures ObjectOk(s', x) { AcknowledgesObject(s, s', i, x); }
    forall c | c in s'.objs && s'.objs[c].owner.Some? ensures ChildInv(s', s'.objs[c].owner.value, c) {
      AcknowledgesChild(s, s', i, c);
    }
  }

  function AfterAck(s: State, i: nat): State
    requires i < |s.flight| && s.flight[i].TermAck? && s.flight[i].dst in s.objs
  {
    var o := s.flight[i].dst;
    Put(s.(flight := Remove(s.flight, i), acked := s.acked + {s.flight[i].src}), o,
        s.objs[o].(termAcks := s.objs[o].termAcks - 1))
  }

  lemma AckFacts(s: State, i: nat)
    requires Inv(s) && i < |s.flight| && s.flight[i].TermAck?
    ensures var o, child := s.flight[i].dst, s.flight[i].src;
            && o in s.objs && child in s.objs && s.objs[child].owner == Some(o)
            && child in s.told && child !in s.acked && s.objs[child].gone && s.objs[child].terminating
            && s.objs[o].termAcks > 0
  {
    var o, child := s.flight[i].dst, s.flight[i].src;
    assert Addressed(s, s.flight[i]);
    assert ChildInv(s, o, child);
    assert ObjectOk(s, o) && ObjectOk(s, child);
    assert child in Awaited(s, o);
  }

  lemma AckInv(s: State, i: nat)
    requires Inv(s) && i < |s.flight| && s.flight[i].TermAck? && Live(s, s.flight[i].dst)
    requires forall j :: 0 <= j < i ==> s.flight[j].dst != s.flight[i].dst || Sender(s.flight[j]) != Sender(s.flight[i])
    ensures Inv(AfterAck(s, i))
  {
    AckFacts(s, i);
    NoRequestLeft(s, i);
    AcknowledgesInv(s, AfterAck(s, i), i);
  }

  // ----- terminating

  /** `o` starts to terminate; `f` is the channel without the `term` that told it, if any. */
  ghost predicate Starts(s: State, s': State, o: Id, f: seq<Cmd>, order: seq<Id>) {
    && o in s.objs && !s.objs[o].terminating && !s.objs[o].gone && Lists(order, s.objs[o].owned)
    && s'.flight == f + AllTerms(order, o)
    && s'.told == s.told + s.objs[o].owned && s'.acked == s.acked
    && s'.objs == s.objs[o := s.objs[o].(owned := {}, terminating := true,
                                         termAcks := s.objs[o].termAcks + |s.objs[o].owned|)]
    && (forall k :: k in f ==> k in s.flight)
    && (forall k :: k in s.flight && k !in f ==> k.Term? && k.dst == o)
    && (s.objs[o].owner.Some? ==> o in s.told && Term(o, s.objs[o].owner.value) !in f)
  }

  lemma DisjointSize(xs: set<Id>, ys: set<Id>)
    requires xs !! ys
    ensures |xs + ys| == |xs| + |ys|
  {
    assert |xs + ys| + |xs * ys| == |xs| + |ys|;
  }

  lemma AwaitAll(s: State, s': State, o: Id, xs: set<Id>)
    requires s'.told == s.told + xs && s'.acked == s.acked && s'.objs.Keys == s.objs.Keys
    requires forall c :: c in s.objs ==> s'.objs[c].owner == s.objs[c].owner
    requires forall c :: c in xs ==> c in s.objs && s.objs[c].owner == Some(o) && c !in s.told && c !in s.acked
    ensures Awaited(s', o) == Awaited(s, o) + xs && Awaited(s, o) !! xs
    ensures forall x :: x != o ==> Awaited(s', x) == Awaited(s, x)
  {
    forall x | x != o ensures Awaited(s', x) == Awaited(s, x) {}
  }

  lemma StartsWaiting(s: State, s': State, o: Id, f: seq<Cmd>, order: seq<Id>, x: Id)
    requires Starts(s, s', o, f, order) && x in s.objs && Waiting(s, x)
    requires forall c :: c in s.objs[o].owned ==> c in s.objs && s.objs[c].owner == Some(o) && c !in s.told && c !in s.acked
    ensures Waiting(s', x)
    ensures x != o ==> Awaited(s', x) == Awaited(s, x)
  {
    AwaitAll(s, s', o, s.objs[o].owned);
    DisjointSize(Awaited(s, o), s.objs[o].owned);
  }

  lemma StartsObject(s: State, s': State, o: Id, f: seq<Cmd>, order: seq<Id>, x: Id)
    requires Starts(s, s', o, f, order) && x in s.objs && ObjectOk(s, x)
    requires forall c :: c in s.objs[o].owned ==> c in s.objs && s.objs[c].owner == Some(o) && c !in s.told && c !in s.acked
    requires SeqCount(f, x) == SeqCount(s.flight, x)
    ensures ObjectOk(s', x)
  {
    StartsWaiting(s, s', o, f, order, x);
    CountConcat(f, AllTerms(order, o), x);
    CountNone(AllTerms(order, o), x);
    if x != o { OtherObject(s, s', x); }
  }

  lemma TermsListed(order: seq<Id>, xs: set<Id>, o: Id, k: Cmd)
    requires Lists(order, xs)
    ensures k in AllTerms(order, o) <==> k.Term? && k.src == o && k.dst in xs
  {
    if k.Term? && k.src == o && k.dst in xs {
      var i :| 0 <= i < |order| && order[i] == k.dst;
      assert AllTerms(order, o)[i] == k;
    }
  }

  lemma StartsChild(s: State, s': State, o: Id, f: seq<Cmd>, order: seq<Id>, c: Id)
    requires Starts(s, s', o, f, order)
    requires c in s.objs && s.objs[c].owner.Some? && ChildInv(s, s.objs[c].owner.value, c)
    requires forall x :: x in s.objs[o].owned ==> x in s.objs && s.objs[x].owner == Some(o)
    ensures ChildInv(s', s.objs[c].owner.value, c)
  {
    var p := s.objs[c].owner.value;
    forall k ensures k in s'.flight <==> k in f || k in AllTerms(order, o) {}
    TermsListed(order, s.objs[o].owned, o, Own(p, c));
    TermsListed(order, s.objs[o].owned, o, Term(c, p));
    TermsListed(order, s.objs[o].owned, o, TermAck(p, c));
    TermsListed(order, s.objs[o].owned, o, TermReq(p, c));
  }

  lemma {:induction false} ChannelSendAll(s: State, s': State, cmds: seq<Cmd>)
    requires Channel(s) && SameOwners(s, s') && s'.flight == s.flight + cmds
    requires forall i :: 0 <= i < |cmds| ==> Addressed(s', cmds[i]) && cmds[i].Term? && cmds[i] !in s.flight
    requires forall i, j :: 0 <= i < j < |cmds| ==> cmds[i] != cmds[j]
    ensures Channel(s')
    decreases |cmds|
  {
    if cmds == [] {
      assert s.flight + cmds == s.flight;
      ChannelSame(s, s');
    } else {
      var n := |cmds| - 1;
      var s1 := s'.(flight := s.flight + cmds[..n]);
      ChannelSendAll(s, s1, cmds[..n]);
      assert s'.flight == s1.flight + [cmds[n]];
      ChannelSend(s1, s', cmds[n]);
    }
  }

  /** Children that are owned have not been told, and no `term` is under way to them. */
  lemma OwnedFacts(s: State, o: Id)
    requires Inv(s) && o in s.objs
    ensures forall c :: c in s.objs[o].owned ==>
              c in s.objs && s.objs[c].owner == Some(o) && c !in s.told && c !in s.acked
              && Term(c, o) !in s.flight
  {
    assert ObjectOk(s, o);
    forall c | c in s.objs[o].owned
      ensures c !in s.told && c !in s.acked && Term(c, o) !in s.flight
    {
      assert ChildInv(s, o, c);
      assert ObjectOk(s, c);
    }
  }

  lemma StartsTree(s: State, s': State, o: Id, f: seq<Cmd>, order: seq<Id>)
    requires Tree(s) && Starts(s, s', o, f, order)
    requires forall c :: c in s.objs[o].owned ==> c in s.objs && s.objs[c].owner == Some(o) && c !in s.told && c !in s.acked
    requires forall x :: x in s.objs ==> SeqCount(f, x) == SeqCount(s.flight, x)
    ensures Tree(s')
  {
    forall x | x in s'.objs ensures ObjectOk(s', x) { StartsObject(s, s', o, f, order, x); }
    forall c | c in s'.objs && s'.objs[c].owner.Some? ensures ChildInv(s', s'.objs[c].owner.value, c) {
      StartsChild(s, s', o, f, order, c);
    }
  }

  /** `s1` is `s` with channel `f`. */
  lemma StartsChannel(s: State, s1: State, s': State, o: Id, order: seq<Id>)
    requires Channel(s1) && s1.objs == s.objs && s1.told == s.told && s1.acked == s.acked
    requires Starts(s, s', o, s1.flight, order)
    requires forall c :: c in s.objs[o].owned ==> c in s.objs && s.objs[c].owner == Some(o) && Term(c, o) !in s.flight
    ensures Channel(s')
  {
    var cmds := AllTerms(order, o);
    forall i | 0 <= i < |cmds| ensures Addressed(s', cmds[i]) && cmds[i].Term? && cmds[i] !in s1.flight {
      assert order[i] in s.objs[o].owned;
    }
    ChannelSendAll(s1, s', cmds);
  }

  lemma RootTermInv(s: State, o: Id, order: seq<Id>)
    requires Inv(s) && Live(s, o) && !s.objs[o].terminating && s.objs[o].owner == None
    requires Lists(order, s.objs[o].owned)
    ensures Inv(TellAll(s, o, order))
  {
    var s' := TellAll(s, o, order);
    OwnedFacts(s, o);
    hide Tree, Channel, Lists, AllTerms;
    assert Starts(s, s', o, s.flight, order);
    StartsTree(s, s', o, s.flight, order);
    StartsChannel(s, s, s', o, order);
  }

  function AfterTerm(s: State, i: nat, order: seq<Id>): State
    requires i < |s.flight| && s.flight[i].Term? && s.flight[i].dst in s.objs
  {
    TellAll(s.(flight := Remove(s.flight, i)), s.flight[i].dst, order)
  }

  /** `term` finds its receiver alive and not terminating: double termination never happens. */
  lemma TermFacts(s: State, i: nat)
    requires Inv(s) && i < |s.flight| && s.flight[i].Term?
    ensures var o := s.flight[i].dst;
            && o in s.objs && s.objs[o].owner == Some(s.flight[i].src) && o in s.told
            && !s.objs[o].terminating && !s.objs[o].gone
  {
    assert Addressed(s, s.flight[i]);
    assert ChildInv(s, s.flight[i].src, s.flight[i].dst);
    assert s.flight[i] == Term(s.flight[i].dst, s.flight[i].src);
    assert ObjectOk(s, s.flight[i].dst);
  }

  lemma AfterTermStarts(s: State, i: nat, order: seq<Id>)
    requires i < |s.flight| && s.flight[i].Term? && Live(s, s.flight[i].dst)
    requires var o := s.flight[i].dst;
             && Lists(order, s.objs[o].owned) && s.objs[o].owner == Some(s.flight[i].src) && o in s.told
             && !s.objs[o].terminating
    requires s.flight[i] !in Remove(s.flight, i)
    requires forall c :: c != s.flight[i] ==> (c in Remove(s.flight, i) <==> c in s.flight)
    ensures Starts(s, AfterTerm(s, i, order), s.flight[i].dst, Remove(s.flight, i), order)
  {
    assert s.flight[i] == Term(s.flight[i].dst, s.flight[i].src);
  }

  lemma TermInv(s: State, i: nat, order: seq<Id>)
    requires Inv(s) && i < |s.flight| && s.flight[i].Term? && Live(s, s.flight[i].dst)
    requires Lists(order, s.objs[s.flight[i].dst].owned)
    ensures Inv(AfterTerm(s, i, order))
  {
    var s1 := s.(flight := Remove(s.flight, i));
    TermFacts(s, i);
    OwnedFacts(s, s.flight[i].dst);
    ChannelRemove(s, s1, i);
    forall x | x in s.objs ensures SeqCount(s1.flight, x) == SeqCount(s.flight, x) { CountRemove(s.flight, i, x); }
    AfterTermStarts(s, i, order);
    StartsTree(s, AfterTerm(s, i, order), s.flight[i].dst, s1.flight, order);
    StartsChannel(s, s1, AfterTerm(s, i, order), s.flight[i].dst, order);
  }

  // ----- every step

  /** A command in flight always has a live receiver. */
  lemma ReceiverIsLive(s: State, i: nat)
    requires Inv(s) && i < |s.flight|
    ensures Live(s, s.flight[i].dst)
  {
    var c := s.flight[i];
    assert Addressed(s, c);
    assert ObjectOk(s, c.dst);
    if Numbered(c) {
      CountPositive(s.flight, i, c.dst);
    } else if c.Term? {
      TermFacts(s, i);
    } else {
      var child := if c.TermReq? then c.obj else c.src;
      assert ChildInv(s, c.dst, child);
      assert c == if c.TermReq? then TermReq(c.dst, child) else TermAck(c.dst, child);
      OwnerIsLive(s, child);
    }
  }

  lemma RequestRemoved(s: State, i: nat)
    requires Inv(s) && i < |s.flight| && s.flight[i].TermReq?
    ensures Inv(s.(flight := Remove(s.flight, i)))
  {
    var s' := s.(flight := Remove(s.flight, i));
    ChannelRemove(s, s', i);
    forall x | x in s'.objs ensures ObjectOk(s', x) {
      assert ObjectOk(s, x);
      CountRemove(s.flight, i, x);
      assert Awaited(s', x) == Awaited(s, x);
    }
    forall c | c in s'.objs && s'.objs[c].owner.Some? ensures ChildInv(s', s'.objs[c].owner.value, c) {
      RequestRemovedChild(s, s', i, c);
    }
  }

  lemma RequestRemovedChild(s: State, s': State, i: nat, c: Id)
    requires i < |s.flight| && s.flight[i].TermReq? && s' == s.(flight := Remove(s.flight, i))
    requires c in s.objs && s.objs[c].owner.Some? && ChildInv(s, s.objs[c].owner.value, c)
    requires forall k :: k != s.flight[i] ==> (k in s'.flight <==> k in s.flight)
    ensures ChildInv(s', s.objs[c].owner.value, c)
  {
    var p := s.objs[c].owner.value;
    assert TermReq(p, c) in s'.flight ==> TermReq(p, c) in s.flight;
  }

  lemma DeliverInv(s: State, i: nat, order: seq<Id>)
    requires Inv(s) && Enabled(s, Deliver(i, order))
    ensures Inv(Step(s, Deliver(i, order)))
  {
    var c := s.flight[i];
    ReceiverIsLive(s, i);
    match c {
      case Plug(dst, _) => NumberedInv(s, i); SettleInv(CountOne(s.(flight := Remove(s.flight, i)), dst), dst);
      case Seq(dst, _) => NumberedInv(s, i); SettleInv(CountOne(s.(flight := Remove(s.flight, i)), dst), dst);
      case Own(dst, _) => OwnInv(s, i); SettleInv(AfterOwn(s, i), dst);
      case TermReq(dst, child) => RequestRemoved(s, i); TermReqInv(s.(flight := Remove(s.flight, i)), dst, child);
      case Term(dst, _) => TermFacts(s, i); TermInv(s, i, order); SettleInv(AfterTerm(s, i, order), dst);
      case TermAck(dst, _) => AckFacts(s, i); AckInv(s, i); SettleInv(AfterAck(s, i), dst);
    }
  }

  lemma TerminateInv(s: State, o: Id, order: seq<Id>)
    requires Inv(s) && Enabled(s, Terminate(o, order))
    ensures Inv(Step(s, Terminate(o, order)))
  {
    var obj := s.objs[o];
    if obj.terminating {
    } else if obj.owner == None {
      RootTermInv(s, o, order);
      SettleInv(TellAll(s, o, order), o);
    } else {
      RequestInv(s, o);
    }
  }

  lemma RequestInv(s: State, o: Id)
    requires Inv(s) && Live(s, o) && s.objs[o].owner.Some?
    ensures Inv(Post(s, TermReq(s.objs[o].owner.value, o)))
  {
    var p := s.objs[o].owner.value;
    var c := TermReq(p, o);
    var s' := Post(s, c);
    assert ChildInv(s, p, o);
    ChannelSend(s, s', c);
    forall x | x in s'.objs ensures ObjectOk(s', x) {
      assert ObjectOk(s, x);
      CountAppend(s.flight, c, x);
      assert Awaited(s', x) == Awaited(s, x);
    }
    forall x | x in s'.objs && s'.objs[x].owner.Some? ensures ChildInv(s', s'.objs[x].owner.value, x) {
      RequestChild(s, o, x);
    }
  }

  lemma RequestChild(s: State, o: Id, x: Id)
    requires Live(s, o) && s.objs[o].owner.Some? && ChildInv(s, s.objs[o].owner.value, o)
    requires x in s.objs && s.objs[x].owner.Some? && ChildInv(s, s.objs[x].owner.value, x)
    ensures ChildInv(Post(s, TermReq(s.objs[o].owner.value, o)), s.objs[x].owner.value, x)
  {
  }

  lemma OneEventLess(s: State, s': State, o: Id)
    requires Inv(s) && Live(s, o) && s.objs[o].events > 0
    requires s' == Put(s, o, s.objs[o].(events := s.objs[o].events - 1, termAcks := s.objs[o].termAcks - 1))
    ensures Inv(s')
  {
    forall x | x in s.objs ensures Counted(s', x) { assert ObjectOk(s, x); }
    ChannelSame(s, s');
    NumbersInv(s, s', o);
  }

  function AfterEvent(s: State, o: Id): State
    requires o in s.objs && s.objs[o].events > 0
  {
    Put(s, o, s.objs[o].(events := s.objs[o].events - 1, termAcks := s.objs[o].termAcks - 1))
  }

  lemma UnregisterIs(s: State, o: Id)
    requires Enabled(s, UnregisterEvent(o)) && s.objs[o].termAcks > 0
    ensures Step(s, UnregisterEvent(o)) == Settle(AfterEvent(s, o), o)
  {
    assert Put(Put(s, o, s.objs[o].(events := s.objs[o].events - 1)), o, AfterEvent(s, o).objs[o]) == AfterEvent(s, o);
  }

  lemma EventsAreCounted(s: State, o: Id)
    requires Inv(s) && o in s.objs
    ensures s.objs[o].termAcks >= s.objs[o].events && s.objs[o].procSeq <= s.objs[o].sentSeq
  {
    assert ObjectOk(s, o);
  }

  lemma UnregisterInv(s: State, o: Id)
    requires Inv(s) && Enabled(s, UnregisterEvent(o))
    ensures Inv(Step(s, UnregisterEvent(o)))
  {
    hide Tree, Channel;
    EventsAreCounted(s, o);
    UnregisterIs(s, o);
    OneEventLess(s, AfterEvent(s, o), o);
    SettleInv(AfterEvent(s, o), o);
  }

  function OneMore(s: State, p: Id, src: Id): State
    requires p in s.objs
  {
    Post(Put(s, p, s.objs[p].(sentSeq := s.objs[p].sentSeq + 1)), Seq(p, src))
  }

  lemma OneMoreInv(s: State, p: Id, src: Id)
    requires Inv(s) && Live(s, p)
    ensures Inv(OneMore(s, p, src))
  {
    hide Tree, Channel;
    PostSeqInv(s, OneMore(s, p, src), p, s.objs[p].(sentSeq := s.objs[p].sentSeq + 1), Seq(p, src));
  }

  lemma SendToOwnerIs(s: State, o: Id)
    requires Enabled(s, SendToOwner(o)) && s.objs[o].owner.value in s.objs
    ensures Step(s, SendToOwner(o)) == OneMore(s, s.objs[o].owner.value, o)
  {
  }

  lemma SendToOwnerInv(s: State, o: Id)
    requires Inv(s) && Enabled(s, SendToOwner(o))
    ensures Inv(Step(s, SendToOwner(o)))
  {
    OwnerIsLive(s, o);
    SendToOwnerIs(s, o);
    OneMoreInv(s, s.objs[o].owner.value, o);
  }

  lemma SendReservedInv(s: State, o: Id, src: Id)
    requires Inv(s) && Enabled(s, SendReserved(o, src))
    ensures Inv(Step(s, SendReserved(o, src)))
  {
    assert ObjectOk(s, o);
    CountedIsLive(s, o);
    var obj := s.objs[o].(reserved := s.objs[o].reserved - 1);
    PostSeqInv(s, Post(Put(s, o, obj), Seq(o, src)), o, obj, Seq(o, src));
  }

  lemma StepInv(s: State, a: Action)
    requires Inv(s) && Enabled(s, a)
    ensures Inv(Step(s, a))
  {
    match a {
      case NewRoot(o) => NewRootInv(s, o);
      case LaunchChild(o, child, r) => LaunchInv(s, o, child, r);
      case Reserve(o) => ReserveInv(s, o);
      case SendReserved(o, src) => SendReservedInv(s, o, src);
      case SendToOwner(o) => SendToOwnerInv(s, o);
      case Terminate(o, order) => TerminateInv(s, o, order);
      case TermChild(o, child) => TermReqInv(s, o, child);
      case RegisterEvents(o, n) => RegisterInv(s, o, n);
      case UnregisterEvent(o) => UnregisterInv(s, o);
      case Deliver(i, order) => DeliverInv(s, i, order);
    }
  }

  // ----- who is served

  /** `o` gives up `child`, tells it to terminate, and waits for it. */
  ghost predicate Told(s: State, s': State, o: Id, child: Id)
    requires o in s.objs
  {
    && s'.objs.Keys == s.objs.Keys && s'.objs[o].owned == s.objs[o].owned - {child}
    && Term(child, o) in s'.flight && child in s'.told && child in Awaited(s', o)
    && s'.objs[o].termAcks == s.objs[o].termAcks + 1
    && s'.objs[o].terminating == s.objs[o].terminating && s'.objs[o].gone == s.objs[o].gone
    && (forall x :: x in s.objs && x != o ==> s'.objs[x] == s.objs[x])
  }

  /** A request is served exactly when the child is owned and the owner goes on living; otherwise nothing changes. */
  lemma RequestServed(s: State, o: Id, child: Id)
    requires Inv(s) && o in s.objs
    ensures var s' := ProcessTermReq(s, o, child);
            if child in s.objs[o].owned && !s.objs[o].terminating then
              Told(s, s', o, child) && s'.flight == s.flight + [Term(child, o)]
            else s' == s
  {
    if child in s.objs[o].owned {
      assert ObjectOk(s, o);
      OwnedFacts(s, o);
    }
    hide Tree, Channel;
  }

  /** So it is when the request arrives, and when the owner itself asks. */
  lemma RequestDelivered(s: State, i: nat, order: seq<Id>)
    requires Inv(s) && Enabled(s, Deliver(i, order)) && s.flight[i].TermReq?
    ensures var s1, o, child := s.(flight := Remove(s.flight, i)), s.flight[i].dst, s.flight[i].obj;
            && o in s.objs
            && if child in s.objs[o].owned && !s.objs[o].terminating then
                 Told(s, Step(s, Deliver(i, order)), o, child)
               else Step(s, Deliver(i, order)) == s1
  {
    var s1, o, child := s.(flight := Remove(s.flight, i)), s.flight[i].dst, s.flight[i].obj;
    ReceiverIsLive(s, i);
    DeliverIs(s, i, order);
    RequestRemoved(s, i);
    RequestServed(s1, o, child);
    hide Inv, Remove, Step, Enabled, ProcessTermReq;
  }

  /** A new child is owned by an owner that goes on living, and told at once by one that terminates. */
  lemma OwnServed(s: State, i: nat)
    requires Inv(s) && i < |s.flight| && s.flight[i].Own? && s.flight[i].dst in s.objs
    ensures var o, child := s.flight[i].dst, s.flight[i].obj;
            var s' := ProcessOwn(s.(flight := Remove(s.flight, i)), o, child);
            && child !in s.told && child !in s.objs[o].owned
            && if s.objs[o].terminating then Told(s, s', o, child)
               else s'.objs[o] == s.objs[o].(owned := s.objs[o].owned + {child}) && s'.told == s.told
  {
    var o, child := s.flight[i].dst, s.flight[i].obj;
    OwnIsUntold(s, i);
    assert Addressed(s, s.flight[i]) && ChildInv(s, o, child) && ObjectOk(s, o);
    hide Tree, Channel, Remove;
  }

  /** The call `terminate`: the root begins to terminate and tells all that it owns, another object asks its owner, and
      an object that is terminating does nothing. */
  lemma TerminateServed(s: State, o: Id, order: seq<Id>)
    requires Inv(s) && Enabled(s, Terminate(o, order))
    ensures var obj, s' := s.objs[o], Step(s, Terminate(o, order));
            if obj.terminating then s' == s
            else if obj.owner.Some? then s' == s.(flight := s.flight + [TermReq(obj.owner.value, o)])
            else
              && o in s'.objs && s'.objs[o].terminating && s'.objs[o].owned == {} && s.told + obj.owned <= s'.told
              && forall c :: c in obj.owned ==> Term(c, o) in s'.flight && c in Awaited(s', o)
  {
    var obj := s.objs[o];
    if !obj.terminating && obj.owner.None? {
      OwnedFacts(s, o);
      hide Inv, Settle;
      RootServed(s, o, order);
      TerminateIs(s, o, order);
    } else {
      OwnerIsAsked(s, o, order);
    }
    hide Step, Enabled, Inv, Settle, Awaited;
  }

  lemma OwnerIsAsked(s: State, o: Id, order: seq<Id>)
    requires Enabled(s, Terminate(o, order)) && (s.objs[o].terminating || s.objs[o].owner.Some?)
    ensures Step(s, Terminate(o, order)) ==
            if s.objs[o].terminating then s
            else s.(flight := s.flight + [TermReq(s.objs[o].owner.value, o)])
  {
    hide Lists;
  }

  lemma TerminateIs(s: State, o: Id, order: seq<Id>)
    requires Enabled(s, Terminate(o, order)) && !s.objs[o].terminating && s.objs[o].owner.None?
    ensures Step(s, Terminate(o, order)) == Settle(TellAll(s, o, order), o)
  {
    hide Settle, TellAll;
  }

  lemma RootServed(s: State, o: Id, order: seq<Id>)
    requires o in s.objs && !s.objs[o].terminating && s.objs[o].owner.None? && Lists(order, s.objs[o].owned)
    requires forall c :: c in s.objs[o].owned ==> c in s.objs && s.objs[c].owner == Some(o) && c !in s.acked && c != o
    ensures var s' := Settle(TellAll(s, o, order), o);
            && o in s'.objs && s'.objs[o].terminating && s'.objs[o].owned == {} && s.told + s.objs[o].owned <= s'.told
            && forall c :: c in s.objs[o].owned ==> Term(c, o) in s'.flight && c in Awaited(s', o)
  {
    var s1 := TellAll(s, o, order);
    forall c | c in s.objs[o].owned ensures Term(c, o) in s1.flight {
      TermsListed(order, s.objs[o].owned, o, Term(c, o));
    }
  }

  // ----- nobody is told twice

  /** No `term` is added for an object that has been told. */
  ghost predicate Untold(s: State, s': State) {
    && s.told <= s'.told
    && forall c, p :: c in s.told ==> multiset(s'.flight)[Term(c, p)] <= multiset(s.flight)[Term(c, p)]
  }

  lemma PostUntold(s: State, c: Cmd)
    requires c.Term? ==> c.dst !in s.told
    ensures Untold(s, Post(s, c))
  {
    assert multiset(s.flight + [c]) == multiset(s.flight) + multiset{c};
  }

  lemma RemoveUntold(s: State, i: nat)
    requires i < |s.flight|
    ensures Untold(s, s.(flight := Remove(s.flight, i)))
  {
    assert s.flight == s.flight[..i] + [s.flight[i]] + s.flight[i + 1..];
  }

  lemma SettleUntold(s: State, o: Id)
    requires o in s.objs
    ensures Untold(s, Settle(s, o))
  {
    var obj := s.objs[o];
    if obj.owner.Some? { PostUntold(Put(s, o, obj.(gone := true)), TermAck(obj.owner.value, o)); }
  }

  lemma TermReqUntold(s: State, o: Id, child: Id)
    requires o in s.objs && forall c :: c in s.objs[o].owned ==> c !in s.told
    ensures Untold(s, ProcessTermReq(s, o, child))
  {
    var obj := s.objs[o];
    if !obj.terminating && child in obj.owned {
      PostUntold(Put(s, o, obj.(owned := obj.owned - {child}, termAcks := obj.termAcks + 1)), Term(child, o));
    }
  }

  lemma TermUntold(s: State, o: Id, order: seq<Id>)
    requires o in s.objs && Lists(order, s.objs[o].owned) && forall c :: c in s.objs[o].owned ==> c !in s.told
    ensures Untold(s, ProcessTerm(s, o, order))
  {
    var s1 := TellAll(s, o, order);
    assert multiset(s1.flight) == multiset(s.flight) + multiset(AllTerms(order, o));
    forall c, p | c in s.told ensures Term(c, p) !in AllTerms(order, o) {}
    assert Untold(s, s1);
    SettleUntold(s1, o);
  }

  lemma OwnUntold(s: State, o: Id, child: Id)
    requires o in s.objs && child !in s.told
    ensures Untold(s, ProcessSeqnum(ProcessOwn(s, o, child), o))
  {
    var obj := s.objs[o];
    if obj.terminating { PostUntold(Put(s, o, obj.(termAcks := obj.termAcks + 1)), Term(child, o)); }
    var s1 := ProcessOwn(s, o, child);
    assert Untold(s, s1);
    hide ProcessOwn, Settle;
    SettleUntold(CountOne(s1, o), o);
  }

  lemma OwnedAreUntold(s: State, o: Id)
    requires Inv(s) && o in s.objs
    ensures forall c :: c in s.objs[o].owned ==> c !in s.told
  {
    forall c | c in s.objs[o].owned ensures c !in s.told {
      assert ObjectOk(s, o) && ChildInv(s, o, c);
    }
  }

  lemma ProcessUntold(s: State, c: Cmd, order: seq<Id>)
    requires c.dst in s.objs && (c.Term? ==> Lists(order, s.objs[c.dst].owned)) && (c.Own? ==> c.obj !in s.told)
    requires forall x :: x in s.objs[c.dst].owned ==> x !in s.told
    ensures Untold(s, Process(s, c, order))
  {
    hide Settle, ProcessOwn, ProcessTerm, ProcessTermReq, Untold, Lists;
    match c
    case Plug(dst, _) => CountUntold(s, dst);
    case Seq(dst, _) => CountUntold(s, dst);
    case Own(dst, child) => OwnUntold(s, dst, child);
    case TermReq(dst, child) => TermReqUntold(s, dst, child);
    case Term(dst, _) => TermUntold(s, dst, order);
    case TermAck(dst, child) => AckUntold(s, dst, child);
  }

  lemma CountUntold(s: State, o: Id)
    requires o in s.objs
    ensures Untold(s, ProcessSeqnum(s, o))
  {
    SettleUntold(CountOne(s, o), o);
    hide Settle;
  }

  lemma AckUntold(s: State, o: Id, child: Id)
    requires o in s.objs
    ensures Untold(s, UnregisterTermAck(s.(acked := s.acked + {child}), o))
  {
    UnregisterUntold(s.(acked := s.acked + {child}), o);
    hide UnregisterTermAck;
  }

  lemma DeliverIs(s: State, i: nat, order: seq<Id>)
    requires Enabled(s, Deliver(i, order)) && Live(s, s.flight[i].dst)
    ensures Step(s, Deliver(i, order)) == Process(s.(flight := Remove(s.flight, i)), s.flight[i], order)
  {
    hide Process, Remove, Lists;
  }

  lemma UntoldTwice(s: State, s1: State, s2: State)
    requires Untold(s, s1) && Untold(s1, s2)
    ensures Untold(s, s2)
  {
  }

  lemma OwnIsUntold(s: State, i: nat)
    requires Inv(s) && i < |s.flight| && s.flight[i].Own?
    ensures s.flight[i].obj !in s.told
  {
    var c := s.flight[i];
    assert Addressed(s, c) && ChildInv(s, c.dst, c.obj);
  }

  lemma DeliverUntold(s: State, i: nat, order: seq<Id>)
    requires Inv(s) && i < |s.flight| && s.flight[i].dst in s.objs && Lists(order, s.objs[s.flight[i].dst].owned)
    ensures Untold(s, Process(s.(flight := Remove(s.flight, i)), s.flight[i], order))
  {
    hide Inv, Process, Remove, Untold, Lists;
    var c, s1 := s.flight[i], s.(flight := Remove(s.flight, i));
    RemoveUntold(s, i);
    OwnedAreUntold(s, c.dst);
    if c.Own? { OwnIsUntold(s, i); }
    ProcessUntold(s1, c, order);
    UntoldTwice(s, s1, Process(s1, c, order));
  }

  lemma UnregisterUntold(s: State, o: Id)
    requires o in s.objs
    ensures Untold(s, UnregisterTermAck(s, o))
  {
    SettleUntold(Put(s, o, s.objs[o].(termAcks := s.objs[o].termAcks - 1)), o);
  }

  /** No step tells an object again that has been told. */
  lemma ToldOnce(s: State, a: Action)
    requires Inv(s) && Enabled(s, a)
    ensures forall c, p :: c in s.told ==>
              multiset(Step(s, a).flight)[Term(c, p)] <= multiset(s.flight)[Term(c, p)]
  {
    match a {
      case LaunchChild(o, child, reserve) =>
        var s1 := Put(Put(s, child, Fresh(Some(o), 1 + reserve, reserve, s.objs[o].depth + 1)), o,
                      s.objs[o].(sentSeq := s.objs[o].sentSeq + 1));
        PostUntold(s1, Plug(child, o));
        PostUntold(Post(s1, Plug(child, o)), Own(o, child));
      case SendReserved(o, src) =>
        PostUntold(Put(s, o, s.objs[o].(reserved := s.objs[o].reserved - 1)), Seq(o, src));
      case SendToOwner(o) =>
        OwnerIsLive(s, o);
        var p := s.objs[o].owner.value;
        PostUntold(Put(s, p, s.objs[p].(sentSeq := s.objs[p].sentSeq + 1)), Seq(p, o));
      case Terminate(o, order) =>
        OwnedAreUntold(s, o);
        if s.objs[o].owner.Some? { PostUntold(s, TermReq(s.objs[o].owner.value, o)); }
        else { TermUntold(s, o, order); }
      case TermChild(o, child) => OwnedAreUntold(s, o); TermReqUntold(s, o, child);
      case UnregisterEvent(o) =>
        UnregisterUntold(Put(s, o, s.objs[o].(events := s.objs[o].events - 1)), o);
      case Deliver(i, order) => ReceiverIsLive(s, i); DeliverIs(s, i, order); DeliverUntold(s, i, order);
      case _ =>
    }
  }

  // ----- whole runs

  function Init(): State {
    State(map[], [], {}, {}, false)
  }

  ghost predicate Run(acts: seq<Action>, ss: seq<State>) {
    && |ss| == |acts| + 1
    && ss[0] == Init()
    && forall i :: 0 <= i < |acts| ==> Enabled(ss[i], acts[i]) && ss[i + 1] == Step(ss[i], acts[i])
  }

  lemma {:induction false} RunInv(acts: seq<Action>, ss: seq<State>, n: nat)
    requires Run(acts, ss) && n <= |acts|
    ensures Inv(ss[n])
  {
    if n > 0 {
      hide Enabled, Step, Inv;
      RunInv(acts, ss, n - 1);
      assert ss[n] == Step(ss[n - 1], acts[n - 1]);
      StepInv(ss[n - 1], acts[n - 1]);
    }
  }

  /** In every interleaving: no assertion fails (no double termination, no acknowledgement that was not
      awaited, no object destroyed while it owns another), `termAcks` counts the children told and
      not yet heard of plus the registered events, sequence numbers sent minus processed count the
      commands outstanding or announced, no command is in flight to a destroyed object, and an
      object is destroyed only after all its children. */
  lemma ShutdownIsSafe(acts: seq<Action>, ss: seq<State>)
    requires Run(acts, ss)
    ensures var s := ss[|acts|];
            && !s.failed
            && (forall o :: o in s.objs ==>
                  && s.objs[o].termAcks == |Awaited(s, o)| + s.objs[o].events
                  && s.objs[o].sentSeq - s.objs[o].procSeq == SeqCount(s.flight, o) + s.objs[o].reserved)
            && (forall i :: 0 <= i < |s.flight| ==> Live(s, s.flight[i].dst))
            && (forall o, c :: o in s.objs && c in s.objs && s.objs[c].owner == Some(o) && s.objs[o].gone ==>
                  s.objs[c].gone && c in s.acked)
  {
    var s := ss[|acts|];
    RunInv(acts, ss, |acts|);
    forall o | o in s.objs
      ensures s.objs[o].termAcks == |Awaited(s, o)| + s.objs[o].events
              && s.objs[o].sentSeq - s.objs[o].procSeq == SeqCount(s.flight, o) + s.objs[o].reserved
    {
      assert ObjectOk(s, o);
    }
    forall i | 0 <= i < |s.flight| ensures Live(s, s.flight[i].dst) { ReceiverIsLive(s, i); }
    forall o, c | o in s.objs && c in s.objs && s.objs[c].owner == Some(o) && s.objs[o].gone
      ensures s.objs[c].gone && c in s.acked
    {
      if !s.objs[c].gone || c !in s.acked { OwnerIsLive(s, c); }
    }
  }
}
