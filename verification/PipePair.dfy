/** The two ends of a pipe created by `pipepair`, as one machine. The steps of the two threads
    interleave at will; the commands of one end reach the other in the order they were sent. */
module PipePair {
  import Fifo
  import opened PipeEnd

  /** One end with the queue it writes. `sent`: all commands it ever sent; `taken`: how many of the
      peer's commands it has processed. */
  datatype Side<T> = Side(me: End, out: Fifo.Queue<Item<T>>, sent: seq<Command>, taken: nat,
                          got: seq<Item<T>>, put: seq<Item<T>>)

  /** `failed`: a command arrived in a state that its handler asserts against. */
  datatype Pair<T> = Pair(a: Side<T>, b: Side<T>, failed: bool)

  /** What a user thread may do with its end, and the processing of the next command. */
  datatype Action<T> =
    | DoCheckRead
    | DoRead
    | DoCheckWrite
    | DoWrite(body: T, more: bool)
    | DoRollback
    | DoFlush
    | DoTerminate(delay: bool)
    | Deliver

  function NewSide<T>(e: End): Side<T> {
    Side(e, Fifo.Empty(), [], 0, [], [])
  }

  function Create<T>(hwmA: int, hwmB: int, delayA: bool, delayB: bool): Pair<T> {
    Pair(NewSide(Created(hwmB, hwmA, delayA)), NewSide(Created(hwmA, hwmB, delayB)), false)
  }

  function Swap<T>(p: Pair<T>): Pair<T> {
    Pair(p.b, p.a, p.failed)
  }

  /** What end `a` can see and touch. */
  function Here<T>(p: Pair<T>): Local<T> {
    Local(p.a.me, p.b.out, p.a.out, p.a.sent, p.a.got, p.a.put)
  }

  function Merge<T>(p: Pair<T>, l: Local<T>): Pair<T> {
    p.(a := Side(l.me, l.outq, l.sent, p.a.taken, l.got, l.put), b := p.b.(out := l.inq))
  }

  function UserOp<T>(l: Local<T>, act: Action<T>): Local<T>
    requires !act.Deliver?
  {
    match act
    case DoCheckRead => CheckRead(l).0
    case DoRead => Read(l).0
    case DoCheckWrite => CheckWrite(l).0
    case DoWrite(body, more) => Write(l, body, more).0
    case DoRollback => Rollback(l)
    case DoFlush => Flush(l)
    case DoTerminate(delay) => Terminate(l, delay)
  }

  predicate Expected(e: End, c: Command) {
    (c.PipeTerm? ==> TermExpected(e)) && (c.PipeTermAck? ==> AckExpected(e))
  }

  function Process<T>(l: Local<T>, c: Command): Local<T>
    requires Expected(l.me, c)
  {
    match c
    case ActivateRead => ProcessActivateRead(l)
    case ActivateWrite(n) => ProcessActivateWrite(l, n)
    case PipeTerm => ProcessPipeTerm(l)
    case PipeTermAck => ProcessPipeTermAck(l)
  }

  predicate EnabledA<T>(p: Pair<T>, act: Action<T>) {
    !p.failed && !p.a.me.gone && (act.Deliver? ==> p.a.taken < |p.b.sent|)
  }

  function StepA<T>(p: Pair<T>, act: Action<T>): Pair<T>
    requires EnabledA(p, act)
  {
    if !act.Deliver? then Merge(p, UserOp(Here(p), act))
    else
      var c := p.b.sent[p.a.taken];
      if !Expected(p.a.me, c) then p.(failed := true)
      else
        var p' := Merge(p, Process(Here(p), c));
        p'.(a := p'.a.(taken := p.a.taken + 1))
  }

  datatype Who = A | B

  predicate Enabled<T>(p: Pair<T>, who: Who, act: Action<T>) {
    if who == A then EnabledA(p, act) else EnabledA(Swap(p), act)
  }

  function Step<T>(p: Pair<T>, who: Who, act: Action<T>): Pair<T>
    requires Enabled(p, who, act)
  {
    if who == A then StepA(p, act) else Swap(StepA(Swap(p), act))
  }

  // ----- reading the histories

  /** How many `pipe_term` and `pipe_term_ack` commands a history holds. */
  function Terms(s: seq<Command>): nat {
    if s == [] then 0
    else Terms(s[..|s| - 1]) + (if s[|s| - 1].PipeTerm? then 1 else 0)
  }

  function Acks(s: seq<Command>): nat {
    if s == [] then 0
    else Acks(s[..|s| - 1]) + (if s[|s| - 1].PipeTermAck? then 1 else 0)
  }

  /** The count in the last `ActivateWrite` of a history, 0 if there is none. */
  function LastCount(s: seq<Command>): nat {
    if s == [] then 0
    else
      var c := s[|s| - 1];
      if c.ActivateWrite? then c.msgsRead else LastCount(s[..|s| - 1])
  }

  /** The number of whole messages that end in a run of items. */
  function Ends<T>(s: seq<Item<T>>): nat {
    if s == [] then 0
    else
      var i := s[|s| - 1];
      Ends(s[..|s| - 1]) + (if i.Part? && !i.more then 1 else 0)
  }

  predicate IsMore<T>(i: Item<T>) {
    i.Part? && i.more
  }

  /** A run of whole messages, each part flagged `more` being followed by another part, with
      delimiters only between messages. */
  ghost predicate Framed<T>(s: seq<Item<T>>) {
    && (forall i :: 0 <= i < |s| - 1 && IsMore(s[i]) ==> s[i + 1].Part?)
    && (s != [] ==> !IsMore(s[|s| - 1]))
  }

  /** The commands `x` has processed, out of those `y` sent. */
  function Heard<T>(x: Side<T>, y: Side<T>): seq<Command> {
    if x.taken <= |y.sent| then y.sent[..x.taken] else y.sent
  }

  // ----- the invariant, one direction at a time

  /** Which shutdown commands an end in each state has sent, and which it has processed. */
  ghost predicate Table(e: End, saidTerms: nat, saidAcks: nat, heardTerms: nat, heardAcks: nat) {
    match e.state
    case Active => !e.gone && saidTerms == saidAcks == heardTerms == heardAcks == 0
    case Delimited => !e.gone && saidTerms == saidAcks == heardTerms == heardAcks == 0
    case Pending => !e.gone && saidTerms == saidAcks == heardAcks == 0 && heardTerms == 1
    case Terminating =>
      saidTerms == 0 && saidAcks == 1 && heardTerms == 1 && heardAcks == if e.gone then 1 else 0
    case Terminated =>
      if e.gone then saidTerms == 1 && saidAcks == 1 && heardTerms == 0 && heardAcks == 1
      else saidTerms == 1 && saidAcks == heardTerms == heardAcks == 0
    case DoubleTerminated =>
      saidTerms == 1 && saidAcks == 1 && heardTerms == 1 && heardAcks == if e.gone then 1 else 0
  }

  /** Nothing follows an acknowledgement. */
  ghost predicate AckIsLast(s: seq<Command>) {
    s != [] ==> Acks(s[..|s| - 1]) == 0
  }

  ghost predicate Handshake<T>(x: Side<T>, y: Side<T>) {
    && x.taken <= |y.sent|
    && AckIsLast(x.sent)
    && (x.me.linked <==> Acks(x.sent) == 0)
    && Table(x.me, Terms(x.sent), Acks(x.sent), Terms(Heard(x, y)), Acks(Heard(x, y)))
  }

  /** The queue `x` writes and `y` reads loses nothing, and carries whole messages. */
  ghost predicate Stream<T>(x: Side<T>, y: Side<T>) {
    && Fifo.Wf(x.out)
    && (forall i :: 0 <= i < |x.out.partial| ==> IsMore(x.out.partial[i]))
    && y.got <= x.put
    && (!y.me.gone ==> x.put == y.got + x.out.unread + x.out.staged)
    && (!y.me.gone ==> Framed(y.got + x.out.unread))
    && Framed(x.put)
  }

  /** A reader in the middle of a message has not been put to sleep. */
  ghost predicate Awake<T>(x: Side<T>, y: Side<T>) {
    !y.me.gone && y.got != [] && IsMore(y.got[|y.got| - 1]) ==> y.me.inActive
  }

  /** The delimiter is in the stream exactly because the writer is closing. */
  ghost predicate Closing<T>(x: Side<T>, y: Side<T>) {
    && (Terms(x.sent) > 0 ==> Delimiter in x.put && x.out.staged == [])
    && (Delimiter in x.put ==> Terms(x.sent) > 0 || Terms(Heard(x, y)) > 0)
    && (y.me.state == Active || y.me.state == Pending ==> Delimiter !in y.got)
    && (y.me.state == Delimited ==> Delimiter in y.got)
    && (forall i :: 0 <= i < |y.got| - 1 ==> y.got[i].Part?)
  }

  /** A reader that gave up is asleep, or about to be woken. */
  ghost predicate Wakes<T>(x: Side<T>, y: Side<T>) {
    (y.me.state == Active || y.me.state == Pending) && !y.me.inActive ==>
      x.out.asleep || (y.taken <= |x.sent| && ActivateRead in x.sent[y.taken..])
  }

  /** The counters count the whole messages written and read. */
  ghost predicate Tallied<T>(x: Side<T>) {
    x.me.msgsWritten == Ends(x.put) && x.me.msgsRead == Ends(x.got)
  }

  ghost predicate Monotone(s: seq<Command>) {
    forall m, n :: 0 <= m <= n <= |s| ==> LastCount(s[..m]) <= LastCount(s[..n])
  }

  /** The reader reports a growing count, the last one at the last multiple of its low watermark. */
  ghost predicate Reports<T>(y: Side<T>) {
    && Monotone(y.sent)
    && LastCount(y.sent) == LastMultiple(y.me.msgsRead, y.me.lwm)
  }

  /** Credit-based flow control from writer `x` to reader `y`. */
  ghost predicate Credit<T>(x: Side<T>, y: Side<T>) {
    && y.me.lwm == ComputeLwm(x.me.hwm)
    && x.me.peersMsgsRead == LastCount(Heard(x, y))
    && (x.me.hwm > 0 ==> x.me.msgsWritten - x.me.peersMsgsRead <= x.me.hwm)
    && (x.me.state == Active && !x.me.outActive ==> Full(x.me))
    && (x.me.state == Active && x.out.partial != [] ==> x.me.outActive && !Full(x.me))
  }

  ghost predicate OneWay<T>(x: Side<T>, y: Side<T>) {
    && Handshake(x, y) && Stream(x, y) && Closing(x, y) && Wakes(x, y) && Awake(x, y)
    && Tallied(x) && Reports(x) && Credit(x, y)
  }

  ghost predicate Inv<T>(p: Pair<T>) {
    !p.failed && OneWay(p.a, p.b) && OneWay(p.b, p.a)
  }

  // ----- the histories under appending

  lemma Appended(s: seq<Command>, c: Command)
    ensures Terms(s + [c]) == Terms(s) + (if c.PipeTerm? then 1 else 0)
    ensures Acks(s + [c]) == Acks(s) + (if c.PipeTermAck? then 1 else 0)
    ensures LastCount(s + [c]) == if c.ActivateWrite? then c.msgsRead else LastCount(s)
    ensures AckIsLast(s + [c]) <==> Acks(s) == 0
  {
    assert (s + [c])[..|s|] == s;
  }

  lemma {:induction false} PrefixCounts(s: seq<Command>, n: nat)
    requires n <= |s|
    ensures Terms(s[..n]) <= Terms(s)
    ensures Acks(s[..n]) <= Acks(s)
    ensures AckIsLast(s) && Acks(s[..n]) > 0 ==> n == |s|
    decreases |s|
  {
    if n < |s| {
      PrefixCounts(s[..|s| - 1], n);
      assert s[..|s| - 1][..n] == s[..n];
    } else {
      assert s[..n] == s;
    }
  }

  lemma {:induction false} EndsConcat<T>(s: seq<Item<T>>, t: seq<Item<T>>)
    ensures Ends(s + t) == Ends(s) + Ends(t)
    decreases |t|
  {
    if t == [] {
      assert s + t == s;
    } else {
      var n := |t| - 1;
      EndsConcat(s, t[..n]);
      assert (s + t)[..|s| + n] == s + t[..n];
    }
  }

  lemma {:induction false} EndsOfParts<T>(s: seq<Item<T>>)
    requires forall i :: 0 <= i < |s| ==> IsMore(s[i])
    ensures Ends(s) == 0
  {
    if s != [] {
      EndsOfParts(s[..|s| - 1]);
    }
  }

  lemma TerminateShape<T>(l: Local<T>, delay: bool)
    ensures var l' := Terminate(l, delay);
            && l.sent <= l'.sent && |l'.sent| <= |l.sent| + 2
            && l'.me.lwm == l.me.lwm && l'.inq.partial == l.inq.partial
  {
    hide Fifo.Flush, Fifo.Write, Fifo.FlushOk;
  }

  lemma UserShape<T>(l: Local<T>, act: Action<T>)
    requires !act.Deliver?
    ensures var l' := UserOp(l, act);
            && l.sent <= l'.sent && |l'.sent| <= |l.sent| + 2
            && l'.me.lwm == l.me.lwm && l'.inq.partial == l.inq.partial
  {
    if act.DoTerminate? { TerminateShape(l, act.delay); }
    hide Fifo.Flush, Fifo.Write, Fifo.FlushOk, Terminate;
  }

  lemma CallIs<T>(p: Pair<T>, act: Action<T>)
    requires EnabledA(p, act) && !act.Deliver?
    ensures StepA(p, act) == Merge(p, UserOp(Here(p), act))
  {
    hide UserOp;
  }

  lemma DeliveryIs<T>(p: Pair<T>)
    requires EnabledA(p, Deliver) && Expected(p.a.me, p.b.sent[p.a.taken])
    ensures var q := Merge(p, Process(Here(p), p.b.sent[p.a.taken]));
            StepA(p, Deliver) == q.(a := q.a.(taken := p.a.taken + 1))
  {
    hide Process;
  }

  /** The commands an end sends in one step, and what its own queue, records and peer keep. */
  lemma StepShape<T>(p: Pair<T>, act: Action<T>)
    requires EnabledA(p, act)
    ensures var p' := StepA(p, act);
            && p.a.sent <= p'.a.sent
            && |p'.a.sent| <= |p.a.sent| + 2
            && p'.b == p.b.(out := p'.b.out)
            && p'.a.taken == p.a.taken + (if act.Deliver? && !p'.failed then 1 else 0)
            && p'.a.me.lwm == p.a.me.lwm && p'.b.out.partial == p.b.out.partial
  {
    if !act.Deliver? {
      UserShape(Here(p), act);
      hide UserOp;
    }
  }

  // ----- the handshake

  /** Processing one more command extends the processed prefix by it. */
  lemma HeardNext<T>(p: Pair<T>)
    requires p.a.taken < |p.b.sent|
    ensures var n, c := p.a.taken, p.b.sent[p.a.taken];
            && Terms(p.b.sent[..n + 1]) == Terms(p.b.sent[..n]) + (if c.PipeTerm? then 1 else 0)
            && Acks(p.b.sent[..n + 1]) == Acks(p.b.sent[..n]) + (if c.PipeTermAck? then 1 else 0)
            && LastCount(p.b.sent[..n + 1]) == if c.ActivateWrite? then c.msgsRead else LastCount(p.b.sent[..n])
  {
    var n := p.a.taken;
    assert p.b.sent[..n + 1] == p.b.sent[..n] + [p.b.sent[n]];
    Appended(p.b.sent[..n], p.b.sent[n]);
  }

  /** The next command always finds the end in a state that its handler accepts. */
  lemma NothingUnexpected<T>(p: Pair<T>)
    requires Handshake(p.a, p.b) && Handshake(p.b, p.a) && !p.a.me.gone && p.a.taken < |p.b.sent|
    ensures Expected(p.a.me, p.b.sent[p.a.taken])
  {
    HeardNext(p);
    PrefixCounts(p.b.sent, p.a.taken);
    PrefixCounts(p.b.sent, p.a.taken + 1);
    PrefixCounts(p.a.sent, p.b.taken);
  }

  /** The ways one end can move through the handshake by itself. */
  ghost predicate Moves<T>(l: Local<T>, l': Local<T>) {
    && l'.me.gone == l.me.gone
    && l.sent <= l'.sent
    && AckIsLast(l'.sent)
    && Terms(l'.sent) == Terms(l.sent) + (if l.me.state != Terminated && l'.me.state == Terminated then 1 else 0)
    && Acks(l'.sent) == Acks(l.sent) + (if l.me.state != Terminating && l'.me.state == Terminating then 1 else 0)
    && (l'.me.linked <==> Acks(l'.sent) == 0)
    && (l'.me.state == l.me.state
        || (l.me.state == Active && l'.me.state == Delimited)
        || (l.me.state == Pending && l'.me.state == Terminating)
        || ((l.me.state == Active || l.me.state == Delimited) && l'.me.state == Terminated))
  }

  ghost predicate MayMove<T>(l: Local<T>) {
    && (l.me.linked <==> Acks(l.sent) == 0)
    && (l.me.state == Active || l.me.state == Pending || l.me.state == Delimited ==> l.me.linked)
    && AckIsLast(l.sent)
  }

  lemma DelimitMoves<T>(l: Local<T>)
    requires MayMove(l) && (l.me.state == Active || l.me.state == Pending)
    ensures Moves(l, Delimit(l))
  {
    Appended(l.sent, PipeTermAck);
  }

  lemma AccountMoves<T>(l: Local<T>, more: bool)
    requires MayMove(l) && l.me.linked
    ensures Moves(l, Account(l, more))
  {
    Appended(l.sent, ActivateWrite(if more then l.me.msgsRead else l.me.msgsRead + 1));
  }

  lemma ReadMoves<T>(l: Local<T>)
    requires MayMove(l)
    ensures Moves(l, Read(l).0) && Moves(l, CheckRead(l).0)
  {
    if MayRead(l.me) && l.inq.unread != [] {
      DelimitMoves(Take(l));
      AccountMoves(Take(l), IsMore(l.inq.unread[0]));
    }
  }

  lemma WriteMoves<T>(l: Local<T>, body: T, more: bool)
    requires MayMove(l)
    ensures Moves(l, Write(l, body, more).0)
  {
    hide Terms, Acks, AckIsLast;
  }

  lemma SendMoves<T>(l: Local<T>)
    requires MayMove(l)
    ensures Moves(l, CheckWrite(l).0) && Moves(l, Rollback(l)) && Moves(l, Flush(l))
  {
    FlushSends(l);
    Appended(l.sent, ActivateRead);
    hide Terms, Acks, AckIsLast, Flush;
  }

  lemma FlushSends<T>(l: Local<T>)
    ensures Flush(l).me == l.me && (Flush(l).sent == l.sent || (l.me.linked && Flush(l).sent == l.sent + [ActivateRead]))
  {
    hide Fifo.Flush, Fifo.FlushOk;
  }

  lemma AskMoves<T>(l: Local<T>)
    requires MayMove(l) && (l.me.state == Active || l.me.state == Delimited)
    ensures Moves(l, l.(me := l.me.(state := Terminated), sent := l.sent + [PipeTerm]))
  {
    Appended(l.sent, PipeTerm);
    hide Terms, Acks, AckIsLast;
  }

  lemma AckMoves<T>(l: Local<T>)
    requires MayMove(l) && l.me.state == Pending
    ensures Moves(l, l.(me := l.me.(state := Terminating, linked := false), sent := l.sent + [PipeTermAck]))
  {
    Appended(l.sent, PipeTermAck);
    hide Terms, Acks, AckIsLast;
  }

  lemma StayMoves<T>(l: Local<T>)
    requires MayMove(l)
    ensures Moves(l, l)
  {
    hide Terms, Acks, AckIsLast;
  }

  lemma TerminateStateMoves<T>(l: Local<T>)
    requires MayMove(l)
    ensures Moves(l, TerminateState(l))
  {
    hide Moves, MayMove;
    match l.me.state
    case Active => AskMoves(l);
    case Delimited => AskMoves(l);
    case Pending => AckMoves(l); StayMoves(l);
    case _ => StayMoves(l);
  }

  lemma CloseMoves<T>(l: Local<T>)
    requires MayMove(l)
    ensures Moves(l, Close(l)) && Close(l).me == l.me
  {
    Appended(l.sent, ActivateRead);
    hide Terms, Acks, AckIsLast;
  }

  /** Moving and then only sending is moving. */
  lemma MovesThenSends<T>(l: Local<T>, l1: Local<T>, l2: Local<T>)
    requires Moves(l, l1) && Moves(l1.(me := l1.me.(outActive := false)), l2)
    requires l2.me == l1.me.(outActive := false)
    ensures Moves(l, l2)
  {
    hide Terms, Acks, AckIsLast;
  }

  lemma TerminateMoves<T>(l: Local<T>, delay: bool)
    requires MayMove(l)
    ensures Moves(l, Terminate(l, delay))
  {
    hide Terms, Acks, AckIsLast;
    var l0 := l.(me := l.me.(delay := delay));
    TerminateStateMoves(l0);
    var l1 := TerminateState(l0);
    var l2 := l1.(me := l1.me.(outActive := false));
    assert MayMove(l2);
    CloseMoves(l2);
    hide TerminateState, Close;
    MovesThenSends(l0, l1, Close(l2));
  }

  lemma UserMoves<T>(l: Local<T>, act: Action<T>)
    requires !act.Deliver? && MayMove(l)
    ensures Moves(l, UserOp(l, act))
  {
    hide Moves, MayMove, CheckRead, Read, CheckWrite, Write, Rollback, Flush, Terminate;
    match act {
      case DoCheckRead => ReadMoves(l);
      case DoRead => ReadMoves(l);
      case DoWrite(body, more) => WriteMoves(l, body, more);
      case DoTerminate(delay) => TerminateMoves(l, delay);
      case _ => SendMoves(l);
    }
  }

  lemma HandshakeUser<T>(p: Pair<T>, act: Action<T>)
    requires EnabledA(p, act) && !act.Deliver?
    requires Handshake(p.a, p.b) && Handshake(p.b, p.a)
    ensures var p' := StepA(p, act); Handshake(p'.a, p'.b) && Handshake(p'.b, p'.a)
  {
    var l := Here(p);
    UserMoves(l, act);
    assert UserOp(l, act).sent[..p.b.taken] == p.a.sent[..p.b.taken];
  }

  /** What processing command `c` does to the handshake of one end. */
  lemma ProcessMoves<T>(l: Local<T>, c: Command, heardTerms: nat, heardAcks: nat)
    requires Expected(l.me, c) && !l.me.gone && AckIsLast(l.sent) && (l.me.linked <==> Acks(l.sent) == 0)
    requires Table(l.me, Terms(l.sent), Acks(l.sent), heardTerms, heardAcks)
    ensures var l' := Process(l, c);
            && l.sent <= l'.sent
            && AckIsLast(l'.sent) && (l'.me.linked <==> Acks(l'.sent) == 0)
            && Table(l'.me, Terms(l'.sent), Acks(l'.sent),
                     heardTerms + (if c.PipeTerm? then 1 else 0), heardAcks + (if c.PipeTermAck? then 1 else 0))
  {
    Appended(l.sent, PipeTermAck);
    hide Terms, Acks, AckIsLast;
  }

  lemma HandshakeDeliver<T>(p: Pair<T>)
    requires EnabledA(p, Deliver)
    requires Handshake(p.a, p.b) && Handshake(p.b, p.a)
    ensures var p' := StepA(p, Deliver); !p'.failed && Handshake(p'.a, p'.b) && Handshake(p'.b, p'.a)
  {
    NothingUnexpected(p);
    var c := p.b.sent[p.a.taken];
    HeardNext(p);
    ProcessMoves(Here(p), c, Terms(Heard(p.a, p.b)), Acks(Heard(p.a, p.b)));
    AfterProcess(p, c, Process(Here(p), c));
  }

  /** Both halves of the handshake when one end has moved from hearing `c`. */
  lemma AfterProcess<T>(p: Pair<T>, c: Command, l: Local<T>)
    requires p.a.taken < |p.b.sent| && c == p.b.sent[p.a.taken]
    requires Handshake(p.a, p.b) && Handshake(p.b, p.a)
    requires p.a.sent <= l.sent && AckIsLast(l.sent) && (l.me.linked <==> Acks(l.sent) == 0)
    requires Table(l.me, Terms(l.sent), Acks(l.sent),
                   Terms(Heard(p.a, p.b)) + (if c.PipeTerm? then 1 else 0), Acks(Heard(p.a, p.b)) + (if c.PipeTermAck? then 1 else 0))
    ensures var m := Merge(p, l);
            var p' := m.(a := m.a.(taken := p.a.taken + 1));
            Handshake(p'.a, p'.b) && Handshake(p'.b, p'.a)
  {
    HeardNext(p);
    hide Table, AckIsLast, Terms, Acks;
    assert l.sent[..p.b.taken] == p.a.sent[..p.b.taken];
  }

  // ----- the stream

  lemma FramedExtend<T>(s: seq<Item<T>>, t: seq<Item<T>>, item: Item<T>)
    requires Framed(s) && forall i :: 0 <= i < |t| ==> IsMore(t[i])
    requires !IsMore(item) && (t != [] ==> item.Part?)
    ensures Framed(s + t + [item])
  {
  }

  /** What one end can do to the queue it reads: nothing, fall asleep on the empty queue, or take an item. */
  lemma ReadShape<T>(l: Local<T>, act: Action<T>)
    requires !act.Deliver?
    ensures var l' := UserOp(l, act);
            || (l'.got == l.got && l'.inq == l.inq)
            || (l'.got == l.got && l.inq.unread == [] && l'.inq == l.inq.(asleep := true))
            || (l.inq.unread != [] && l'.got == l.got + [l.inq.unread[0]] && l'.inq == Fifo.Read(l.inq))
    ensures UserOp(l, act).me.gone == l.me.gone
  {
    if act.DoTerminate? { TerminateKeepsReading(l, act.delay); }
    hide Fifo.Flush, Fifo.Write, Fifo.FlushOk, Terminate;
  }

  /** Reading, from either end of the queue's life, keeps the stream from `y`'s side. */
  lemma StreamRead<T>(p: Pair<T>, act: Action<T>)
    requires EnabledA(p, act)
    requires Stream(p.b, p.a)
    ensures Stream(StepA(p, act).b, StepA(p, act).a)
  {
    hide Framed;
    if !act.Deliver? {
      ReadShape(Here(p), act);
      hide UserOp;
      if p.b.out.unread != [] {
        assert p.a.got + p.b.out.unread == p.a.got + [p.b.out.unread[0]] + p.b.out.unread[1..];
      }
    }
  }

  /** In the middle of a message the next part has already been flushed. */
  lemma MidMessage<T>(x: Side<T>, y: Side<T>)
    requires Stream(x, y) && !y.me.gone && y.got != [] && IsMore(y.got[|y.got| - 1])
    ensures x.out.unread != [] && x.out.unread[0].Part?
  {
    var s, n := y.got + x.out.unread, |y.got|;
    assert s[n - 1] == y.got[n - 1];
    assert n < |s|;
    assert s[n] == x.out.unread[0];
  }

  /** The outbound queue of `l` carries what `l` put, less what the peer took (`got`). */
  ghost predicate Carries<T>(l: Local<T>, got: seq<Item<T>>, peerGone: bool) {
    && Fifo.Wf(l.outq)
    && (forall i :: 0 <= i < |l.outq.partial| ==> IsMore(l.outq.partial[i]))
    && got <= l.put
    && (!peerGone ==> l.put == got + l.outq.unread + l.outq.staged)
    && (!peerGone ==> Framed(got + l.outq.unread))
    && Framed(l.put)
  }

  lemma PutCarries<T>(l: Local<T>, item: Item<T>, got: seq<Item<T>>, peerGone: bool)
    requires Carries(l, got, peerGone)
    requires item.Part? || l.outq.partial == []
    ensures Carries(Put(l, item, IsMore(item)), got, peerGone)
  {
    if !IsMore(item) {
      FramedExtend(l.put, l.outq.partial, item);
      var q := l.outq;
      assert got + q.unread + q.staged + q.partial + [item] == got + q.unread + (q.staged + q.partial + [item]);
    }
  }

  lemma FlushCarries<T>(l: Local<T>, got: seq<Item<T>>, peerGone: bool)
    requires Carries(l, got, peerGone)
    ensures Carries(Flush(l), got, peerGone)
  {
    assert got + l.outq.unread + l.outq.staged == got + (l.outq.unread + l.outq.staged) + [];
    assert !peerGone && l.outq.staged != [] ==> l.put == got + (l.outq.unread + l.outq.staged);
  }

  lemma TerminateCarries<T>(l: Local<T>, delay: bool, got: seq<Item<T>>, peerGone: bool)
    requires Carries(l, got, peerGone)
    ensures Carries(Terminate(l, delay), got, peerGone)
  {
    var l1 := TerminateState(l.(me := l.me.(delay := delay)));
    var l2 := Rollback(l1.(me := l1.me.(outActive := false)));
    if l1.me.linked {
      PutCarries(l2, Delimiter, got, peerGone);
      FlushCarries(Put(l2, Delimiter, false), got, peerGone);
    }
  }

  lemma UserCarries<T>(l: Local<T>, act: Action<T>, got: seq<Item<T>>, peerGone: bool)
    requires !act.Deliver? && Carries(l, got, peerGone)
    ensures Carries(UserOp(l, act), got, peerGone)
  {
    hide Terminate, Flush, Framed;
    match act {
      case DoWrite(body, more) => PutCarries(CheckWrite(l).0, Part(body, more), got, peerGone);
      case DoFlush => FlushCarries(l, got, peerGone);
      case DoTerminate(delay) => TerminateCarries(l, delay, got, peerGone);
      case DoRead =>
      case DoCheckRead =>
      case DoCheckWrite =>
      case DoRollback =>
    }
  }

  lemma StreamWrite<T>(p: Pair<T>, act: Action<T>)
    requires EnabledA(p, act)
    requires Stream(p.a, p.b)
    ensures Stream(StepA(p, act).a, StepA(p, act).b)
  {
    if !act.Deliver? {
      UserCarries(Here(p), act, p.b.got, p.b.me.gone);
    }
  }

  // ----- the delimiter

  lemma TerminateCloses<T>(l: Local<T>, delay: bool)
    requires l.me.state == Active || l.me.state == Delimited || l.me.state == Pending ==> l.me.linked
    ensures var s, l' := l.me.state, Terminate(l, delay);
            && (s == Active || s == Delimited ==>
                  l'.me.state == Terminated && l'.put == l.put + [Delimiter] && l'.outq.staged == [])
            && (s == Pending ==> l'.me.state != Terminated && (l'.put == l.put || l'.put == l.put + [Delimiter]))
            && (s != Active && s != Delimited && s != Pending ==> l'.me.state == s && l'.put == l.put && l'.outq == l.outq)
  {
    assert l.put + [] + [Delimiter] == l.put + [Delimiter];
    hide Fifo.FlushOk;
  }

  lemma ClosingTerminate<T>(p: Pair<T>, act: Action<T>)
    requires EnabledA(p, act) && act.DoTerminate?
    requires Handshake(p.a, p.b) && Closing(p.a, p.b)
    ensures Closing(StepA(p, act).a, StepA(p, act).b)
  {
    var l := Here(p);
    CallIs(p, act);
    UserMoves(l, act);
    TerminateCloses(l, act.delay);
    TerminateKeepsReading(l, act.delay);
    assert Delimiter in l.put + [Delimiter];
    hide StepA, Terminate, Terms, Acks, AckIsLast;
  }

  lemma ClosingWrite<T>(p: Pair<T>, act: Action<T>)
    requires EnabledA(p, act)
    requires Handshake(p.a, p.b) && Handshake(p.b, p.a) && Stream(p.a, p.b) && Closing(p.a, p.b)
    ensures Closing(StepA(p, act).a, StepA(p, act).b)
  {
    hide Handshake, Stream, Closing;
    if act.DoTerminate? {
      ClosingTerminate(p, act);
    } else if act.Deliver? {
      ClosingDeliver(p);
    } else {
      ClosingUser(p, act);
    }
  }

  lemma ClosingDeliver<T>(p: Pair<T>)
    requires EnabledA(p, Deliver)
    requires Handshake(p.a, p.b) && Handshake(p.b, p.a) && Stream(p.a, p.b) && Closing(p.a, p.b)
    ensures Closing(StepA(p, Deliver).a, StepA(p, Deliver).b)
  {
    hide Terms;
    HeardNext(p);
    NothingUnexpected(p);
    Appended(p.a.sent, PipeTermAck);
  }

  lemma ClosingUser<T>(p: Pair<T>, act: Action<T>)
    requires EnabledA(p, act) && !act.Deliver? && !act.DoTerminate?
    requires Handshake(p.a, p.b) && Handshake(p.b, p.a) && Stream(p.a, p.b) && Closing(p.a, p.b)
    ensures Closing(StepA(p, act).a, StepA(p, act).b)
  {
    hide Terms;
    UserMoves(Here(p), act);
  }

  /** What the delimiter tells about its reader. */
  ghost predicate Delimits<T>(l: Local<T>) {
    && (l.me.state == Active || l.me.state == Pending ==> Delimiter !in l.got)
    && (l.me.state == Delimited ==> Delimiter in l.got)
    && (forall i :: 0 <= i < |l.got| - 1 ==> l.got[i].Part?)
  }

  lemma UserDelimits<T>(l: Local<T>, act: Action<T>)
    requires !act.Deliver? && Delimits(l)
    ensures Delimits(UserOp(l, act))
  {
  }

  lemma ClosingReadCall<T>(p: Pair<T>, act: Action<T>)
    requires EnabledA(p, act) && !act.Deliver?
    requires p.b.taken <= |p.a.sent| && Closing(p.b, p.a)
    ensures Closing(StepA(p, act).b, StepA(p, act).a)
  {
    StagedKept(p, act);
    CallIs(p, act);
    UserShape(Here(p), act);
    UserDelimits(Here(p), act);
    UserGoesOn(Here(p), act);
    assert UserOp(Here(p), act).sent[..p.b.taken] == p.a.sent[..p.b.taken];
    hide StepA, UserOp;
  }

  /** What an end that has not read the delimiter was before its user's call. */
  lemma UserGoesOn<T>(l: Local<T>, act: Action<T>)
    requires !act.Deliver?
    ensures var s, s' := l.me.state, UserOp(l, act).me.state;
            (s' == Active || s' == Pending ==> s == Active || s == Pending) && l.got <= UserOp(l, act).got
  {
    if act.DoTerminate? { TerminateGoesOn(l, act.delay); }
    hide Fifo.Flush, Fifo.Write, Fifo.FlushOk, Terminate;
  }

  lemma TerminateGoesOn<T>(l: Local<T>, delay: bool)
    ensures var s, s' := l.me.state, Terminate(l, delay).me.state;
            (s' == Active || s' == Pending ==> s == Active || s == Pending) && Terminate(l, delay).got == l.got
  {
    hide Fifo.Flush, Fifo.Write, Fifo.FlushOk;
  }

  lemma DeliverGoesOn<T>(p: Pair<T>)
    requires EnabledA(p, Deliver)
    ensures var s, a' := p.a.me.state, StepA(p, Deliver).a;
            && a'.got == p.a.got && (a'.me.state == Delimited ==> s == Delimited)
            && (a'.me.state == Active || a'.me.state == Pending ==> s == Active || s == Pending)
  {
  }

  lemma ClosingReadDelivery<T>(p: Pair<T>)
    requires EnabledA(p, Deliver) && p.b.taken <= |p.a.sent| && Closing(p.b, p.a)
    requires p.a.taken < |p.b.sent| && Expected(p.a.me, p.b.sent[p.a.taken])
    ensures Closing(StepA(p, Deliver).b, StepA(p, Deliver).a)
  {
    DeliverGoesOn(p);
    StepShape(p, Deliver);
    StagedKept(p, Deliver);
    HeardNext(p);
    assert StepA(p, Deliver).a.taken == p.a.taken + 1;
    hide StepA, Process;
    assert StepA(p, Deliver).a.sent[..p.b.taken] == p.a.sent[..p.b.taken];
  }

  lemma ClosingRead<T>(p: Pair<T>, act: Action<T>)
    requires EnabledA(p, act)
    requires Handshake(p.a, p.b) && Handshake(p.b, p.a) && Closing(p.b, p.a)
    ensures Closing(StepA(p, act).b, StepA(p, act).a)
  {
    hide Closing, StepA;
    if act.Deliver? { NothingUnexpected(p); ClosingReadDelivery(p); } else { ClosingReadCall(p, act); }
  }

  lemma StagedKept<T>(p: Pair<T>, act: Action<T>)
    requires EnabledA(p, act)
    ensures StepA(p, act).b.out.staged == p.b.out.staged
  {
  }

  // ----- waking the reader

  lemma UserStaysAwake<T>(l: Local<T>, act: Action<T>)
    requires !act.Deliver? && l.inq.unread != [] && l.inq.unread[0].Part?
    ensures UserOp(l, act).me.inActive == l.me.inActive
  {
    if act.DoTerminate? { TerminateKeepsReading(l, act.delay); }
    hide Fifo.Flush, Fifo.Write, Fifo.FlushOk, Terminate;
  }

  lemma TerminateKeepsReading<T>(l: Local<T>, delay: bool)
    ensures var l' := Terminate(l, delay);
            l'.me.inActive == l.me.inActive && l'.me.gone == l.me.gone && l'.got == l.got && l'.inq == l.inq
  {
    hide Fifo.Flush, Fifo.Write, Fifo.FlushOk;
  }

  lemma UserReadsAwake<T>(l: Local<T>, act: Action<T>)
    requires !act.Deliver?
    ensures UserOp(l, act).got != l.got ==> UserOp(l, act).me.inActive
    ensures UserOp(l, act).me.gone == l.me.gone
  {
    if act.DoTerminate? { TerminateKeepsReading(l, act.delay); }
    hide Fifo.Flush, Fifo.Write, Fifo.FlushOk, Terminate;
  }

  /** A reader in the middle of a message finds the next part: it is never put to sleep there. */
  lemma AwakeStep<T>(p: Pair<T>, act: Action<T>)
    requires EnabledA(p, act)
    requires Stream(p.b, p.a) && Awake(p.b, p.a)
    ensures Awake(StepA(p, act).b, StepA(p, act).a)
  {
    var mid := p.a.got != [] && IsMore(p.a.got[|p.a.got| - 1]);
    if mid { MidMessage(p.b, p.a); }
    if act.Deliver? {
      DeliverStaysAwake(p);
    } else {
      CallIs(p, act);
      UserReadsAwake(Here(p), act);
      if mid { UserStaysAwake(Here(p), act); }
      hide UserOp, StepA, Stream;
    }
  }

  lemma DeliverStaysAwake<T>(p: Pair<T>)
    requires EnabledA(p, Deliver)
    ensures StepA(p, Deliver).a.got == p.a.got
    ensures p.a.me.inActive ==> StepA(p, Deliver).a.me.inActive
  {
  }

  lemma UserWakes<T>(l: Local<T>, act: Action<T>)
    requires !act.Deliver?
    ensures var l' := UserOp(l, act);
            && l.sent <= l'.sent
            && (l.outq.asleep && !l'.outq.asleep ==> l.sent < l'.sent && l'.sent[|l'.sent| - 1] == ActivateRead)
  {
    if act.DoTerminate? { TerminateWakes(l, act.delay); }
    hide Terminate;
  }

  lemma TerminateWakes<T>(l: Local<T>, delay: bool)
    ensures var l' := Terminate(l, delay);
            && l.sent <= l'.sent
            && (l.outq.asleep && !l'.outq.asleep ==> l.sent < l'.sent && l'.sent[|l'.sent| - 1] == ActivateRead)
  {
  }

  lemma DeliverKeepsOut<T>(p: Pair<T>)
    requires EnabledA(p, Deliver)
    ensures StepA(p, Deliver).a.out == p.a.out && StepA(p, Deliver).b.taken == p.b.taken
    ensures StepA(p, Deliver).b.me == p.b.me && p.a.sent <= StepA(p, Deliver).a.sent
  {
  }

  lemma WakesWriteCall<T>(p: Pair<T>, act: Action<T>)
    requires EnabledA(p, act) && !act.Deliver? && p.b.taken <= |p.a.sent| && Wakes(p.a, p.b)
    ensures Wakes(StepA(p, act).a, StepA(p, act).b)
  {
    UserWakes(Here(p), act);
    CallIs(p, act);
    hide StepA, UserOp;
    var s, s' := p.a.sent, UserOp(Here(p), act).sent;
    assert s'[p.b.taken..] == s[p.b.taken..] + s'[|s|..];
    if s < s' { assert s'[|s|..][|s'| - |s| - 1] == s'[|s'| - 1]; }
  }

  lemma WakesWriteDelivery<T>(p: Pair<T>)
    requires EnabledA(p, Deliver) && p.b.taken <= |p.a.sent| && Wakes(p.a, p.b)
    ensures Wakes(StepA(p, Deliver).a, StepA(p, Deliver).b)
  {
    DeliverKeepsOut(p);
    hide StepA;
    var s, s' := p.a.sent, StepA(p, Deliver).a.sent;
    assert s'[p.b.taken..] == s[p.b.taken..] + s'[|s|..];
  }

  lemma WakesWrite<T>(p: Pair<T>, act: Action<T>)
    requires EnabledA(p, act)
    requires Handshake(p.b, p.a) && Wakes(p.a, p.b)
    ensures Wakes(StepA(p, act).a, StepA(p, act).b)
  {
    hide Wakes, StepA, Table;
    if act.Deliver? { WakesWriteDelivery(p); } else { WakesWriteCall(p, act); }
  }

  lemma UserSleeps<T>(l: Local<T>, act: Action<T>)
    requires !act.Deliver?
    ensures var l' := UserOp(l, act);
            && (l.inq.asleep ==> l'.inq.asleep)
            && (MaySleep(l'.me) ==> MaySleep(l.me) || l'.inq.asleep)
  {
    if act.DoTerminate? { TerminateKeepsReading(l, act.delay); }
    hide Fifo.Flush, Fifo.Write, Fifo.FlushOk;
  }

  predicate MaySleep(e: End) {
    (e.state == Active || e.state == Pending) && !e.inActive
  }

  lemma WakesReadCall<T>(p: Pair<T>, act: Action<T>)
    requires EnabledA(p, act) && !act.Deliver? && Wakes(p.b, p.a)
    ensures Wakes(StepA(p, act).b, StepA(p, act).a)
  {
    UserSleeps(Here(p), act);
    CallIs(p, act);
    hide StepA, UserOp;
  }

  lemma WakesReadDelivery<T>(p: Pair<T>)
    requires EnabledA(p, Deliver) && Expected(p.a.me, p.b.sent[p.a.taken]) && Wakes(p.b, p.a)
    ensures Wakes(StepA(p, Deliver).b, StepA(p, Deliver).a)
  {
    DeliveryIs(p);
    hide StepA;
    assert p.b.sent[p.a.taken..] == [p.b.sent[p.a.taken]] + p.b.sent[p.a.taken + 1..];
  }

  lemma WakesRead<T>(p: Pair<T>, act: Action<T>)
    requires EnabledA(p, act)
    requires Handshake(p.a, p.b) && Handshake(p.b, p.a) && Wakes(p.b, p.a)
    ensures Wakes(StepA(p, act).b, StepA(p, act).a)
  {
    if act.Deliver? {
      NothingUnexpected(p);
      WakesReadDelivery(p);
    } else {
      WakesReadCall(p, act);
    }
    hide StepA, Wakes;
  }

  // ----- flow control

  lemma MonotoneAt(s: seq<Command>, c: Command, m: nat, n: nat)
    requires Monotone(s) && LastCount(s) <= LastCount(s + [c]) && m <= n <= |s| + 1
    ensures LastCount((s + [c])[..m]) <= LastCount((s + [c])[..n])
  {
    hide LastCount;
    var t := s + [c];
    if n <= |s| {
      assert t[..m] == s[..m] && t[..n] == s[..n];
    } else {
      assert t[..n] == t;
      if m <= |s| {
        assert t[..m] == s[..m] && s[..|s|] == s;
        assert LastCount(s[..m]) <= LastCount(s[..|s|]);
      }
    }
  }

  lemma MonotoneAppend(s: seq<Command>, c: Command)
    requires Monotone(s) && (c.ActivateWrite? ==> LastCount(s) <= c.msgsRead)
    ensures Monotone(s + [c])
  {
    Appended(s, c);
    hide LastCount;
    forall m, n | 0 <= m <= n <= |s + [c]| ensures LastCount((s + [c])[..m]) <= LastCount((s + [c])[..n]) {
      MonotoneAt(s, c, m, n);
    }
  }

  /** The counters of `l` count the messages of its records. */
  ghost predicate Counts<T>(l: Local<T>) {
    l.me.msgsWritten == Ends(l.put) && l.me.msgsRead == Ends(l.got)
  }

  lemma TalliedWrite<T>(l: Local<T>, body: T, more: bool)
    requires Counts(l)
    requires forall i :: 0 <= i < |l.outq.partial| ==> IsMore(l.outq.partial[i])
    ensures Counts(Write(l, body, more).0)
  {
    EndsOfParts(l.outq.partial);
    EndsConcat(l.put, l.outq.partial);
    EndsConcat(l.put + l.outq.partial, [Part(body, more)]);
  }

  lemma TalliedTake<T>(l: Local<T>)
    requires Counts(l) && l.inq.unread != []
    ensures var i := l.inq.unread[0];
            if i.Part? then Counts(Account(Take(l), i.more))
            else l.me.state == Active || l.me.state == Pending ==> Counts(Delimit(Take(l)))
  {
    EndsConcat(l.got, [l.inq.unread[0]]);
  }

  lemma TalliedRead<T>(l: Local<T>)
    requires Counts(l)
    ensures Counts(Read(l).0) && Counts(CheckRead(l).0)
  {
    hide Ends, Account, Delimit;
    if l.inq.unread != [] {
      TalliedTake(l);
    }
  }

  lemma TalliedTerminate<T>(l: Local<T>, delay: bool)
    ensures var l' := Terminate(l, delay);
            && l'.me.msgsWritten == l.me.msgsWritten && l'.me.msgsRead == l.me.msgsRead
            && Ends(l'.put) == Ends(l.put) && l'.got == l.got
  {
    var none: seq<Item<T>> := [];
    EndsConcat(l.put, none + [Delimiter]);
    assert l.put + none + [Delimiter] == l.put + (none + [Delimiter]);
    assert (none + [Delimiter])[..0] == none;
  }

  lemma TalliedUser<T>(l: Local<T>, act: Action<T>)
    requires !act.Deliver?
    requires forall i :: 0 <= i < |l.outq.partial| ==> IsMore(l.outq.partial[i])
    requires Counts(l)
    ensures Counts(UserOp(l, act))
  {
    hide Terminate, Read, CheckRead, Write, Ends;
    match act {
      case DoRead => TalliedRead(l);
      case DoCheckRead => TalliedRead(l);
      case DoWrite(body, more) => TalliedWrite(l, body, more);
      case DoTerminate(delay) => TalliedTerminate(l, delay);
      case DoCheckWrite =>
      case DoRollback =>
      case DoFlush =>
    }
  }

  lemma TalliedStep<T>(p: Pair<T>, act: Action<T>)
    requires EnabledA(p, act)
    requires Stream(p.a, p.b) && Tallied(p.a)
    ensures Tallied(StepA(p, act).a)
  {
    if !act.Deliver? {
      TalliedUser(Here(p), act);
    }
  }

  /** `Reports`, for an end by itself. */
  ghost predicate LocalReports<T>(l: Local<T>) {
    && Monotone(l.sent)
    && LastCount(l.sent) == LastMultiple(l.me.msgsRead, l.me.lwm)
  }

  lemma SameReports<T>(l: Local<T>, l': Local<T>, c: Command)
    requires LocalReports(l) && !c.ActivateWrite?
    requires l'.sent == l.sent || l'.sent == l.sent + [c]
    requires l'.me.lwm == l.me.lwm && l'.me.msgsRead == l.me.msgsRead
    ensures LocalReports(l')
  {
    Appended(l.sent, c);
    MonotoneAppend(l.sent, c);
  }

  /** Between two multiples of the watermark the last multiple stays; reaching one is reported. */
  lemma NextMultiple(n: nat, m: nat)
    requires m > 0
    ensures (n + 1) % m != 0 ==> n + 1 - (n + 1) % m == n - n % m
    ensures n - n % m <= n
  {
    var q, r := n / m, n % m;
    assert n == q * m + r;
    if r + 1 < m {
      QuotientUnique(n + 1, m, q, r + 1);
    } else {
      assert n + 1 == (q + 1) * m;
      QuotientUnique(n + 1, m, q + 1, 0);
    }
  }

  lemma QuotientUnique(n: nat, m: nat, q: nat, r: nat)
    requires m > 0 && n == q * m + r && r < m
    ensures n % m == r
  {
    var d: int := n / m - q;
    assert n == (n / m) * m + n % m;
    assert d * m == r - n % m;
    MultipleIsLarge(d, m);
  }

  lemma MultipleIsLarge(d: int, m: nat)
    requires m > 0
    ensures d > 0 ==> d * m >= m
    ensures d < 0 ==> d * m <= 0 - m
  {
  }

  /** The last multiple of a positive `m` up to `n`; 0 when nothing is ever reported. */
  function LastMultiple(n: nat, m: int): (k: int)
    ensures 0 <= k <= n
  {
    if m > 0 then n - n % m else 0
  }

  lemma NextLast(n: nat, m: int)
    ensures LastMultiple(n + 1, m) == if m > 0 && (n + 1) % m == 0 then n + 1 else LastMultiple(n, m)
  {
    if m > 0 { NextMultiple(n, m); }
  }

  lemma AccountReports<T>(l: Local<T>, more: bool)
    requires LocalReports(l)
    ensures LocalReports(Account(l, more))
  {
    var n := if more then l.me.msgsRead else l.me.msgsRead + 1;
    if more {
      SameCount(l.me.msgsRead, l.me.lwm);
    } else {
      NextLast(l.me.msgsRead, l.me.lwm);
    }
    hide LastMultiple, Monotone, LastCount;
    MonotoneAppend(l.sent, ActivateWrite(n));
    Appended(l.sent, ActivateWrite(n));
  }

  lemma SameCount(n: nat, m: int)
    ensures m > 0 && n % m == 0 ==> LastMultiple(n, m) == n
  {
  }

  lemma ReadReports<T>(l: Local<T>)
    requires LocalReports(l)
    ensures LocalReports(Read(l).0) && LocalReports(CheckRead(l).0)
  {
    if MayRead(l.me) && l.inq.unread != [] {
      var item := l.inq.unread[0];
      SameReports(l, Delimit(Take(l)), PipeTermAck);
      AccountReports(Take(l), IsMore(item));
    }
  }

  lemma TerminateReports<T>(l: Local<T>, delay: bool)
    requires LocalReports(l)
    ensures LocalReports(Terminate(l, delay))
  {
    hide LocalReports, Fifo.Flush, Fifo.Write;
    SameReports(l, l.(me := l.me.(delay := delay)), PipeTerm);
    var l1 := TerminateState(l.(me := l.me.(delay := delay)));
    SameReports(l, l1, if l.me.state == Pending then PipeTermAck else PipeTerm);
    var l2 := l1.(me := l1.me.(outActive := false));
    SameReports(l1, Close(l2), ActivateRead);
  }

  lemma ReportsStep<T>(p: Pair<T>, act: Action<T>)
    requires EnabledA(p, act)
    requires Reports(p.a)
    ensures Reports(StepA(p, act).a)
  {
    var l := Here(p);
    match act {
      case DoRead => ReadReports(l);
      case DoCheckRead => ReadReports(l);
      case DoFlush => SameReports(l, Flush(l), ActivateRead);
      case DoTerminate(delay) => TerminateReports(l, delay);
      case Deliver =>
        var c := p.b.sent[p.a.taken];
        if Expected(p.a.me, c) {
          SameReports(l, Process(l, c), PipeTermAck);
        }
      case _ =>
    }
  }

  /** The part of `Credit` that concerns the writer alone. */
  ghost predicate Window<T>(l: Local<T>) {
    && (l.me.hwm > 0 ==> l.me.msgsWritten - l.me.peersMsgsRead <= l.me.hwm)
    && (l.me.state == Active && !l.me.outActive ==> Full(l.me))
    && (l.me.state == Active && l.outq.partial != [] ==> l.me.outActive && !Full(l.me))
  }

  /** Neither the window nor the credit known to the writer suffers. */
  ghost predicate KeepsWindow<T>(l: Local<T>, l': Local<T>) {
    Window(l') && l'.me.peersMsgsRead == l.me.peersMsgsRead && l'.me.hwm == l.me.hwm
  }

  lemma WriteWindow<T>(l: Local<T>, body: T, more: bool)
    requires Window(l)
    ensures KeepsWindow(l, Write(l, body, more).0) && KeepsWindow(l, CheckWrite(l).0)
    ensures KeepsWindow(l, Rollback(l)) && KeepsWindow(l, Flush(l))
  {
  }

  lemma TerminateWindow<T>(l: Local<T>, delay: bool)
    requires Window(l)
    ensures KeepsWindow(l, Terminate(l, delay))
  {
  }

  lemma ReadWindow<T>(l: Local<T>)
    requires Window(l)
    ensures KeepsWindow(l, Read(l).0) && KeepsWindow(l, CheckRead(l).0)
  {
  }

  lemma UserWindow<T>(l: Local<T>, act: Action<T>)
    requires !act.Deliver? && Window(l)
    ensures KeepsWindow(l, UserOp(l, act))
  {
    match act {
      case DoWrite(body, more) => WriteWindow(l, body, more);
      case DoTerminate(delay) => TerminateWindow(l, delay);
      case DoRead => ReadWindow(l);
      case DoCheckRead => ReadWindow(l);
      case DoCheckWrite =>
      case DoRollback =>
      case DoFlush =>
    }
  }

  lemma CreditDeliver<T>(p: Pair<T>)
    requires EnabledA(p, Deliver)
    requires Handshake(p.a, p.b) && Handshake(p.b, p.a)
    requires Reports(p.b) && Credit(p.a, p.b)
    ensures Credit(StepA(p, Deliver).a, StepA(p, Deliver).b)
  {
    HeardNext(p);
    assert LastCount(p.b.sent[..p.a.taken]) <= LastCount(p.b.sent[..p.a.taken + 1]);
  }

  lemma CreditStep<T>(p: Pair<T>, act: Action<T>)
    requires EnabledA(p, act)
    requires Handshake(p.a, p.b) && Handshake(p.b, p.a)
    requires Reports(p.b) && Credit(p.a, p.b)
    ensures Credit(StepA(p, act).a, StepA(p, act).b)
  {
    if act.Deliver? {
      CreditDeliver(p);
    } else {
      UserWindow(Here(p), act);
    }
  }

  lemma CreditPeer<T>(p: Pair<T>, act: Action<T>)
    requires EnabledA(p, act)
    requires Handshake(p.a, p.b) && Handshake(p.b, p.a) && Credit(p.b, p.a)
    ensures Credit(StepA(p, act).b, StepA(p, act).a)
  {
    StepShape(p, act);
    assert p.b.taken <= |p.a.sent|;
    hide *;
    assert StepA(p, act).a.sent[..p.b.taken] == p.a.sent[..p.b.taken];
  }

  // ----- every reachable state

  lemma StepInvA<T>(p: Pair<T>, act: Action<T>)
    requires Inv(p) && EnabledA(p, act)
    ensures Inv(StepA(p, act))
  {
    if act.Deliver? { HandshakeDeliver(p); } else { HandshakeUser(p, act); }
    StreamWrite(p, act);
    StreamRead(p, act);
    ClosingWrite(p, act);
    ClosingRead(p, act);
    WakesWrite(p, act);
    WakesRead(p, act);
    AwakeStep(p, act);
    TalliedStep(p, act);
    ReportsStep(p, act);
    CreditStep(p, act);
    CreditPeer(p, act);
    StepShape(p, act);
  }

  lemma StepInv<T>(p: Pair<T>, who: Who, act: Action<T>)
    requires Inv(p) && Enabled(p, who, act)
    ensures Inv(Step(p, who, act))
  {
    StepInvA(if who == A then p else Swap(p), act);
  }

  lemma CreateInv<T>(hwmA: int, hwmB: int, delayA: bool, delayB: bool)
    ensures Inv(Create<T>(hwmA, hwmB, delayA, delayB))
  {
  }

  /** A run of the two ends from their creation: any interleaving of user calls and deliveries. */
  datatype Call<T> = Call(who: Who, act: Action<T>)

  ghost predicate Run<T(!new)>(calls: seq<Call<T>>, ps: seq<Pair<T>>) {
    && |ps| == |calls| + 1
    && (exists hwmA, hwmB, delayA, delayB :: ps[0] == Create(hwmA, hwmB, delayA, delayB))
    && forall i :: 0 <= i < |calls| ==>
         Enabled(ps[i], calls[i].who, calls[i].act) && ps[i + 1] == Step(ps[i], calls[i].who, calls[i].act)
  }

  lemma {:induction false} RunInv<T(!new)>(calls: seq<Call<T>>, ps: seq<Pair<T>>, n: nat)
    requires Run(calls, ps) && n <= |calls|
    ensures Inv(ps[n])
  {
    if n == 0 {
      var hwmA, hwmB, delayA, delayB :| ps[0] == Create(hwmA, hwmB, delayA, delayB);
      CreateInv<T>(hwmA, hwmB, delayA, delayB);
    } else {
      hide Inv, Enabled, Step;
      RunInv(calls, ps, n - 1);
      assert ps[n] == Step(ps[n - 1], calls[n - 1].who, calls[n - 1].act);
      StepInv(ps[n - 1], calls[n - 1].who, calls[n - 1].act);
    }
  }
}
