/** The decoders of both framings: `decoder_base_t` with the steps of `decoder_t` and `v1_decoder_t`. */
module Decoder {
  import opened Bytes
  import opened Wire
  import opened Framing

  datatype Answer = Accepted | Again | Failed

  /** Where the decoder delivers messages. It takes `room` messages; after that it answers EAGAIN, or another
      error if it is broken. Both may be anything at the time of any call. */
  class Sink {
    var room: nat
    var broken: bool
    var got: seq<Msg>

    constructor ()
      ensures got == []
    {
      room, broken, got := 0, false, [];
    }

    method PushMsg(m: Msg) returns (a: Answer)
      modifies this
      ensures a == Accepted ==> old(room) > 0 && room == old(room) - 1 && got == old(got) + [m]
      ensures a != Accepted ==> room == old(room) == 0 && got == old(got)
      ensures broken == old(broken) && (a != Accepted ==> (a == Failed <==> broken))
    {
      if room == 0 {
        return if broken then Failed else Again;
      }
      room := room - 1;
      got := got + [m];
      a := Accepted;
    }
  }

  /** What to do when `toRead` bytes more have been read; `Dead` stands for a NULL step. */
  datatype Step = SizeByte | SizeLong | Flags | Message | Dead

  /** How far into a frame the decoder is: `frame` was read since the last message, its end `got` into the
      current target. */
  ghost predicate Reading(c: Config, next: Step, frame: seq<Byte>, got: seq<Byte>, toRead: nat, size: nat, more: bool) {
    var h := |frame| - |got|;
    && h >= 0 && got == frame[h..]
    && match next
       case SizeByte =>
         && |got| + toRead == 1
         && (c.proto == Unversioned ==> h == 0)
         && (c.proto == V1 ==> h == 1 && frame[0] / 2 % 2 == 0 && more == (frame[0] % 2 == 1))
       case SizeLong =>
         && |got| + toRead == 8 && h == 1
         && (c.proto == Unversioned ==> frame[0] == 255)
         && (c.proto == V1 ==> frame[0] / 2 % 2 == 1 && more == (frame[0] % 2 == 1))
       case Flags =>
         && |got| + toRead == 1
         && (c.proto == V1 ==> h == 0)
         && (c.proto == Unversioned ==> HeadOf(c, frame[..h]) == Head(h + 1, size, h))
       case Message =>
         && |got| + toRead == size
         && Headed(c, frame[..h], size, more)
       case Dead => true
  }

  /** `hdr` is a whole header of a message of that size. */
  ghost predicate Headed(c: Config, hdr: seq<Byte>, size: nat, more: bool) {
    var head := HeadOf(c, hdr);
    head.Head? && head.len == |hdr| && head.size == size && more == (hdr[head.flags] % 2 == 1)
  }

  lemma ReadMore(c: Config, next: Step, frame: seq<Byte>, got: seq<Byte>, toRead: nat, size: nat, more: bool, b: seq<Byte>)
    requires Reading(c, next, frame, got, toRead, size, more) && |b| <= toRead
    ensures Reading(c, next, frame + b, got + b, toRead - |b|, size, more)
  {
    var h := |frame| - |got|;
    assert (frame + b)[h..] == got + b && (frame + b)[..h] == frame[..h];
    hide HeadOf;
  }

  lemma Regroup(x: seq<Byte>, y: seq<Byte>, z: seq<Byte>)
    ensures x + y + z == x + (y + z)
  {
  }

  lemma AtStart(c: Config, size: nat, more: bool)
    ensures Reading(c, if c.proto == Unversioned then SizeByte else Flags, [], [], 1, size, more)
  {
  }

  /** While bytes are missing, no frame is complete and none is refused. */
  lemma Unfinished(c: Config, next: Step, frame: seq<Byte>, got: seq<Byte>, toRead: nat, size: nat, more: bool)
    requires Reading(c, next, frame, got, toRead, size, more) && next != Dead && toRead > 0
    ensures FirstFrame(c, frame).Short?
  {
    var h := |frame| - |got|;
    if next == Message || (next == Flags && c.proto == Unversioned) {
      HeadStable(c, frame[..h], frame[h..]);
      assert frame[..h] + frame[h..] == frame;
    }
  }

  lemma Finished(c: Config, frame: seq<Byte>, got: seq<Byte>, size: nat, more: bool)
    requires Reading(c, Message, frame, got, 0, size, more)
    ensures |got| + 1 < TWO_64 && FirstFrame(c, frame) == Frame(Msg(got, more), |frame|)
  {
    var h := |frame| - |got|;
    HeadStable(c, frame[..h], frame[h..]);
    assert frame[..h] + frame[h..] == frame;
    assert frame[h..h + size] == got;
  }

  /** Between frames, `frame` follows on from messages that were all delivered. */
  lemma InFrame(c: Config, before: seq<Byte>, frame: seq<Byte>, ms: seq<Msg>)
    requires Decoded(c, before) == Meaning(ms, false, [])
    ensures var f := FirstFrame(c, frame);
            var d := Decoded(c, before + frame);
            && (!f.Frame? ==> d == Meaning(ms, f.Bad?, frame))
            && (f.Frame? && f.len == |frame| ==> d == Meaning(ms + [f.msg], false, []))
  {
    DecodedAppend(c, before, frame);
    DecodedStep(c, frame);
    DecodedNothing(c);
    assert [] + frame == frame && frame[|frame|..] == [];
    hide *;
  }

  class Decoder {
    const c: Config
    const bufsize: nat
    var sink: Sink?
    var next: Step
    /** What has been read into the current target, and how much is missing. */
    var got: seq<Byte>
    var toRead: nat
    /** The size and the flag of the message in progress. */
    var size: nat
    var more: bool

    /** All bytes read before the current frame and those of the frame; whether the sink has failed. */
    ghost var before: seq<Byte>
    ghost var frame: seq<Byte>
    ghost var pushed: seq<Msg>
    ghost var failed: bool

    ghost function Consumed(): seq<Byte>
      reads this
    {
      before + frame
    }

    ghost predicate Valid()
      reads this, sink
    {
      && Decoded(c, before) == Meaning(pushed, false, [])
      && (sink != null ==> sink.got == pushed)
      && Reading(c, next, frame, got, toRead, size, more)
      && (next == Dead ==> failed || FirstFrame(c, frame).Bad?)
      && (failed ==> FirstFrame(c, frame).Frame? && FirstFrame(c, frame).len == |frame|)
      && (next != Dead ==> !failed)
    }

    /** A whole message waits for the sink to take it. */
    predicate Waiting()
      reads this
    {
      next == Message && toRead == 0
    }

    constructor (c: Config, bufsize: nat)
      ensures Valid() && Consumed() == [] && pushed == [] && sink == null && next != Dead
      ensures this.c == c && this.bufsize == bufsize
    {
      this.c, this.bufsize, sink := c, bufsize, null;
      next := if c.proto == Unversioned then SizeByte else Flags;
      got, toRead, size, more := [], 1, 0, false;
      before, frame, pushed, failed := [], [], [], false;
      new;
      DecodedNothing(c);
    }

    /** `next_step` to a target of `n` bytes. */
    method NextStep(n: nat, next: Step)
      modifies this`got, this`toRead, this`next
      ensures got == [] && toRead == n && this.next == next
    {
      got, toRead, this.next := [], n, next;
    }

    /** What holds before a step: all its bytes are there. */
    ghost predicate Due(s: Step)
      reads this, sink
    {
      Valid() && next == s && toRead == 0
    }

    /** What a step that does not deliver leads to. */
    twostate predicate Stepped(ok: bool)
      reads this, sink
    {
      && Valid() && before == old(before) && frame == old(frame) && pushed == old(pushed)
      && (ok ==> next != Dead && (toRead > 0 || next == Message))
      && (!ok ==> next == Dead)
    }

    /** `one_byte_size_ready` in `decoder_t` */
    method UnversionedSizeByte() returns (ok: bool)
      requires Due(SizeByte) && c.proto == Unversioned
      modifies this`got, this`toRead, this`next, this`size
      ensures Stepped(ok)
    {
      if got[0] == 255 {
        NextStep(8, SizeLong);
      } else {
        if got[0] == 0 {
          next := Dead;
          return false;
        }
        if (c.maxsize >= 0 && got[0] - 1 > c.maxsize) || got[0] - 1 > c.memory {
          next := Dead;
          return false;
        }
        size := got[0] - 1;
        assert frame[..1] == frame;
        NextStep(1, Flags);
      }
      return true;
    }

    /** `eight_byte_size_ready` in `decoder_t` */
    method UnversionedSizeLong() returns (ok: bool)
      requires Due(SizeLong) && c.proto == Unversioned
      modifies this`got, this`toRead, this`next, this`size
      ensures Stepped(ok)
    {
      var payload := GetUint64(got);
      assert frame[1..9] == got;
      hide GetUint64;
      if payload == 0 {
        next := Dead;
        return false;
      }
      if (c.maxsize >= 0 && payload - 1 > c.maxsize) || payload - 1 > c.memory {
        next := Dead;
        return false;
      }
      size := payload - 1;
      assert frame[..9] == frame;
      NextStep(1, Flags);
      return true;
    }

    /** `flags_ready` in `decoder_t` */
    method UnversionedFlags() returns (ok: bool)
      requires Due(Flags) && c.proto == Unversioned
      modifies this`got, this`toRead, this`next, this`more
      ensures Stepped(ok)
    {
      more := got[0] % 2 == 1;
      ghost var h := |frame| - 1;
      HeadStable(c, frame[..h], got);
      assert frame[..h] + got == frame && frame[..|frame|] == frame;
      hide HeadOf, FirstFrame;
      NextStep(size, Message);
      return true;
    }

    /** `flags_ready` in `v1_decoder_t` */
    method V1Flags() returns (ok: bool)
      requires Due(Flags) && c.proto == V1
      modifies this`got, this`toRead, this`next, this`more
      ensures Stepped(ok)
    {
      more := got[0] % 2 == 1;
      if got[0] / 2 % 2 == 1 {
        NextStep(8, SizeLong);
      } else {
        NextStep(1, SizeByte);
      }
      return true;
    }

    /** `one_byte_size_ready` in `v1_decoder_t` */
    method V1SizeByte() returns (ok: bool)
      requires Due(SizeByte) && c.proto == V1
      modifies this`got, this`toRead, this`next, this`size
      ensures Stepped(ok)
    {
      if (c.maxsize >= 0 && got[0] > c.maxsize) || got[0] > c.memory {
        next := Dead;
        return false;
      }
      size := got[0];
      assert frame[..2] == frame;
      NextStep(size, Message);
      return true;
    }

    /** `eight_byte_size_ready` in `v1_decoder_t` */
    method V1SizeLong() returns (ok: bool)
      requires Due(SizeLong) && c.proto == V1
      modifies this`got, this`toRead, this`next, this`size
      ensures Stepped(ok)
    {
      var msgSize := GetUint64(got);
      assert frame[1..9] == got;
      hide GetUint64;
      if (c.maxsize >= 0 && msgSize > c.maxsize) || msgSize > c.memory || msgSize + 1 >= TWO_64 {
        next := Dead;
        return false;
      }
      size := msgSize;
      assert frame[..9] == frame;
      NextStep(size, Message);
      return true;
    }

    /** `message_ready`: deliver the message; if the sink does not take it now, try again later. */
    method MessageReady() returns (ok: bool)
      requires Due(Message)
      modifies this`got, this`toRead, this`next, this`before, this`frame, this`pushed, this`failed, sink
      ensures Valid() && Consumed() == old(Consumed())
      ensures ok ==> toRead > 0 && next != Dead
      ensures !ok ==> pushed == old(pushed) && (sink != null ==> sink.room == 0)
      ensures !ok ==> (next == Dead <==> sink != null && sink.broken) && (next != Dead ==> Waiting())
    {
      if sink == null {
        return false;
      }
      Finished(c, frame, got, size, more);
      hide Decoded, HeadOf, FirstFrame;
      var a := sink.PushMsg(Msg(got, more));
      match a
      case Again =>
        return false;
      case Failed =>
        failed := true;
        next := Dead;
        return false;
      case Accepted =>
        NextFrame();
        return true;
    }

    /** The message in progress was delivered. */
    method NextFrame()
      requires |got| + 1 < TWO_64 && FirstFrame(c, frame) == Frame(Msg(got, more), |frame|)
      requires Decoded(c, before) == Meaning(pushed, false, []) && !failed
      requires sink != null ==> sink.got == pushed + [Msg(got, more)]
      modifies this`got, this`toRead, this`next, this`before, this`frame, this`pushed
      ensures Valid() && Consumed() == old(Consumed()) && toRead > 0 && next != Dead
    {
      InFrame(c, before, frame, pushed);
      AtStart(c, size, more);
      hide *;
      assert before + frame + [] == before + frame;
      pushed := pushed + [Msg(got, more)];
      before := before + frame;
      frame := [];
      NextStep(1, if c.proto == Unversioned then SizeByte else Flags);
    }

    /** The step that `next` points to. */
    method RunStep() returns (ok: bool)
      requires Valid() && next != Dead && toRead == 0
      modifies this`got, this`toRead, this`next, this`size, this`more, this`before, this`frame, this`pushed, this`failed, sink
      ensures Valid() && Consumed() == old(Consumed())
      ensures ok ==> next != Dead && (toRead > 0 || (old(next) != Message && next == Message))
      ensures !ok ==> next == Dead || Waiting()
      ensures !ok && Waiting() && sink != null ==> sink.room == 0 && !sink.broken
      ensures failed ==> sink != null && sink.broken
    {
      if next == Message {
        ok := MessageReady();
      } else if c.proto == Unversioned {
        match next
        case SizeByte => ok := UnversionedSizeByte();
        case SizeLong => ok := UnversionedSizeLong();
        case Flags => ok := UnversionedFlags();
      } else {
        match next
        case Flags => ok := V1Flags();
        case SizeByte => ok := V1SizeByte();
        case SizeLong => ok := V1SizeLong();
      }
    }

    /** Run steps until one needs bytes or none can be made. */
    method RunSteps() returns (ok: bool)
      requires Valid() && next != Dead
      modifies this`got, this`toRead, this`next, this`size, this`more, this`before, this`frame, this`pushed, this`failed, sink
      ensures Valid() && Consumed() == old(Consumed())
      ensures ok ==> next != Dead && toRead > 0
      ensures !ok ==> next == Dead || Waiting()
      ensures !ok && Waiting() && sink != null ==> sink.room == 0 && !sink.broken
      ensures failed ==> sink != null && sink.broken
      ensures old(toRead) > 0 ==> toRead == old(toRead) && next == old(next)
    {
      hide Decoded, Reading, FirstFrame;
      while toRead == 0
        invariant Valid() && Consumed() == old(Consumed()) && next != Dead
        invariant old(toRead) > 0 ==> toRead == old(toRead) && next == old(next)
        decreases if toRead > 0 then 0 else if next == Message then 1 else 2
      {
        ok := RunStep();
        if !ok {
          return;
        }
      }
      ok := true;
    }

    /** Read bytes into the current target. */
    method Take(b: seq<Byte>)
      requires Valid() && next != Dead && |b| <= toRead
      modifies this`got, this`toRead, this`frame
      ensures Valid() && Consumed() == old(Consumed()) + b && toRead == old(toRead) - |b|
    {
      ReadMore(c, next, frame, got, toRead, size, more, b);
      Regroup(before, frame, b);
      hide Reading, Decoded, FirstFrame;
      got, toRead, frame := got + b, toRead - |b|, frame + b;
    }

    /** Where to read, and how much. A target in place never takes bytes of a later frame, and with a buffer larger than
        any header it is what is missing of the message's body; any other target has room for more. */
    method GetBuffer() returns (zeroCopy: bool, n: nat)
      requires Valid()
      ensures bufsize > 0 ==> n > 0
      ensures zeroCopy ==> bufsize <= n <= toRead
      ensures zeroCopy && bufsize > 8 && next != Dead ==> next == Message && |got| + n == size
      ensures !zeroCopy ==> toRead < n <= bufsize
    {
      if toRead >= bufsize {
        return true, toRead;
      }
      return false, bufsize;
    }

    method ProcessInPlace(data: seq<Byte>) returns (n: int)
      requires Valid() && next != Dead && |data| <= toRead
      modifies this`got, this`toRead, this`next, this`size, this`more, this`before, this`frame, this`pushed, this`failed, sink
      ensures Valid() && Consumed() == old(Consumed()) + data
      ensures n == if next == Dead then -1 else |data|
      ensures n != -1 ==> toRead > 0 || Waiting()
      ensures n != -1 && Waiting() && sink != null ==> sink.room == 0 && !sink.broken
      ensures failed ==> sink != null && sink.broken
    {
      Take(data);
      hide *;
      var ok := RunSteps();
      n := if next == Dead then -1 else |data|;
    }

    /** Process bytes, which with `zeroCopy` are in the message already. The result is the number of bytes
        processed, or -1 for an error; `eaten` is the number of bytes read even then. */
    method ProcessBuffer(data: seq<Byte>, zeroCopy: bool) returns (n: int, ghost eaten: nat)
      requires Valid() && (zeroCopy ==> |data| <= toRead)
      modifies this`got, this`toRead, this`next, this`size, this`more, this`before, this`frame, this`pushed, this`failed, sink
      ensures Valid() && eaten <= |data| && Consumed() == old(Consumed()) + data[..eaten]
      ensures n == -1 <==> next == Dead
      ensures n != -1 ==> n == eaten
      ensures 0 <= n < |data| ==> Waiting()
      ensures n == |data| ==> toRead > 0 || Waiting()
      ensures n != -1 && Waiting() && sink != null ==> sink.room == 0 && !sink.broken
      ensures next == Dead && old(next) != Dead && failed ==> sink != null && sink.broken
    {
      eaten := 0;
      assert data[..0] == [] && Consumed() + [] == Consumed() && data[..|data|] == data;
      if next == Dead {
        return -1, 0;
      }
      hide *;
      if zeroCopy {
        n := ProcessInPlace(data);
        return n, |data|;
      }
      n, eaten := ProcessCopied(data);
    }

    /** Copy bytes to where they belong, running the steps that become due. */
    method ProcessCopied(data: seq<Byte>) returns (n: int, ghost eaten: nat)
      requires Valid() && next != Dead
      modifies this`got, this`toRead, this`next, this`size, this`more, this`before, this`frame, this`pushed, this`failed, sink
      ensures Valid() && eaten <= |data| && Consumed() == old(Consumed()) + data[..eaten]
      ensures n == if next == Dead then -1 else eaten
      ensures 0 <= n < |data| ==> Waiting()
      ensures n == |data| ==> toRead > 0 || Waiting()
      ensures n != -1 && Waiting() && sink != null ==> sink.room == 0 && !sink.broken
      ensures failed ==> sink != null && sink.broken
    {
      eaten := 0;
      assert data[..0] == [] && Consumed() + [] == Consumed() && data[..|data|] == data;
      var pos := 0;
      hide *;
      while true
        invariant Valid() && next != Dead && pos == eaten <= |data|
        invariant Consumed() == old(Consumed()) + data[..pos]
        invariant pos > 0 || toRead == old(toRead)
        decreases |data| - pos
      {
        var ok := RunSteps();
        if !ok {
          return if next == Dead then -1 else pos, eaten;
        }
        if pos == |data| {
          return pos, eaten;
        }
        var m := if toRead < |data| - pos then toRead else |data| - pos;
        assert data[..pos] + data[pos..pos + m] == data[..pos + m];
        Regroup(old(Consumed()), data[..pos], data[pos..pos + m]);
        Take(data[pos..pos + m]);
        pos := pos + m;
        eaten := pos;
      }
    }

    /** All bytes were fed but the sink does not take the message. */
    method Stalled() returns (yes: bool)
      requires Valid()
      modifies this`got, this`toRead, this`next, this`size, this`more, this`before, this`frame, this`pushed, this`failed, sink
      ensures Valid() && Consumed() == old(Consumed())
      ensures yes <==> Waiting()
      ensures next == Dead || Waiting() || toRead > 0
      ensures yes && sink != null ==> sink.room == 0 && !sink.broken
    {
      if next == Dead {
        return false;
      }
      var ok := RunSteps();
      yes := !ok && next != Dead;
    }
  }

  /** What a decoder at rest has delivered and what it holds back are what its bytes mean; it is dead exactly
      because of what it read, or because the sink failed. */
  lemma DeliversMeaning(d: Decoder)
    requires d.Valid() && (d.next == Dead || d.Waiting() || d.toRead > 0)
    ensures var m := Decoded(d.c, d.Consumed());
            && (d.next != Dead ==> !m.bad)
            && (d.next == Dead && !d.failed ==> m.bad && m.msgs == d.pushed)
            && (d.toRead > 0 && d.next != Dead ==> m.msgs == d.pushed)
            && (d.Waiting() ==> |d.got| + 1 < TWO_64 && m.msgs == d.pushed + [Msg(d.got, d.more)])
            && (d.failed ==> !m.bad && |m.msgs| == |d.pushed| + 1 && d.pushed <= m.msgs)
  {
    InFrame(d.c, d.before, d.frame, d.pushed);
    hide Decoded;
    if d.next != Dead && d.toRead > 0 {
      Unfinished(d.c, d.next, d.frame, d.got, d.toRead, d.size, d.more);
    }
    if d.Waiting() {
      Finished(d.c, d.frame, d.got, d.size, d.more);
    }
  }
}
