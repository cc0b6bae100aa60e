/** The encoders of both framings: `encoder_base_t` with the steps of `encoder_t` and `v1_encoder_t`. */
module Encoder {
  import opened Options
  import opened Bytes
  import opened Wire
  import opened Framing

  /** Where the encoder gets its messages; an empty queue answers EAGAIN. */
  class Source {
    var queue: seq<Msg>

    constructor (queue: seq<Msg>)
      ensures this.queue == queue
    {
      this.queue := queue;
    }

    method PullMsg() returns (msg: Option<Msg>)
      modifies this
      ensures msg.None? <==> old(queue) == []
      ensures msg.None? ==> queue == old(queue)
      ensures msg.Some? ==> old(queue) == [msg.value] + queue
    {
      if |queue| == 0 {
        return None;
      }
      msg := Some(queue[0]);
      queue := queue[1..];
    }
  }

  datatype Step = MessageReady | SizeReady

  class Encoder {
    const proto: Proto
    const bufsize: nat
    var source: Source?
    var next: Step
    /** The bytes from `write_pos` on that are to be written before the next step. */
    var toWrite: seq<Byte>
    var inProgress: Msg
    /** Everything handed out, and every message pulled, since the beginning. */
    ghost var out: seq<Byte>
    ghost var pulled: seq<Msg>

    /** What is still to be handed out of the messages pulled. */
    ghost function Pending(): seq<Byte>
      reads this
    {
      toWrite + if next == SizeReady then inProgress.body else []
    }

    /** The bytes handed out are the encoding of the messages pulled, but for what is pending. */
    ghost predicate Valid()
      reads this
    {
      EncodedAll(proto, pulled) == out + Pending()
    }

    /** Every message pulled or still to be pulled. */
    ghost function All(): seq<Msg>
      reads this, source
    {
      pulled + if source == null then [] else source.queue
    }

    /** There is nothing to hand out and nothing to pull. */
    predicate Idle()
      reads this, source
    {
      toWrite == [] && next == MessageReady && (source == null || source.queue == [])
    }

    constructor (proto: Proto, bufsize: nat)
      ensures Valid() && out == [] && pulled == [] && source == null
      ensures this.proto == proto && this.bufsize == bufsize
    {
      this.proto, this.bufsize, source := proto, bufsize, null;
      next, toWrite, inProgress := MessageReady, [], Msg([], false);
      out, pulled := [], [];
    }

    /** Schedule the body. */
    method BodyStep()
      requires Valid() && next == SizeReady && toWrite == []
      modifies this`next, this`toWrite
      ensures Valid() && next == MessageReady
    {
      toWrite := inProgress.body;
      next := MessageReady;
    }

    /** Pull a message and schedule its header. */
    method HeaderStep() returns (ok: bool)
      requires Valid() && next == MessageReady && toWrite == []
      modifies this`next, this`toWrite, this`inProgress, this`pulled, source
      ensures Valid() && All() == old(All())
      ensures !ok ==> Idle()
      ensures ok ==> next == SizeReady && toWrite != [] && source != null && |source.queue| < |old(source.queue)|
    {
      hide EncodedAll, Encoded;
      if source == null {
        inProgress := Msg([], false);
        return false;
      }
      ghost var given := source.queue;
      var m := source.PullMsg();
      if m.None? {
        inProgress := Msg([], false);
        return false;
      }
      EncodedAppend(proto, pulled, m.value);
      assert out + Pending() == out;
      inProgress := m.value;
      pulled := pulled + [inProgress];
      assert pulled + source.queue == old(pulled) + given;
      Schedule();
      ok := true;
    }

    /** Write the header of the message in progress. */
    method Schedule()
      requires EncodedAll(proto, pulled) == out + Encoded(proto, inProgress)
      modifies this`next, this`toWrite
      ensures Valid() && next == SizeReady && toWrite != []
    {
      hide EncodedAll, Header;
      if proto == Unversioned {
        UnversionedHeader();
      } else {
        V1Header();
      }
      next := SizeReady;
    }

    /** The rest of `message_ready` in `encoder_t`. */
    method UnversionedHeader()
      requires proto == Unversioned
      modifies this`toWrite
      ensures toWrite == Header(proto, inProgress) && |toWrite| == if |inProgress.body| < 254 then 2 else 10
      ensures toWrite[|toWrite| - 1] == if inProgress.more then 1 else 0
    {
      UnversionedHeaderIs(inProgress);
      // The size counts the flags byte.
      var size := |inProgress.body| + 1;
      var flags: Byte := if inProgress.more then 1 else 0;
      if size < 255 {
        toWrite := [size, flags];
      } else {
        toWrite := [255] + PutUint64(size) + [flags];
      }
    }

    /** The rest of `message_ready` in `v1_encoder_t`. */
    method V1Header()
      requires proto == V1
      modifies this`toWrite
      ensures toWrite == Header(proto, inProgress) && |toWrite| == if |inProgress.body| <= 255 then 2 else 9
      ensures toWrite[0] == (if inProgress.more then 1 else 0) + if |inProgress.body| > 255 then 2 else 0
    {
      V1HeaderIs(inProgress);
      var flags: Byte := 0;
      if inProgress.more {
        flags := flags + 1;
      }
      if |inProgress.body| > 255 {
        flags := flags + 2;
      }
      var size := |inProgress.body|;
      if size > 255 {
        toWrite := [flags] + PutUint64(size);
      } else {
        toWrite := [flags, size];
      }
    }

    /** The next `n` bytes from `write_pos` on. */
    method HandOut(n: nat) returns (data: seq<Byte>)
      requires Valid() && n <= |toWrite|
      modifies this`toWrite, this`out
      ensures Valid() && data == old(toWrite)[..n]
      ensures out == old(out) + data && toWrite == old(toWrite)[n..]
    {
      hide EncodedAll;
      data := toWrite[..n];
      assert toWrite == data + toWrite[n..];
      out := out + data;
      toWrite := toWrite[n..];
    }

    /** Fill the caller's buffer of the given size, or the encoder's own. A part that fills the encoder's own
        buffer is handed out where it is. */
    method GetData(size: Option<nat>) returns (data: seq<Byte>)
      requires Valid()
      modifies this`next, this`toWrite, this`inProgress, this`pulled, this`out, source
      ensures Valid() && source == old(source)
      ensures out == old(out) + data
      ensures All() == old(All())
      ensures size.Some? ==> |data| <= size.value
      ensures |data| < size.GetOr(bufsize) ==> Idle()
    {
      var buffersize := size.GetOr(bufsize);
      data := [];
      hide EncodedAll;
      while |data| < buffersize
        invariant Valid() && source == old(source)
        invariant out == old(out) + data && |data| <= buffersize
        invariant All() == old(All())
        decreases buffersize - |data|, if source == null then 0 else |source.queue|, if next == SizeReady then 1 else 0
      {
        if |toWrite| == 0 {
          if next == SizeReady {
            BodyStep();
          } else {
            var ok := HeaderStep();
            if !ok {
              break;
            }
          }
        }
        if |data| == 0 && size.None? && |toWrite| >= buffersize {
          data := HandOut(|toWrite|);
          return;
        }
        var n := if |toWrite| < buffersize - |data| then |toWrite| else buffersize - |data|;
        var more := HandOut(n);
        data := data + more;
      }
    }
  }
}
