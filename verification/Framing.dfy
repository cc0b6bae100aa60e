/** The two framings of the wire protocol: what a sequence of messages looks like as bytes, and what bytes mean
    as messages. */
module Framing {
  import opened Bytes
  import opened Wire

  /** The size of a message fits a machine word together with the flags byte. */
  type Body = s: seq<Byte> | |s| + 1 < TWO_64

  datatype Msg = Msg(body: Body, more: bool)

  /** ZMTP 1.0, which has no version number, and ZMTP 2.0, which calls itself version 1. */
  datatype Proto = Unversioned | V1

  /** A negative `maxsize` stands for no limit; larger messages than `memory` cannot be allocated. `memory` also
      stands for the sizes next to 2 to the 64, which have no room for the header of a content. */
  datatype Config = Config(proto: Proto, maxsize: int, memory: nat)

  predicate Accepts(c: Config, size: nat) {
    (c.maxsize >= 0 ==> size <= c.maxsize) && size <= c.memory && size + 1 < TWO_64
  }

  function MoreFlag(m: Msg): Byte {
    if m.more then 1 else 0
  }

  // ----- encoding

  /** What is written before the body. */
  function Header(p: Proto, m: Msg): seq<Byte> {
    var size := |m.body|;
    match p
    case Unversioned =>
      if size + 1 < 255 then [size + 1, MoreFlag(m)] else [255] + PutUint64(size + 1) + [MoreFlag(m)]
    case V1 =>
      if size > 255 then [MoreFlag(m) + 2] + PutUint64(size) else [MoreFlag(m), size]
  }

  function Encoded(p: Proto, m: Msg): seq<Byte> {
    Header(p, m) + m.body
  }

  function EncodedAll(p: Proto, ms: seq<Msg>): seq<Byte> {
    if ms == [] then [] else EncodedAll(p, ms[..|ms| - 1]) + Encoded(p, ms[|ms| - 1])
  }

  // ----- decoding

  /** What the beginning of a frame says: the length of the header, the size of the body and where the flags
      are. */
  datatype Head = Unknown | Refused | Head(len: nat, size: nat, flags: nat)

  function Sized(c: Config, len: nat, size: nat, flags: nat): Head {
    if Accepts(c, size) then Head(len, size, flags) else Refused
  }

  function HeadOf(c: Config, s: seq<Byte>): (h: Head)
    ensures h.Head? ==> h.flags < h.len && 0 < h.len && Accepts(c, h.size)
  {
    match c.proto
    case Unversioned =>
      if |s| < 1 then Unknown
      else if s[0] < 255 then if s[0] == 0 then Refused else Sized(c, 2, s[0] - 1, 1)
      else if |s| < 9 then Unknown
      else
        var n := GetUint64(s[1..9]);
        if n == 0 then Refused else Sized(c, 10, n - 1, 9)
    case V1 =>
      if |s| < 1 then Unknown
      else if s[0] / 2 % 2 == 0 then if |s| < 2 then Unknown else Sized(c, 2, s[1], 0)
      else if |s| < 9 then Unknown
      else Sized(c, 9, GetUint64(s[1..9]), 0)
  }

  datatype Frame = Short | Bad | Frame(msg: Msg, len: nat)

  /** The first frame of a stream. */
  function FirstFrame(c: Config, s: seq<Byte>): (f: Frame)
    ensures f.Frame? ==> 0 < f.len <= |s|
  {
    match HeadOf(c, s)
    case Unknown => Short
    case Refused => Bad
    case Head(len, size, flags) =>
      if |s| < len + size then Short else Frame(Msg(s[len..len + size], s[flags] % 2 == 1), len + size)
  }

  /** What a stream means: the messages it holds, and whether an error or an unfinished frame follows. */
  datatype Meaning = Meaning(msgs: seq<Msg>, bad: bool, rest: seq<Byte>)

  function Decoded(c: Config, s: seq<Byte>): Meaning
    decreases |s|
  {
    match FirstFrame(c, s)
    case Short => Meaning([], false, s)
    case Bad => Meaning([], true, s)
    case Frame(m, len) => var d := Decoded(c, s[len..]); d.(msgs := [m] + d.msgs)
  }

  // ----- more bytes

  lemma HeadStable(c: Config, s: seq<Byte>, t: seq<Byte>)
    requires !HeadOf(c, s).Unknown?
    ensures HeadOf(c, s + t) == HeadOf(c, s)
  {
    if |s| >= 9 {
      assert (s + t)[1..9] == s[1..9];
    }
  }

  lemma FrameStable(c: Config, s: seq<Byte>, t: seq<Byte>)
    requires !FirstFrame(c, s).Short?
    ensures FirstFrame(c, s + t) == FirstFrame(c, s)
  {
    HeadStable(c, s, t);
    var h := HeadOf(c, s);
    if h.Head? {
      assert (s + t)[h.len..h.len + h.size] == s[h.len..h.len + h.size];
    }
    hide HeadOf;
  }

  /** Decoding goes on where it stopped. */
  lemma {:induction false} DecodedAppend(c: Config, s: seq<Byte>, t: seq<Byte>)
    ensures var d := Decoded(c, s);
            if d.bad then Decoded(c, s + t) == d.(rest := d.rest + t)
            else var e := Decoded(c, d.rest + t); Decoded(c, s + t) == e.(msgs := d.msgs + e.msgs)
    decreases |s|
  {
    DecodedStep(c, s);
    DecodedStep(c, s + t);
    hide Decoded;
    match FirstFrame(c, s)
    case Short =>
      assert [] + Decoded(c, s + t).msgs == Decoded(c, s + t).msgs;
    case Bad =>
      FrameStable(c, s, t);
    case Frame(m, len) =>
      FrameStable(c, s, t);
      DecodedAppend(c, s[len..], t);
      assert (s + t)[len..] == s[len..] + t;
      hide FirstFrame;
      var d := Decoded(c, s[len..]);
      if !d.bad {
        var e := Decoded(c, d.rest + t);
        assert [m] + (d.msgs + e.msgs) == [m] + d.msgs + e.msgs;
      }
  }

  lemma DecodedStep(c: Config, s: seq<Byte>)
    ensures var f := FirstFrame(c, s);
            && (!f.Frame? ==> Decoded(c, s) == Meaning([], f.Bad?, s))
            && (f.Frame? ==>
                  var d := Decoded(c, s[f.len..]);
                  Decoded(c, s) == d.(msgs := [f.msg] + d.msgs))
  {
    hide FirstFrame;
  }

  // ----- round trip

  /** The first frame of an encoded message is the message. */
  lemma FrameOfEncoded(c: Config, m: Msg, t: seq<Byte>)
    requires Accepts(c, |m.body|)
    ensures FirstFrame(c, Encoded(c.proto, m) + t) == Frame(m, |Encoded(c.proto, m)|)
  {
    var size := |m.body|;
    var h := Header(c.proto, m);
    var s := Encoded(c.proto, m) + t;
    HeadOfHeader(c, m);
    HeadStable(c, h, m.body + t);
    assert h + (m.body + t) == s;
    assert s[|h|..|h| + size] == m.body;
    hide HeadOf, Header;
  }

  /** A message whose header is complete is refused exactly when its body is larger than the limit, if there is one, or
      than the memory. */
  lemma RefusedExactly(c: Config, m: Msg, t: seq<Byte>)
    ensures FirstFrame(c, Encoded(c.proto, m) + t).Bad? <==>
              (c.maxsize >= 0 && |m.body| > c.maxsize) || |m.body| > c.memory
  {
    if Accepts(c, |m.body|) {
      FrameOfEncoded(c, m, t);
    } else {
      var h := Header(c.proto, m);
      HeaderRefused(c, m);
      HeadStable(c, h, m.body + t);
      assert h + (m.body + t) == Encoded(c.proto, m) + t;
      hide HeadOf, Header;
    }
  }

  lemma HeaderRefused(c: Config, m: Msg)
    requires !Accepts(c, |m.body|)
    ensures HeadOf(c, Header(c.proto, m)) == Refused
  {
    var size, h := |m.body|, Header(c.proto, m);
    if c.proto == Unversioned && size + 1 >= 255 {
      LongHeader(h, 255, size + 1, [MoreFlag(m)]);
      hide PutUint64, GetUint64;
    }
    if c.proto == V1 && size > 255 {
      assert h == [MoreFlag(m) + 2] + PutUint64(size) + [];
      LongHeader(h, MoreFlag(m) + 2, size, []);
      hide PutUint64, GetUint64;
    }
  }

  /** The size of the unversioned framing counts the flags byte, so zero is refused in both forms. */
  lemma ZeroIsRefused(c: Config, t: seq<Byte>)
    requires c.proto == Unversioned
    ensures FirstFrame(c, [0] + t).Bad?
    ensures FirstFrame(c, [255, 0, 0, 0, 0, 0, 0, 0, 0] + t).Bad?
  {
    var s := [255, 0, 0, 0, 0, 0, 0, 0, 0] + t;
    assert s[1..9] == [0, 0, 0, 0, 0, 0, 0, 0];
  }

  lemma HeadOfHeader(c: Config, m: Msg)
    requires Accepts(c, |m.body|)
    ensures var h := Header(c.proto, m);
            && HeadOf(c, h).Head? && HeadOf(c, h).len == |h| && HeadOf(c, h).size == |m.body|
            && (h[HeadOf(c, h).flags] % 2 == 1 <==> m.more)
  {
    if c.proto == Unversioned {
      HeadOfUnversioned(c, m);
    } else {
      HeadOfV1(c, m);
    }
  }

  lemma HeadOfUnversioned(c: Config, m: Msg)
    requires Accepts(c, |m.body|) && c.proto == Unversioned
    ensures var h := Header(Unversioned, m);
            && HeadOf(c, h) == Head(|h|, |m.body|, |h| - 1)
            && (h[|h| - 1] % 2 == 1 <==> m.more)
  {
    var size, h := |m.body|, Header(Unversioned, m);
    if size + 1 >= 255 {
      LongHeader(h, 255, size + 1, [MoreFlag(m)]);
      hide PutUint64, GetUint64;
      assert h[9..][0] == h[9];
    }
  }

  lemma HeadOfV1(c: Config, m: Msg)
    requires Accepts(c, |m.body|) && c.proto == V1
    ensures var h := Header(V1, m);
            && HeadOf(c, h) == Head(|h|, |m.body|, 0)
            && (h[0] % 2 == 1 <==> m.more)
  {
    var size, h := |m.body|, Header(V1, m);
    if size > 255 {
      assert h == [MoreFlag(m) + 2] + PutUint64(size) + [];
      LongHeader(h, MoreFlag(m) + 2, size, []);
      hide PutUint64, GetUint64;
    }
  }

  lemma LongHeader(h: seq<Byte>, first: Byte, n: nat, last: seq<Byte>)
    requires n < TWO_64 && h == [first] + PutUint64(n) + last
    ensures |h| == 9 + |last| && h[0] == first && h[9..] == last
    ensures GetUint64(h[1..9]) == n
  {
    RoundTrip(n);
    hide PutUint64, GetUint64;
    assert h[1..9] == PutUint64(n);
  }

  /** The header of the unversioned framing: two bytes for a body of less than 254 bytes, ten for a longer one. The last
      byte is 1 or 0. */
  lemma UnversionedHeaderIs(m: Msg)
    ensures var h, n := Header(Unversioned, m), |m.body| + 1;
            && |h| == (if |m.body| < 254 then 2 else 10)
            && h[|h| - 1] == (if m.more then 1 else 0)
            && (|h| == 2 ==> h[0] == n)
            && (|h| == 10 ==> h[0] == 255 && GetUint64(h[1..9]) == n)
            && Encoded(Unversioned, m)[|h|..] == m.body
  {
    var size, h := |m.body|, Header(Unversioned, m);
    if size + 1 >= 255 {
      LongHeader(h, 255, size + 1, [MoreFlag(m)]);
      hide PutUint64, GetUint64;
      assert h[9..][0] == h[9];
    }
  }

  /** The header of version 1: two bytes for a body of at most 255 bytes, nine for a longer one. The first byte has bit 0
      for `more`, bit 1 for a long size, and no other. */
  lemma V1HeaderIs(m: Msg)
    ensures var h := Header(V1, m);
            && |h| == (if |m.body| <= 255 then 2 else 9)
            && h[0] == (if m.more then 1 else 0) + (if |m.body| > 255 then 2 else 0)
            && (|h| == 2 ==> h[1] == |m.body|)
            && (|h| == 9 ==> GetUint64(h[1..9]) == |m.body|)
            && Encoded(V1, m)[|h|..] == m.body
  {
    var size, h := |m.body|, Header(V1, m);
    if size > 255 {
      assert h == [MoreFlag(m) + 2] + PutUint64(size) + [];
      LongHeader(h, MoreFlag(m) + 2, size, []);
      hide PutUint64, GetUint64;
    }
  }

  ghost predicate AllAccepted(c: Config, ms: seq<Msg>) {
    forall m :: m in ms ==> Accepts(c, |m.body|)
  }

  /** Decoding what was encoded gives the messages back, with nothing left. */
  lemma {:induction false} DecodedEncoded(c: Config, ms: seq<Msg>)
    requires AllAccepted(c, ms)
    ensures Decoded(c, EncodedAll(c.proto, ms)) == Meaning(ms, false, [])
  {
    hide Decoded, Encoded, Header;
    if ms == [] {
      DecodedNothing(c);
    } else {
      var init, m := ms[..|ms| - 1], ms[|ms| - 1];
      DecodedEncoded(c, init);
      DecodedOne(c, m);
      var b, f := EncodedAll(c.proto, init), Encoded(c.proto, m);
      assert EncodedAll(c.proto, ms) == b + f;
      assert ms == init + [m];
      DecodedTwo(c, b, f, init, [m]);
      hide *;
    }
  }

  lemma DecodedTwo(c: Config, b: seq<Byte>, f: seq<Byte>, ms: seq<Msg>, ns: seq<Msg>)
    requires Decoded(c, b) == Meaning(ms, false, []) && Decoded(c, f) == Meaning(ns, false, [])
    ensures Decoded(c, b + f) == Meaning(ms + ns, false, [])
  {
    hide *;
    DecodedAppend(c, b, f);
    var d := Decoded(c, b);
    assert d.rest + f == f;
  }

  lemma EncodedAppend(p: Proto, ms: seq<Msg>, m: Msg)
    ensures EncodedAll(p, ms + [m]) == EncodedAll(p, ms) + Encoded(p, m)
  {
    assert (ms + [m])[..|ms|] == ms;
    hide Encoded;
  }

  lemma DecodedOne(c: Config, m: Msg)
    requires Accepts(c, |m.body|)
    ensures Decoded(c, Encoded(c.proto, m)) == Meaning([m], false, [])
  {
    var f := Encoded(c.proto, m);
    FrameOfEncoded(c, m, []);
    assert f + [] == f && f[|f|..] == [];
    DecodedNothing(c);
    assert [m] + [] == [m];
    hide FirstFrame, Encoded;
  }

  lemma DecodedNothing(c: Config)
    ensures Decoded(c, []) == Meaning([], false, [])
  {
  }

  /** Any prefix of the encoding of acceptable messages is decoded to a prefix of the messages, without
      error. */
  lemma PrefixDecodes(c: Config, ms: seq<Msg>, s: seq<Byte>)
    requires AllAccepted(c, ms) && s <= EncodedAll(c.proto, ms)
    ensures !Decoded(c, s).bad && Decoded(c, s).msgs <= ms
  {
    var b := EncodedAll(c.proto, ms);
    DecodedEncoded(c, ms);
    DecodedAppend(c, s, b[|s|..]);
    assert s + b[|s|..] == b;
  }
}
