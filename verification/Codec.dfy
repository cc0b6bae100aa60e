/** An encoder and a decoder joined by a stream of bytes. */
module Codec {
  import opened Framing
  import opened Encoder
  import opened Decoder

  /** Whatever the sizes of the buffers on either side, whenever the sink refuses: if the decoder has been
      fed any part of what the encoder has handed out, in any pieces, then it has delivered the beginning of
      what the encoder has pulled, and nothing else; it has not failed unless its sink has. Once everything
      is through, it has delivered everything. */
  lemma RoundTrip(e: Encoder, d: Decoder)
    requires e.Valid() && d.Valid() && e.proto == d.c.proto
    requires d.next == Dead || d.Waiting() || d.toRead > 0
    requires AllAccepted(d.c, e.pulled)
    requires d.Consumed() <= e.out
    ensures d.pushed <= e.pulled
    ensures d.next == Dead ==> d.failed
    ensures d.next != Dead && d.Consumed() == e.out && e.Idle() ==>
              e.pulled == d.pushed + if d.Waiting() then [Msg(d.got, d.more)] else []
  {
    var ms := e.pulled;
    assert EncodedAll(e.proto, ms) == e.out + e.Pending();
    DeliversMeaning(d);
    PrefixDecodes(d.c, ms, d.Consumed());
    if d.Consumed() == e.out && e.Idle() {
      DecodedEncoded(d.c, ms);
      assert e.out + [] == e.out;
    }
    hide Decoded, EncodedAll;
  }
}
