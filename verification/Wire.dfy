/** Integers in network byte order. */
module Wire {
  import opened Bytes

  const TWO_64: nat := 0x1_0000_0000_0000_0000

  /** `put_uint64`: shifting right by 8 bits is dividing by 256. The bits above 64 are lost. */
  function PutUint64(v: nat): (s: seq<Byte>)
    ensures |s| == 8
  {
    var v1 := v / 256;
    var v2 := v1 / 256;
    var v3 := v2 / 256;
    var v4 := v3 / 256;
    var v5 := v4 / 256;
    var v6 := v5 / 256;
    var v7 := v6 / 256;
    [v7 % 256, v6 % 256, v5 % 256, v4 % 256, v3 % 256, v2 % 256, v1 % 256, v % 256]
  }

  function Power(k: nat): nat {
    if k == 0 then 1 else 256 * Power(k - 1)
  }

  lemma Powers()
    ensures Power(0) == 1 && Power(1) == 0x100 && Power(2) == 0x1_0000 && Power(3) == 0x100_0000
    ensures Power(4) == 0x1_0000_0000 && Power(5) == 0x100_0000_0000 && Power(6) == 0x1_0000_0000_0000
    ensures Power(7) == 0x100_0000_0000_0000
  {
    assert Power(1) == 256 * Power(0);
    assert Power(2) == 256 * Power(1);
    assert Power(3) == 256 * Power(2);
    assert Power(4) == 256 * Power(3);
    assert Power(5) == 256 * Power(4);
    assert Power(6) == 256 * Power(5);
  }

  lemma Quotients(v: nat)
    ensures v / 256 / 256 == v / 0x1_0000
    ensures v / 0x1_0000 / 256 == v / 0x100_0000
    ensures v / 0x100_0000 / 256 == v / 0x1_0000_0000
    ensures v / 0x1_0000_0000 / 256 == v / 0x100_0000_0000
    ensures v / 0x100_0000_0000 / 256 == v / 0x1_0000_0000_0000
    ensures v / 0x1_0000_0000_0000 / 256 == v / 0x100_0000_0000_0000
  {
  }

  /** The most significant byte comes first. */
  lemma BigEndian(v: nat, i: nat)
    requires i < 8
    ensures Power(7 - i) > 0 && PutUint64(v)[i] == v / Power(7 - i) % 256
  {
    Powers();
    Quotients(v);
    hide Power;
  }

  function Joined(high: nat, low: Byte): nat {
    high * 256 + low
  }

  /** `get_uint64`: the shifted bytes do not overlap, so joining them is adding. */
  function GetUint64(s: seq<Byte>): (v: nat)
    requires |s| == 8
    ensures v < TWO_64
  {
    Joined(Joined(Joined(Joined(Joined(Joined(Joined(s[0], s[1]), s[2]), s[3]), s[4]), s[5]), s[6]), s[7])
  }

  /** Reading back gives the value modulo 2 to the 64. */
  lemma RoundTrip(v: nat)
    ensures GetUint64(PutUint64(v)) == v % TWO_64
  {
    var v1 := v / 256;
    var v2 := v1 / 256;
    var v3 := v2 / 256;
    var v4 := v3 / 256;
    var v5 := v4 / 256;
    var v6 := v5 / 256;
    var v7 := v6 / 256;
    var s := PutUint64(v);
    assert GetUint64(s) == v - v7 / 256 * TWO_64;
    Remainder(v, v7 / 256, GetUint64(s));
  }

  lemma Remainder(v: nat, q: nat, r: nat)
    requires v == q * TWO_64 + r && r < TWO_64
    ensures v % TWO_64 == r
  {
  }

  lemma JoinedSplit(high: nat, low: Byte)
    ensures Joined(high, low) / 256 == high && Joined(high, low) % 256 == low
  {
  }

  /** A number that was read has the bytes that were read. */
  lemma PutGet(s: seq<Byte>)
    requires |s| == 8
    ensures PutUint64(GetUint64(s)) == s
  {
    var h1 := Joined(s[0], s[1]);
    var h2 := Joined(h1, s[2]);
    var h3 := Joined(h2, s[3]);
    var h4 := Joined(h3, s[4]);
    var h5 := Joined(h4, s[5]);
    var h6 := Joined(h5, s[6]);
    JoinedSplit(s[0], s[1]);
    JoinedSplit(h1, s[2]);
    JoinedSplit(h2, s[3]);
    JoinedSplit(h3, s[4]);
    JoinedSplit(h4, s[5]);
    JoinedSplit(h5, s[6]);
    JoinedSplit(h6, s[7]);
    hide Joined;
  }
}
