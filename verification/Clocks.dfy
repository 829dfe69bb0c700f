/** Time stamps carried by the transport stream: the presentation time stamp of a PES header
    (ISO/IEC 13818-1, section 2.4.3.7) and the program clock reference of an adaptation field
    (section 2.4.3.5). */
module Clocks {

  type Byte = bv8

  function Join(acc: bv64, b: Byte): bv64 { (acc << 8) | (b as bv64) }

  /** The bytes as one big-endian number, appended to `acc`. */
  function BigEndian(acc: bv64, s: seq<Byte>): bv64
    decreases s
  {
    if s == [] then acc else BigEndian(Join(acc, s[0]), s[1..])
  }

  /** The decoder's reading of the five-byte field: three runs of bits between marker bits. */
  function PtsBits(pts: bv64): bv64 {
    ((pts & (0x0007 << 33)) >> 3) | ((pts & (0x7fff << 17)) >> 2) | ((pts & (0x7fff << 1)) >> 1)
  }

  function PtsMs(s: seq<Byte>): nat
    requires |s| == 5
  {
    (PtsBits(BigEndian(0, s)) as nat) / 90
  }

  /** The standard's layout: a four-bit prefix and three marker bits around the 33 bits. */
  function EncodePts(v: bv64, prefix: Byte, m1: Byte, m2: Byte, m3: Byte): (s: seq<Byte>)
    ensures |s| == 5
  {
    [((prefix & 0x0F) << 4) | ((((v >> 30) & 0x07) as Byte) << 1) | (m1 & 1),
     ((v >> 22) & 0xFF) as Byte,
     ((((v >> 15) & 0x7F) as Byte) << 1) | (m2 & 1),
     ((v >> 7) & 0xFF) as Byte,
     (((v & 0x7F) as Byte) << 1) | (m3 & 1)]
  }

  lemma BigEndianUnfold(acc: bv64, s: seq<Byte>, k: nat)
    requires k < |s|
    ensures BigEndian(acc, s[k..]) == BigEndian(Join(acc, s[k]), s[k+1..])
  {
    assert s[k..][1..] == s[k+1..];
  }

  lemma BigEndian5(s: seq<Byte>)
    requires |s| == 5
    ensures BigEndian(0, s) == Join(Join(Join(Join(Join(0, s[0]), s[1]), s[2]), s[3]), s[4])
  {
    hide Join;
    assert s[0..] == s && s[|s|..] == [];
    BigEndianUnfold(0, s, 0);
    BigEndianUnfold(Join(0, s[0]), s, 1);
    BigEndianUnfold(Join(Join(0, s[0]), s[1]), s, 2);
    BigEndianUnfold(Join(Join(Join(0, s[0]), s[1]), s[2]), s, 3);
    BigEndianUnfold(Join(Join(Join(Join(0, s[0]), s[1]), s[2]), s[3]), s, 4);
  }

  /** Decoding inverts encoding for every 33-bit value, whatever the prefix and the marker bits. */
  lemma PtsRoundTrip(v: bv64, prefix: Byte, m1: Byte, m2: Byte, m3: Byte)
    requires v < 0x2_0000_0000
    ensures PtsBits(BigEndian(0, EncodePts(v, prefix, m1, m2, m3))) == v
  {
    BigEndian5(EncodePts(v, prefix, m1, m2, m3));
  }

  /** The demultiplexer's reading of the six-byte field: base above 6 reserved bits and 9 bits of extension. */
  function PcrBase(pcr: bv64): bv64 { pcr >> 15 }

  function PcrExt(pcr: bv64): bv64 { pcr & 0x1FF }

  function PcrMs(s: seq<Byte>): nat
    requires |s| == 6
  {
    var pcr := BigEndian(0, s);
    ((PcrBase(pcr) as nat) * 300 + (PcrExt(pcr) as nat)) / 27000
  }

  function EncodePcr(base: bv64, ext: bv64, reserved: Byte): (s: seq<Byte>)
    ensures |s| == 6
  {
    [((base >> 25) & 0xFF) as Byte,
     ((base >> 17) & 0xFF) as Byte,
     ((base >> 9) & 0xFF) as Byte,
     ((base >> 1) & 0xFF) as Byte,
     (((base & 1) as Byte) << 7) | ((reserved & 0x3F) << 1) | (((ext >> 8) & 1) as Byte),
     (ext & 0xFF) as Byte]
  }

  lemma BigEndian6(s: seq<Byte>)
    requires |s| == 6
    ensures BigEndian(0, s) == Join(Join(Join(Join(Join(Join(0, s[0]), s[1]), s[2]), s[3]), s[4]), s[5])
  {
    hide Join;
    assert s[0..] == s && s[|s|..] == [];
    BigEndianUnfold(0, s, 0);
    BigEndianUnfold(Join(0, s[0]), s, 1);
    BigEndianUnfold(Join(Join(0, s[0]), s[1]), s, 2);
    BigEndianUnfold(Join(Join(Join(0, s[0]), s[1]), s[2]), s, 3);
    BigEndianUnfold(Join(Join(Join(Join(0, s[0]), s[1]), s[2]), s[3]), s, 4);
    BigEndianUnfold(Join(Join(Join(Join(Join(0, s[0]), s[1]), s[2]), s[3]), s[4]), s, 5);
  }

  lemma PcrRoundTrip(base: bv64, ext: bv64, reserved: Byte)
    requires base < 0x2_0000_0000 && ext < 0x200
    ensures PcrBase(BigEndian(0, EncodePcr(base, ext, reserved))) == base
    ensures PcrExt(BigEndian(0, EncodePcr(base, ext, reserved))) == ext
  {
    BigEndian6(EncodePcr(base, ext, reserved));
  }

  /** A clock reference and a time stamp taken at the same 90 kHz tick read as the same millisecond,
      unless an extension beyond 299 carries into the next millisecond. */
  lemma ClocksAgree(base: bv64, ext: bv64, reserved: Byte, prefix: Byte, m1: Byte, m2: Byte, m3: Byte)
    requires base < 0x2_0000_0000 && ext < 0x200
    ensures PcrMs(EncodePcr(base, ext, reserved)) == PtsMs(EncodePts(base, prefix, m1, m2, m3))
       <==> ((ext as nat) < 300 || (base as nat) % 90 != 89)
  {
    hide PtsBits, PcrBase, PcrExt, BigEndian, EncodePcr, EncodePts;
    PtsRoundTrip(base, prefix, m1, m2, m3);
    PcrRoundTrip(base, ext, reserved);
    ScaleTo90(base as nat, ext as nat);
  }

  lemma ScaleTo90(base: nat, ext: nat)
    requires ext < 600
    ensures (base * 300 + ext) / 27000 == if ext < 300 then base / 90 else (base + 1) / 90
    ensures (base + 1) / 90 == base / 90 <==> base % 90 != 89
  {
    var q, r := base / 90, base % 90;
    assert base == 90 * q + r;
    assert base * 300 + ext == 27000 * q + (300 * r + ext);
    if ext < 300 {
      assert 300 * r + ext < 27000;
    } else if r < 89 {
      assert 300 * r + ext < 27000;
    } else {
      assert 27000 <= 300 * r + ext < 54000;
    }
  }
}
