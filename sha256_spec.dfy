// SHA-256 as section 6.2 of FIPS 180-4 defines it: the functions of section 4.1.2, the
// constants of sections 4.2.2 and 5.3.3, the padding of section 5.1.1, the message schedule
// and compression of section 6.2.2. This is the reference both the browser hasher and the
// API's hashing of uploaded chunks are compared with.
module Sha256Spec {
  type Word = bv32
  newtype Byte = x: int | 0 <= x < 256

  /** Initial hash value (section 5.3.3). */
  const H0: seq<Word> := [
    0x6a09e667, 0xbb67ae85, 0x3c6ef372, 0xa54ff53a, 0x510e527f, 0x9b05688c, 0x1f83d9ab, 0x5be0cd19
  ]

  /** The round constant K[i] (section 4.2.2). */
  function K(i: nat): Word
    requires i < 64
  {
    match i
    case 0 => 0x428a2f98
    case 1 => 0x71374491
    case 2 => 0xb5c0fbcf
    case 3 => 0xe9b5dba5
    case 4 => 0x3956c25b
    case 5 => 0x59f111f1
    case 6 => 0x923f82a4
    case 7 => 0xab1c5ed5
    case 8 => 0xd807aa98
    case 9 => 0x12835b01
    case 10 => 0x243185be
    case 11 => 0x550c7dc3
    case 12 => 0x72be5d74
    case 13 => 0x80deb1fe
    case 14 => 0x9bdc06a7
    case 15 => 0xc19bf174
    case 16 => 0xe49b69c1
    case 17 => 0xefbe4786
    case 18 => 0x0fc19dc6
    case 19 => 0x240ca1cc
    case 20 => 0x2de92c6f
    case 21 => 0x4a7484aa
    case 22 => 0x5cb0a9dc
    case 23 => 0x76f988da
    case 24 => 0x983e5152
    case 25 => 0xa831c66d
    case 26 => 0xb00327c8
    case 27 => 0xbf597fc7
    case 28 => 0xc6e00bf3
    case 29 => 0xd5a79147
    case 30 => 0x06ca6351
    case 31 => 0x14292967
    case 32 => 0x27b70a85
    case 33 => 0x2e1b2138
    case 34 => 0x4d2c6dfc
    case 35 => 0x53380d13
    case 36 => 0x650a7354
    case 37 => 0x766a0abb
    case 38 => 0x81c2c92e
    case 39 => 0x92722c85
    case 40 => 0xa2bfe8a1
    case 41 => 0xa81a664b
    case 42 => 0xc24b8b70
    case 43 => 0xc76c51a3
    case 44 => 0xd192e819
    case 45 => 0xd6990624
    case 46 => 0xf40e3585
    case 47 => 0x106aa070
    case 48 => 0x19a4c116
    case 49 => 0x1e376c08
    case 50 => 0x2748774c
    case 51 => 0x34b0bcb5
    case 52 => 0x391c0cb3
    case 53 => 0x4ed8aa4a
    case 54 => 0x5b9cca4f
    case 55 => 0x682e6ff3
    case 56 => 0x748f82ee
    case 57 => 0x78a5636f
    case 58 => 0x84c87814
    case 59 => 0x8cc70208
    case 60 => 0x90befffa
    case 61 => 0xa4506ceb
    case 62 => 0xbef9a3f7
    case 63 => 0xc67178f2
  }

  /** Addition modulo 2^32 (section 2.2.2). */
  function Add(x: Word, y: Word): Word { x + y }

  // Section 4.1.2.
  function Ch(x: Word, y: Word, z: Word): Word { (x & y) ^ (!x & z) }
  function Maj(x: Word, y: Word, z: Word): Word { (x & y) ^ (x & z) ^ (y & z) }
  function BigSigma0(x: Word): Word { x.RotateRight(2) ^ x.RotateRight(13) ^ x.RotateRight(22) }
  function BigSigma1(x: Word): Word { x.RotateRight(6) ^ x.RotateRight(11) ^ x.RotateRight(25) }
  function SmallSigma0(x: Word): Word { x.RotateRight(7) ^ x.RotateRight(18) ^ (x >> 3) }
  function SmallSigma1(x: Word): Word { x.RotateRight(17) ^ x.RotateRight(19) ^ (x >> 10) }

  /** The i-th 32-bit big-endian word of a block. */
  function WordAt(block: seq<Byte>, i: nat): Word
    requires 4 * i + 4 <= |block|
  {
    (block[4 * i] as Word << 24) | (block[4 * i + 1] as Word << 16)
    | (block[4 * i + 2] as Word << 8) | (block[4 * i + 3] as Word)
  }

  function MessageWords(block: seq<Byte>): (m: seq<Word>)
    requires |block| == 64
    ensures |m| == 16 && forall i :: 0 <= i < 16 ==> m[i] == WordAt(block, i)
  {
    seq(16, i requires 0 <= i < 16 => WordAt(block, i))
  }

  /**
   * Step 1 of section 6.2.2 for t >= 16: W[t] from W[t-2], W[t-7], W[t-15] and W[t-16]. The four
   * terms are added in the order W[t-7], sigma0(W[t-15]), W[t-16], sigma1(W[t-2]), which is the
   * order the browser's hasher adds them in; the sum modulo 2^32 does not depend on the order.
   */
  function ScheduleNext(w2: Word, w7: Word, w15: Word, w16: Word): Word
  {
    Add(Add(Add(w7, SmallSigma0(w15)), w16), SmallSigma1(w2))
  }

  /** Word t of the message schedule W (section 6.2.2, step 1). */
  function ScheduleWord(m: seq<Word>, t: nat): Word
    requires |m| == 16 && t < 64
    decreases t
  {
    if t < 16 then m[t]
    else ScheduleNext(ScheduleWord(m, t - 2), ScheduleWord(m, t - 7), ScheduleWord(m, t - 15), ScheduleWord(m, t - 16))
  }

  /** The eight working variables a..h. */
  datatype State = State(a: Word, b: Word, c: Word, d: Word, e: Word, f: Word, g: Word, h: Word)

  function ToState(hv: seq<Word>): State
    requires |hv| == 8
  {
    State(hv[0], hv[1], hv[2], hv[3], hv[4], hv[5], hv[6], hv[7])
  }

  /** The temporary words T1 and T2 of step 3 of section 6.2.2. */
  function T1(s: State, k: Word, w: Word): Word
  {
    Add(Add(Add(Add(s.h, BigSigma1(s.e)), Ch(s.e, s.f, s.g)), k), w)
  }

  function T2(s: State): Word
  {
    Add(BigSigma0(s.a), Maj(s.a, s.b, s.c))
  }

  /** One round of step 3 of section 6.2.2. */
  function Round(s: State, k: Word, w: Word): State
  {
    State(Add(T1(s, k, w), T2(s)), s.a, s.b, s.c, Add(s.d, T1(s, k, w)), s.e, s.f, s.g)
  }

  /** The working variables after the first t rounds. */
  function Rounds(s: State, m: seq<Word>, t: nat): State
    requires |m| == 16 && t <= 64
  {
    if t == 0 then s else Round(Rounds(s, m, t - 1), K(t - 1), ScheduleWord(m, t - 1))
  }

  /** Step 4 of section 6.2.2: the working variables added into the hash value word by word. */
  function AddState(hv: seq<Word>, s: State): (r: seq<Word>)
    requires |hv| == 8
    ensures |r| == 8
  {
    [Add(hv[0], s.a), Add(hv[1], s.b), Add(hv[2], s.c), Add(hv[3], s.d),
     Add(hv[4], s.e), Add(hv[5], s.f), Add(hv[6], s.g), Add(hv[7], s.h)]
  }

  /** Compression of one 64-byte block into the intermediate hash value (step 4). */
  function Compress(hv: seq<Word>, block: seq<Byte>): (r: seq<Word>)
    requires |hv| == 8 && |block| == 64
    ensures |r| == 8
  {
    AddState(hv, Rounds(ToState(hv), MessageWords(block), 64))
  }

  /** The hash value after compressing every 64-byte block of m, first to last. */
  function HashBlocks(hv: seq<Word>, m: seq<Byte>): (r: seq<Word>)
    requires |hv| == 8 && |m| % 64 == 0
    ensures |r| == 8
    decreases |m|
  {
    if |m| == 0 then hv else Compress(HashBlocks(hv, m[..|m| - 64]), m[|m| - 64..])
  }

  /** Compressing one more block extends the prefix that has been hashed. */
  lemma HashBlocksSnoc(hv: seq<Word>, m: seq<Byte>, k: nat)
    requires |hv| == 8 && k % 64 == 0 && k + 64 <= |m|
    ensures HashBlocks(hv, m[..k + 64]) == Compress(HashBlocks(hv, m[..k]), m[k..k + 64])
  {
    var p := m[..k + 64];
    assert p[..|p| - 64] == m[..k];
    assert p[|p| - 64..] == m[k..k + 64];
  }

  function Zeros(n: nat): (z: seq<Byte>)
    ensures |z| == n && forall i :: 0 <= i < n ==> z[i] == 0
  {
    seq(n, _ => 0)
  }

  /** The low `count` bytes of n, most significant first. */
  function BigEndian(n: nat, count: nat): (r: seq<Byte>)
    ensures |r| == count
  {
    if count == 0 then [] else BigEndian(n / 256, count - 1) + [(n % 256) as Byte]
  }

  const TwoTo64: nat := 0x1_0000_0000_0000_0000

  /** Number of zero bytes the padding of section 5.1.1 puts between 0x80 and the length. */
  function PadZeros(length: nat): (k: nat)
    ensures (length + 1 + k + 8) % 64 == 0 && k < 64
  {
    (55 - length % 64) % 64
  }

  /** The message length in bits, as the 64-bit big-endian field ending the padding. */
  function LengthField(length: nat): (f: seq<Byte>)
    ensures |f| == 8
  {
    BigEndian((length * 8) % TwoTo64, 8)
  }

  /** Padding of section 5.1.1: a one bit, zeros, and the 64-bit length, to a multiple of 512 bits. */
  function Pad(m: seq<Byte>): (p: seq<Byte>)
    ensures |p| % 64 == 0 && |m| < |p| <= |m| + 72 && p[..|m|] == m && p[|m|] == 0x80
  {
    m + [0x80] + Zeros(PadZeros(|m|)) + LengthField(|m|)
  }

  /** SHA-256(m) as eight words. */
  function Digest(m: seq<Byte>): (d: seq<Word>)
    ensures |d| == 8
  {
    HashBlocks(H0, Pad(m))
  }

  /** The bytes that follow the last complete block of m once it is padded. */
  function PadTail(tail: seq<Byte>, length: nat): seq<Byte>
  {
    tail + [0x80] + Zeros(PadZeros(length)) + LengthField(length)
  }

  /** Padding only touches the final partial block: Pad(m) is m's whole blocks and the padded rest. */
  lemma PadSplits(m: seq<Byte>, r: nat)
    requires r <= |m| && (|m| - r) % 64 == 0
    ensures Pad(m) == m[..|m| - r] + PadTail(m[|m| - r..], |m|)
  {
    assert m == m[..|m| - r] + m[|m| - r..];
  }
}
