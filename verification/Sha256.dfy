/** SHA-256: the one-shot definition of FIPS 180-4 and the streaming form both helpers use. */
module Sha256 {
  type Bytes = seq<bv8>

  // ----- FIPS 180-4, section 4.1.2 -----

  function RotR(x: bv32, n: nat): bv32 requires n <= 32 { (x >> n) | (x << (32 - n)) }
  function Ch(x: bv32, y: bv32, z: bv32): bv32 { (x & y) ^ ((!x) & z) }
  function Maj(x: bv32, y: bv32, z: bv32): bv32 { (x & y) ^ (x & z) ^ (y & z) }
  function BigSigma0(x: bv32): bv32 { RotR(x, 2) ^ RotR(x, 13) ^ RotR(x, 22) }
  function BigSigma1(x: bv32): bv32 { RotR(x, 6) ^ RotR(x, 11) ^ RotR(x, 25) }
  function Sigma0(x: bv32): bv32 { RotR(x, 7) ^ RotR(x, 18) ^ (x >> 3) }
  function Sigma1(x: bv32): bv32 { RotR(x, 17) ^ RotR(x, 19) ^ (x >> 10) }

  // ----- Section 4.2.2 and section 5.3.3 -----

  const K: seq<bv32> := [
    0x428a2f98, 0x71374491, 0xb5c0fbcf, 0xe9b5dba5, 0x3956c25b, 0x59f111f1, 0x923f82a4, 0xab1c5ed5,
    0xd807aa98, 0x12835b01, 0x243185be, 0x550c7dc3, 0x72be5d74, 0x80deb1fe, 0x9bdc06a7, 0xc19bf174,
    0xe49b69c1, 0xefbe4786, 0x0fc19dc6, 0x240ca1cc, 0x2de92c6f, 0x4a7484aa, 0x5cb0a9dc, 0x76f988da,
    0x983e5152, 0xa831c66d, 0xb00327c8, 0xbf597fc7, 0xc6e00bf3, 0xd5a79147, 0x06ca6351, 0x14292967,
    0x27b70a85, 0x2e1b2138, 0x4d2c6dfc, 0x53380d13, 0x650a7354, 0x766a0abb, 0x81c2c92e, 0x92722c85,
    0xa2bfe8a1, 0xa81a664b, 0xc24b8b70, 0xc76c51a3, 0xd192e819, 0xd6990624, 0xf40e3585, 0x106aa070,
    0x19a4c116, 0x1e376c08, 0x2748774c, 0x34b0bcb5, 0x391c0cb3, 0x4ed8aa4a, 0x5b9cca4f, 0x682e6ff3,
    0x748f82ee, 0x78a5636f, 0x84c87814, 0x8cc70208, 0x90befffa, 0xa4506ceb, 0xbef9a3f7, 0xc67178f2
  ]

  datatype State = State(a: bv32, b: bv32, c: bv32, d: bv32, e: bv32, f: bv32, g: bv32, h: bv32)

  const H0: State :=
    State(0x6a09e667, 0xbb67ae85, 0x3c6ef372, 0xa54ff53a, 0x510e527f, 0x9b05688c, 0x1f83d9ab, 0x5be0cd19)

  // ----- Section 6.2.2 -----

  function Word(p: Bytes, i: nat): bv32 requires 4 * i + 4 <= |p| {
    ((p[4 * i] as bv32) << 24) | ((p[4 * i + 1] as bv32) << 16) | ((p[4 * i + 2] as bv32) << 8) | (p[4 * i + 3] as bv32)
  }

  function Next(w2: bv32, w7: bv32, w15: bv32, w16: bv32): bv32 { Sigma1(w2) + w7 + Sigma0(w15) + w16 }

  function W(block: Bytes, t: nat): bv32 requires |block| == 64 && t < 64 {
    if t < 16 then Word(block, t)
    else Next(W(block, t - 2), W(block, t - 7), W(block, t - 15), W(block, t - 16))
  }

  function T1(e: bv32, f: bv32, g: bv32, h: bv32, k: bv32, w: bv32): bv32 { h + BigSigma1(e) + Ch(e, f, g) + k + w }
  function T2(a: bv32, b: bv32, c: bv32): bv32 { BigSigma0(a) + Maj(a, b, c) }
  function Add(x: bv32, y: bv32): bv32 { x + y }

  function Round(s: State, k: bv32, w: bv32): State {
    var t1 := T1(s.e, s.f, s.g, s.h, k, w);
    State(Add(t1, T2(s.a, s.b, s.c)), s.a, s.b, s.c, Add(s.d, t1), s.e, s.f, s.g)
  }

  function Rounds(s: State, block: Bytes, n: nat): State requires |block| == 64 && n <= 64 {
    if n == 0 then s else Round(Rounds(s, block, n - 1), K[n - 1], W(block, n - 1))
  }

  function AddState(s: State, t: State): State {
    State(Add(s.a, t.a), Add(s.b, t.b), Add(s.c, t.c), Add(s.d, t.d), Add(s.e, t.e), Add(s.f, t.f), Add(s.g, t.g),
      Add(s.h, t.h))
  }

  function Compress(s: State, block: Bytes): State requires |block| == 64 {
    AddState(s, Rounds(s, block, |block|))
  }

  /** The chaining value after all blocks of `data`. */
  function Chain(data: Bytes): State requires |data| % 64 == 0 {
    if |data| == 0 then H0 else Compress(Chain(data[..|data| - 64]), data[|data| - 64..])
  }

  // ----- Section 5.1.1 -----

  const WORD64: nat := 0x1_0000_0000_0000_0000

  /** Bit length, modulo 2^64 as the helpers count it. */
  function BitLength(n: nat): nat { (8 * n) % WORD64 }

  function ZeroCount(n: nat): nat { (119 - n % 64) % 64 }

  function Shifted(bits: nat, bytes: nat): nat { if bytes == 0 then bits else Shifted(bits, bytes - 1) / 256 }

  function ByteOf(bits: nat, i: nat): bv8 { (Shifted(bits, i) % 256) as bv8 }

  function LengthBytes(bits: nat): Bytes { seq(8, (j: nat) requires j < 8 => ByteOf(bits, 7 - j)) }

  function Zeros(n: nat): Bytes { seq(n, _ => 0 as bv8) }

  function Pad(m: Bytes): Bytes {
    m + [0x80] + Zeros(ZeroCount(|m|)) + LengthBytes(BitLength(|m|))
  }

  /** k zero bytes leave exactly the eight length bytes free in the last block. */
  predicate Fills(m: Bytes, k: nat) { (|m| + 1 + k) % 64 == 56 }

  /** Padding fills whole blocks with the fewest zero bytes possible. */
  lemma PadLength(m: Bytes)
    ensures |Pad(m)| % 64 == 0 && Fills(m, ZeroCount(|m|))
    ensures forall k: nat | Fills(m, k) :: ZeroCount(|m|) <= k
  {
    var n, r := |m|, |m| % 64;
    assert |Pad(m)| == n + 1 + ZeroCount(n) + 8;
    hide Pad, LengthBytes, Zeros, BitLength;
    ZerosFit(n);
    forall k: nat | Fills(m, k) ensures ZeroCount(n) <= k { FewestZeros(n, k); }
  }

  lemma ZerosFit(n: nat)
    ensures (n + 1 + ZeroCount(n)) % 64 == 56 && (n + 1 + ZeroCount(n) + 8) % 64 == 0
  {
    var q, r := n / 64, n % 64;
    assert n == 64 * q + r;
    assert ZeroCount(n) == if r <= 55 then 55 - r else 119 - r;
    assert n + 1 + ZeroCount(n) == 64 * (if r <= 55 then q else q + 1) + 56;
  }

  lemma FewestZeros(n: nat, k: nat)
    requires (n + 1 + k) % 64 == 56
    ensures ZeroCount(n) <= k
  {
    var q, r, p := n / 64, n % 64, (n + 1 + k) / 64;
    assert n == 64 * q + r && n + 1 + k == 64 * p + 56;
    assert ZeroCount(n) == if r <= 55 then 55 - r else 119 - r;
  }

  function Output(s: State): Bytes {
    Big(s.a) + Big(s.b) + Big(s.c) + Big(s.d) + Big(s.e) + Big(s.f) + Big(s.g) + Big(s.h)
  }

  function Big(x: bv32): Bytes {
    [((x >> 24) & 0xff) as bv8, ((x >> 16) & 0xff) as bv8, ((x >> 8) & 0xff) as bv8, (x & 0xff) as bv8]
  }

  function Digest(m: Bytes): Bytes {
    PadLength(m);
    Output(Chain(Pad(m)))
  }

  // ----- The streaming form -----

  lemma ChainAppend(data: Bytes, block: Bytes)
    requires |data| % 64 == 0 && |block| == 64
    ensures Chain(data + block) == Compress(Chain(data), block)
  {
    assert (data + block)[..|data|] == data && (data + block)[|data|..] == block;
  }

  /** In the last block if the length still fits, else through the next one. */
  lemma ZeroCountOf(n: nat)
    ensures n % 64 <= 55 ==> ZeroCount(n) == 55 - n % 64
    ensures n % 64 > 55 ==> ZeroCount(n) == 63 - n % 64 + 56
  {
  }

  lemma ZerosJoin(data: Bytes, a: nat, b: nat)
    ensures data + Zeros(a) + Zeros(b) == data + Zeros(a + b)
  {
  }

  lemma BitsGrow(n: nat, k: nat)
    ensures (BitLength(n) + 8 * k) % WORD64 == BitLength(n + k)
  {
    assert 8 * (n + k) == 8 * n + 8 * k;
  }

  class Hasher {
    var h: State
    var bits: nat
    const block: array<bv8>
    var used: nat
    ghost var message: Bytes

    /** sha_init. */
    constructor ()
      ensures Valid() && message == [] && fresh(block)
    {
      h := H0;
      bits := 0;
      block := new bv8[64];
      used := 0;
      message := [];
    }

    /** `data` is what has been fed: whole blocks in the chaining value, the rest in the buffer. */
    ghost predicate Holds(data: Bytes) reads this`h, this`used, block {
      && block.Length == 64 && used <= 64 && used <= |data| && (|data| - used) % 64 == 0
      && h == Chain(data[..|data| - used])
      && block[..used] == data[|data| - used..]
    }

    ghost predicate Valid() reads this, block {
      Holds(message) && used < 64 && bits == BitLength(|message|)
    }

    /** sha_block over the filled buffer. */
    method Block()
      requires block.Length == 64
      modifies this`h
      ensures h == Compress(old(h), block[..])
    {
      hide W, T1, T2, Add;
      var w := Schedule();
      var a, b, c, d, e, f, g, hh := h.a, h.b, h.c, h.d, h.e, h.f, h.g, h.h;
      for i := 0 to 64
        invariant State(a, b, c, d, e, f, g, hh) == Rounds(h, block[..], i)
      {
        var t1, t2 := T1(e, f, g, hh, K[i], w[i]), T2(a, b, c);
        hh, g, f, e, d, c, b, a := g, f, e, Add(d, t1), c, b, a, Add(t1, t2);
      }
      h := State(Add(h.a, a), Add(h.b, b), Add(h.c, c), Add(h.d, d), Add(h.e, e), Add(h.f, f), Add(h.g, g),
        Add(h.h, hh));
    }

    /** The message schedule of one block. */
    method Schedule() returns (w: array<bv32>)
      requires block.Length == 64
      ensures fresh(w) && w.Length == 64
      ensures forall t | 0 <= t < 64 :: w[t] == W(block[..], t)
    {
      hide Word, Next;
      w := new bv32[64];
      for i := 0 to 16
        invariant forall t | 0 <= t < i :: w[t] == W(block[..], t)
      {
        w[i] := Word(block[..], i);
      }
      for i := 16 to 64
        invariant forall t | 0 <= t < i :: w[t] == W(block[..], t)
      {
        w[i] := Next(w[i - 2], w[i - 7], w[i - 15], w[i - 16]);
      }
    }

    /** Compress a full buffer and empty it. */
    method Flush(ghost data: Bytes)
      requires Holds(data) && used == 64
      modifies this`h, this`used
      ensures Holds(data) && used == 0
    {
      hide Compress;
      ghost var whole := data[..|data| - 64];
      Block();
      assert data == whole + block[..];
      ChainAppend(whole, block[..]);
      used := 0;
      assert data[..|data|] == data;
    }

    /** sha_update: any split of a message into calls is the same message. */
    method Update(p: Bytes)
      requires Valid()
      modifies this, block
      ensures Valid() && message == old(message) + p
    {
      hide Chain, Holds, BitLength;
      BitsGrow(|message|, |p|);
      bits := (bits + 8 * |p|) % WORD64;
      var rest := p;
      ghost var seen := message;
      while |rest| > 0
        invariant Holds(seen) && used < 64
        invariant seen + rest == old(message) + p
        invariant bits == BitLength(|message + p|) && message == old(message)
      {
        var take := if 64 - used > |rest| then |rest| else 64 - used;
        Fill(rest[..take], seen);
        seen := seen + rest[..take];
        rest := rest[take..];
        if used == 64 { Flush(seen); }
      }
      assert seen == seen + rest;
      message := message + p;
    }

    /** Append to the buffer. */
    method Fill(p: Bytes, ghost data: Bytes)
      requires Holds(data) && used + |p| <= 64
      modifies this`used, block
      ensures Holds(data + p) && used == old(used) + |p|
    {
      forall i | 0 <= i < |p| { block[used + i] := p[i]; }
      ghost var was := old(block[..used]);
      assert block[..used + |p|] == was + p;
      used := used + |p|;
      assert (data + p)[..|data + p| - used] == data[..|data| - old(used)];
      assert (data + p)[|data + p| - used..] == data[|data| - old(used)..] + p;
    }

    /** sha_finish: one more block, or two when the length does not fit. */
    method Finish() returns (out: Bytes)
      requires Valid()
      modifies this, block
      ensures out == Digest(old(message))
    {
      hide Chain, ByteOf, BitLength;
      assert used == |message| % 64;
      ghost var data := Terminate();
      Fill(LengthBytes(bits), data);
      data := data + LengthBytes(bits);
      Flush(data);
      assert data == Pad(message);
      assert data[..|data|] == data;
      out := Output(h);
    }

    /** The 0x80 byte and zeros up to the length field, through a second block if need be. */
    method Terminate() returns (ghost data: Bytes)
      requires Holds(message) && used < 64
      modifies this`h, this`used, block
      ensures Holds(data) && used == 56 && data == message + [0x80] + Zeros(ZeroCount(|message|))
    {
      hide Chain;
      assert used == |message| % 64;
      ZeroCountOf(|message|);
      hide Holds, Zeros, ZeroCount, Fills, Pad;
      data := message + [0x80];
      Fill([0x80], message);
      if used > 56 {
        ghost var first := 64 - used;
        data := ZeroTo(64, data);
        Flush(data);
        data := ZeroTo(56, data);
        ZerosJoin(message + [0x80], first, 56);
      } else {
        data := ZeroTo(56, data);
      }
    }

    /** Zero bytes up to a position in the buffer. */
    method ZeroTo(limit: nat, ghost data: Bytes) returns (ghost data': Bytes)
      requires Holds(data) && used <= limit <= 64
      modifies this`used, block
      ensures data' == data + Zeros(limit - old(used)) && Holds(data') && used == limit
    {
      data' := data;
      while used < limit
        invariant old(used) <= used <= limit && data' == data + Zeros(used - old(used)) && Holds(data')
      {
        Fill([0], data');
        data' := data' + [0];
      }
    }
  }

  /** sha_bytes. */
  method HashBytes(v: Bytes) returns (out: Bytes)
    ensures out == Digest(v)
  {
    var hasher := new Hasher();
    hasher.Update(v);
    assert [] + v == v;
    out := hasher.Finish();
  }

  /** What one read returns: some bytes of what is left, a signal, or an error. */
  datatype Read = Got(most: nat) | Interrupted | Failed

  datatype Option<+T> = None | Some(value: T)

  /** sha_fd over reads of any length; None if a read failed or the reads never reached the end. */
  method HashDescriptor(file: Bytes, steps: seq<Read>) returns (out: Option<Bytes>)
    ensures out.Some? ==> out.value == Digest(file)
    ensures (forall i | 0 <= i < |steps| :: steps[i].Got? && steps[i].most > 0) && |steps| > |file| ==> out.Some?
  {
    hide Digest;
    var hasher := new Hasher();
    hide Hasher.Valid;
    var offset := 0;
    for i := 0 to |steps|
      invariant fresh(hasher) && fresh(hasher.block) && hasher.Valid()
      invariant 0 <= offset <= |file| && hasher.message == file[..offset]
      invariant (forall k | 0 <= k < |steps| :: steps[k].Got? && steps[k].most > 0) ==> i <= offset
    {
      match steps[i]
      case Interrupted =>
      case Failed => return None;
      case Got(most) =>
        var n := if most > |file| - offset then |file| - offset else most;
        if offset == |file| {
          var digest := hasher.Finish();
          assert file[..offset] == file;
          return Some(digest);
        }
        hasher.Update(file[offset..offset + n]);
        assert file[..offset] + file[offset..offset + n] == file[..offset + n];
        offset := offset + n;
    }
    out := None;
  }
}
