/**
  * NIP-44 version 2: padding, payload framing, and the encrypt / decrypt round trip.
  *
  * Plaintexts are the UTF-8 bytes of the message.  The primitives (secp256k1, HKDF, ChaCha20,
  * HMAC) are functions about which only the laws in `Laws` are assumed.
  */
module Nip44 {
  import opened Wrappers
  import opened ByteStrings
  import opened Base64

  const MinPlaintext: nat := 1
  const MaxPlaintext: nat := 65535
  const MinBase64Payload: nat := 132
  const MaxBase64Payload: nat := 87472
  const MinPayload: nat := 99
  const MaxPayload: nat := 65603

  // ---------------------------------------------------------------- padded length

  function FloorLog2(x: nat): nat
    requires x >= 1
  {
    if x == 1 then 0 else FloorLog2(x / 2) + 1
  }

  function Pow2(n: nat): nat {
    if n == 0 then 1 else 2 * Pow2(n - 1)
  }

  function NextPower(n: nat): nat
    requires n >= 2
  {
    Pow2(FloorLog2(n - 1) + 1)
  }

  function Chunk(power: nat): nat {
    if power <= 256 then 32 else power / 8
  }

  function PaddedLen(n: nat): nat
    requires MinPlaintext <= n <= MaxPlaintext
  {
    if n <= 32 then 32
    else
      var chunk := Chunk(NextPower(n));
      ChunkIsPositive(n);
      chunk * ((n - 1) / chunk + 1)
  }

  lemma {:induction false} LogBounds(x: nat)
    requires x >= 1
    ensures Pow2(FloorLog2(x)) <= x < 2 * Pow2(FloorLog2(x))
  {
    if x == 1 {
    } else {
      LogBounds(x / 2);
    }
  }

  lemma {:induction false} PowersAre(k: nat)
    ensures Pow2(k + 1) == 2 * Pow2(k) && Pow2(k) >= 1
    ensures k >= 16 ==> Pow2(k) >= 65536
    ensures Pow2(5) == 32 && Pow2(6) == 64 && Pow2(7) == 128 && Pow2(8) == 256 && Pow2(9) == 512
    ensures Pow2(10) == 1024 && Pow2(11) == 2048 && Pow2(12) == 4096 && Pow2(13) == 8192 && Pow2(14) == 16384
    ensures Pow2(15) == 32768 && Pow2(16) == 65536
    decreases k
  {
    assert Pow2(4) == 16;
    assert Pow2(8) == 256;
    assert Pow2(12) == 4096;
    assert Pow2(16) == 65536;
    if k == 0 {
    } else {
      PowersAre(k - 1);
    }
  }

  predicate IsPower(p: nat) {
    p in {64, 128, 256, 512, 1024, 2048, 4096, 8192, 16384, 32768, 65536}
  }

  lemma {:induction false} SmallPowers(k: nat)
    requires 6 <= k <= 16
    ensures IsPower(Pow2(k))
  {
    PowersAre(k);
  }

  lemma {:induction false} LogRange(n: nat)
    requires 32 < n <= MaxPlaintext
    ensures 5 <= FloorLog2(n - 1) <= 15
  {
    var k := FloorLog2(n - 1);
    LogBounds(n - 1);
    PowersAre(k);
    if k < 5 { PowersGrow(k, 4); }
  }

  lemma {:induction false} PowersGrow(a: nat, b: nat)
    requires a <= b
    ensures Pow2(a) <= Pow2(b)
  {
    if a == b {
    } else {
      PowersGrow(a, b - 1);
    }
  }

  /** For lengths above 32 the next power is one of eleven values, and brackets n - 1. */
  lemma {:induction false} NextPowerBrackets(n: nat)
    requires 32 < n <= MaxPlaintext
    ensures IsPower(NextPower(n)) && NextPower(n) / 2 <= n - 1 < NextPower(n)
  {
    LogRange(n);
    LogBounds(n - 1);
    SmallPowers(FloorLog2(n - 1) + 1);
  }

  lemma {:induction false} ChunkIsPositive(n: nat)
    requires 32 < n <= MaxPlaintext
    ensures Chunk(NextPower(n)) > 0
  {
    NextPowerBrackets(n);
  }

  function RoundUp(n: nat, chunk: nat): nat
    requires n >= 1 && chunk >= 1
  {
    chunk * ((n - 1) / chunk + 1)
  }

  predicate IsChunk(c: nat) {
    c in {32, 64, 128, 256, 512, 1024, 2048, 4096, 8192}
  }

  lemma {:induction false} ChunkOfPower(p: nat)
    requires IsPower(p)
    ensures IsChunk(Chunk(p)) && p % Chunk(p) == 0 && (p > 256 ==> Chunk(p) * 8 == p)
  {
  }

  lemma {:induction false} RoundUpBounds(n: nat, chunk: nat)
    requires n >= 1 && chunk >= 1
    ensures n <= RoundUp(n, chunk) < n + chunk && RoundUp(n, chunk) == chunk * ((n - 1) / chunk) + chunk
  {
    assert n - 1 == chunk * ((n - 1) / chunk) + (n - 1) % chunk;
  }

  lemma {:induction false} ChunksAreMultiplesOf32(c: nat, k: nat)
    requires IsChunk(c)
    ensures c * k % 32 == 0
  {
    var d := c / 32;
    assert c == 32 * d;
    assert c * k == 32 * (d * k);
  }

  lemma {:induction false} RoundUpIsMonotone(n: nat, m: nat, chunk: nat)
    requires 1 <= n <= m && chunk >= 1
    ensures RoundUp(n, chunk) <= RoundUp(m, chunk)
  {
    DivIsMonotone(n - 1, m - 1, chunk);
    MulIsMonotone(chunk, (n - 1) / chunk + 1, (m - 1) / chunk + 1);
  }

  lemma {:induction false} DivIsMonotone(a: nat, b: nat, c: nat)
    requires a <= b && c >= 1
    ensures a / c <= b / c
  {
    var q, r := a / c, b / c;
    assert a == c * q + a % c && b == c * r + b % c;
    FactorsOrder(c, q, r);
  }

  lemma {:induction false} FactorsOrder(c: nat, q: nat, r: nat)
    requires c * q < c * r + c
    ensures q <= r
  {
    if q > r { MulIsMonotone(c, r + 1, q); }
  }

  lemma {:induction false} MulIsMonotone(c: nat, x: nat, y: nat)
    requires x <= y
    ensures c * x <= c * y
  {
    assert c * y == c * x + c * (y - x);
  }

  /** A multiple of the chunk rounds up to itself. */
  lemma {:induction false} RoundUpFixes(k: nat, chunk: nat)
    requires k >= 1 && chunk >= 1
    ensures chunk * k >= 1 && RoundUp(chunk * k, chunk) == chunk * k
  {
    MulIsMonotone(chunk, 1, k);
    var q := (chunk * k - 1) / chunk;
    assert chunk * k - 1 == chunk * q + (chunk * k - 1) % chunk;
    if q >= k {
      MulIsMonotone(chunk, k, q);
      assert false;
    }
    assert chunk * (q + 2) == chunk * q + chunk + chunk;
    if q + 1 < k {
      MulIsMonotone(chunk, q + 2, k);
      assert false;
    }
  }

  lemma {:induction false} PaddedLenRoundsUp(n: nat)
    requires 32 < n <= MaxPlaintext
    ensures Chunk(NextPower(n)) >= 1 && PaddedLen(n) == RoundUp(n, Chunk(NextPower(n)))
  {
    ChunkIsPositive(n);
  }

  lemma {:induction false} MultiplesAreFixed(p: nat, c: nat)
    requires p >= 1 && c >= 1 && p % c == 0
    ensures RoundUp(p, c) == p
  {
    var k := p / c;
    assert p == c * k;
    RoundUpFixes(k, c);
  }

  /** Rounding up never passes the power that selected the chunk. */
  lemma {:induction false} PaddedWithinPower(n: nat)
    requires 32 < n <= MaxPlaintext
    ensures PaddedLen(n) <= NextPower(n)
  {
    var p := NextPower(n);
    var c := Chunk(p);
    PaddedLenRoundsUp(n);
    NextPowerBrackets(n);
    ChunkOfPower(p);
    MultiplesAreFixed(p, c);
    RoundUpIsMonotone(n, p, c);
  }

  /** A length between half the power and the power selects that power. */
  lemma {:induction false} PowerIsDetermined(n: nat, m: nat)
    requires 32 < n <= m <= MaxPlaintext && m <= NextPower(n)
    ensures NextPower(m) == NextPower(n)
  {
    NextPowerBrackets(n);
    NextPowerBrackets(m);
  }

  lemma {:induction false} PaddedIsMultiple(n: nat)
    requires 32 < n <= MaxPlaintext
    ensures PaddedLen(n) % 32 == 0
  {
    NextPowerBrackets(n);
    ChunkOfPower(NextPower(n));
    PaddedLenRoundsUp(n);
    var c := Chunk(NextPower(n));
    ChunksAreMultiplesOf32(c, (n - 1) / c + 1);
  }

  lemma {:induction false} PaddedFits(n: nat)
    requires 32 < n <= MaxPlaintext
    ensures n <= PaddedLen(n) < n + Chunk(NextPower(n)) && PaddedLen(n) <= 65536
  {
    NextPowerBrackets(n);
    PaddedLenRoundsUp(n);
    RoundUpBounds(n, Chunk(NextPower(n)));
    PaddedWithinPower(n);
  }

  lemma {:induction false} PaddingBounds(n: nat)
    requires 32 < n <= MaxPlaintext
    ensures n <= PaddedLen(n) <= 65536 && PaddedLen(n) % 32 == 0
    ensures PaddedLen(n) - n < 32 || 4 * (PaddedLen(n) - n) < n
  {
    NextPowerBrackets(n);
    ChunkOfPower(NextPower(n));
    PaddedIsMultiple(n);
    PaddedFits(n);
  }

  lemma {:induction false} RoundUpTwice(n: nat, chunk: nat)
    requires n >= 1 && chunk >= 1
    ensures RoundUp(n, chunk) >= n && RoundUp(RoundUp(n, chunk), chunk) == RoundUp(n, chunk)
  {
    RoundUpBounds(n, chunk);
    RoundUpFixes((n - 1) / chunk + 1, chunk);
  }

  lemma {:induction false} SameChunk(n: nat)
    requires 32 < n <= MaxPlaintext && PaddedLen(n) <= MaxPlaintext
    ensures n <= PaddedLen(n) && NextPower(PaddedLen(n)) == NextPower(n)
  {
    PaddingBounds(n);
    PaddedWithinPower(n);
    PowerIsDetermined(n, PaddedLen(n));
  }

  lemma {:induction false} PaddingIsFixed(n: nat)
    requires 32 < n <= MaxPlaintext && PaddedLen(n) <= MaxPlaintext
    ensures PaddedLen(PaddedLen(n)) == PaddedLen(n)
  {
    SameChunk(n);
    PaddedLenRoundsUp(n);
    PaddedLenRoundsUp(PaddedLen(n));
    RoundUpTwice(n, Chunk(NextPower(n)));
  }

  /** The padded length of every permitted plaintext length. */
  lemma {:induction false} PaddingArithmetic(n: nat)
    requires MinPlaintext <= n <= MaxPlaintext
    ensures n <= PaddedLen(n) <= 65536 && PaddedLen(n) % 32 == 0 && PaddedLen(n) >= 32
    ensures PaddedLen(n) <= MaxPlaintext ==> PaddedLen(PaddedLen(n)) == PaddedLen(n)
    ensures PaddedLen(n) - n < 32 || 4 * (PaddedLen(n) - n) < n
  {
    if n > 32 {
      PaddingBounds(n);
      if PaddedLen(n) <= MaxPlaintext { PaddingIsFixed(n); }
    }
  }

  /** Longer plaintexts are never padded to less. */
  lemma {:induction false} PaddingIsMonotone(n: nat, m: nat)
    requires MinPlaintext <= n <= m <= MaxPlaintext
    ensures PaddedLen(n) <= PaddedLen(m)
  {
    PaddingArithmetic(n);
    PaddingArithmetic(m);
    if n > 32 {
      PaddedWithinPower(n);
      PaddedLenRoundsUp(n);
      PaddedLenRoundsUp(m);
      if m <= NextPower(n) {
        PowerIsDetermined(n, m);
        RoundUpIsMonotone(n, m, Chunk(NextPower(n)));
      }
    }
  }

  lemma {:induction false} ChunkIs(n: nat, p: nat)
    requires 32 < n <= MaxPlaintext && p in {512, 1024, 2048, 4096, 8192, 16384, 32768, 65536}
    ensures n <= 256 ==> Chunk(NextPower(n)) == 32
    ensures p / 2 < n <= p ==> Chunk(NextPower(n)) == p / 8
  {
    NextPowerBrackets(n);
  }

  lemma {:induction false} PaddedToChunk(n: nat)
    requires 32 < n <= MaxPlaintext
    ensures var c := Chunk(NextPower(n)); c > 0 && PaddedLen(n) % c == 0 && n <= PaddedLen(n) < n + c
  {
    PaddedFits(n);
    PaddedLenRoundsUp(n);
    var c := Chunk(NextPower(n));
    MultipleOf(c, (n - 1) / c + 1);
  }

  /** Up to 256 bytes the padded length is the least multiple of 32 that fits; above, with p the power of two that
      brackets the length, the least multiple of p / 8. */
  lemma {:induction false} PaddedLenIsLeast(n: nat, p: nat)
    requires MinPlaintext <= n <= MaxPlaintext && p in {512, 1024, 2048, 4096, 8192, 16384, 32768, 65536}
    ensures n <= 256 ==> PaddedLen(n) % 32 == 0 && n <= PaddedLen(n) < n + 32
    ensures p / 2 < n <= p ==> PaddedLen(n) % (p / 8) == 0 && n <= PaddedLen(n) < n + p / 8
  {
    if n > 32 {
      PaddedToChunk(n);
      ChunkIs(n, p);
    }
  }

  lemma {:induction false} MultipleOf(c: nat, k: nat)
    requires c > 0
    ensures c * k % c == 0
  {
    assert c * k == k * c + 0;
    RemainderIsZero(c, k, c * k / c, c * k % c);
  }

  lemma {:induction false} RemainderIsZero(c: nat, k: nat, q: nat, r: nat)
    requires c > 0 && c * k == c * q + r && r < c
    ensures r == 0
  {
    if q < k { MulIsMonotone(c, q + 1, k); } else { MulIsMonotone(c, k, q); }
  }

  // ---------------------------------------------------------------- padding

  function Pad(plaintext: Bytes): Result<Bytes> {
    var n := |plaintext|;
    if n < MinPlaintext || n > MaxPlaintext then Err
    else
      PaddingArithmetic(n);
      Ok([n / 256 % 256, n % 256] + plaintext + Zeros(PaddedLen(n) - n))
  }

  function Unpad(padded: Bytes): Result<Bytes> {
    if |padded| < 2 then Err
    else
      var n := padded[0] as nat * 256 + padded[1];
      if n < MinPlaintext || n > MaxPlaintext then Err
      else if |padded| < 2 + n then Err
      else if |padded| != 2 + PaddedLen(n) then Err
      else Ok(padded[2..2 + n])
  }

  lemma {:induction false} LengthPrefix(n: nat)
    requires n <= MaxPlaintext
    ensures n / 256 < 256 && n / 256 % 256 == n / 256 && (n / 256) * 256 + n % 256 == n
  {
  }

  lemma {:induction false} UnpadInvertsPad(plaintext: Bytes)
    requires MinPlaintext <= |plaintext| <= MaxPlaintext
    ensures Pad(plaintext).Ok? && |Pad(plaintext).value| == 2 + PaddedLen(|plaintext|)
    ensures Unpad(Pad(plaintext).value) == Ok(plaintext)
  {
    var n := |plaintext|;
    PaddingArithmetic(n);
    LengthPrefix(n);
    var padded := Pad(plaintext).value;
    assert padded[0] == n / 256 && padded[1] == n % 256;
    assert padded[2..2 + n] == plaintext;
  }

  /** The padded text: the length in two bytes, the high one first, the plaintext, and zeros. */
  lemma {:induction false} PaddingLayout(plaintext: Bytes)
    ensures Pad(plaintext).Ok? <==> 1 <= |plaintext| <= 65535
    ensures Pad(plaintext).Ok? ==>
              var padded, n := Pad(plaintext).value, |plaintext|;
              && |padded| == 2 + PaddedLen(n) && padded[0] as nat * 256 + padded[1] == n && padded[2..2 + n] == plaintext
              && forall i :: 2 + n <= i < |padded| ==> padded[i] == 0
  {
    if 1 <= |plaintext| <= 65535 {
      UnpadInvertsPad(plaintext);
      LengthPrefix(|plaintext|);
      PaddingArithmetic(|plaintext|);
    }
  }

  /**
    * What Unpad accepts: the length prefix, the plaintext, and the right number of further bytes, whose values it
    * does not look at.
    */
  lemma {:induction false} UnpadAcceptsExactly(padded: Bytes, plaintext: Bytes)
    ensures Unpad(padded) == Ok(plaintext) <==>
              && MinPlaintext <= |plaintext| <= MaxPlaintext
              && |padded| == 2 + PaddedLen(|plaintext|)
              && [|plaintext| / 256, |plaintext| % 256] + plaintext <= padded
  {
    var n := |plaintext|;
    if MinPlaintext <= n <= MaxPlaintext && |padded| == 2 + PaddedLen(n) {
      PaddingArithmetic(n);
      LengthPrefix(n);
      var front := [n / 256, n % 256] + plaintext;
      if front <= padded {
        assert padded[0] == front[0] && padded[1] == front[1];
        assert padded[2..2 + n] == front[2..];
      }
      if Unpad(padded) == Ok(plaintext) {
        assert padded[..2 + n] == padded[..2] + padded[2..2 + n];
        assert padded[..2] == [n / 256, n % 256];
      }
    }
  }

  // ---------------------------------------------------------------- constant-time comparison

  function BitXor(a: nat, b: nat): nat {
    if a == 0 && b == 0 then 0 else (if a % 2 == b % 2 then 0 else 1) + 2 * BitXor(a / 2, b / 2)
  }

  function BitOr(a: nat, b: nat): nat {
    if a == 0 && b == 0 then 0 else (if a % 2 == 0 && b % 2 == 0 then 0 else 1) + 2 * BitOr(a / 2, b / 2)
  }

  lemma {:induction false} XorIsZeroForEqual(a: nat, b: nat)
    ensures BitXor(a, b) == 0 <==> a == b
  {
    if a == 0 && b == 0 {
    } else {
      XorIsZeroForEqual(a / 2, b / 2);
    }
  }

  lemma {:induction false} OrIsZeroForZeros(a: nat, b: nat)
    ensures BitOr(a, b) == 0 <==> a == 0 && b == 0
  {
    if a == 0 && b == 0 {
    } else {
      OrIsZeroForZeros(a / 2, b / 2);
    }
  }

  lemma {:induction false} StaysWithinBits(a: nat, b: nat, k: nat)
    requires a < Pow2(k) && b < Pow2(k)
    ensures BitXor(a, b) < Pow2(k) && BitOr(a, b) < Pow2(k)
    decreases k
  {
    if k == 0 || (a == 0 && b == 0) {
    } else {
      StaysWithinBits(a / 2, b / 2, k - 1);
    }
  }

  /** The OR of a byte with its seven right shifts, cut to the lowest bit. */
  function AnyBit(r: Byte): nat {
    BitOr(BitOr(BitOr(r, r / 2), BitOr(r / 4, r / 8)), BitOr(BitOr(r / 16, r / 32), BitOr(r / 64, r / 128))) % 2
  }

  lemma {:induction false} OrLowBit(a: nat, b: nat)
    ensures BitOr(a, b) % 2 == 0 <==> a % 2 == 0 && b % 2 == 0
  {
    if a == 0 && b == 0 {
    } else {
      LowBit(if a % 2 == 0 && b % 2 == 0 then 0 else 1, BitOr(a / 2, b / 2));
    }
  }

  lemma {:induction false} LowBit(bit: nat, rest: nat)
    requires bit < 2
    ensures (bit + 2 * rest) % 2 == bit
  {
  }

  lemma {:induction false} AnyBitTellsZero(r: Byte)
    ensures AnyBit(r) == (if r == 0 then 0 else 1)
  {
    OrLowBit(BitOr(BitOr(r, r / 2), BitOr(r / 4, r / 8)), BitOr(BitOr(r / 16, r / 32), BitOr(r / 64, r / 128)));
    OrLowBit(BitOr(r, r / 2), BitOr(r / 4, r / 8));
    OrLowBit(BitOr(r / 16, r / 32), BitOr(r / 64, r / 128));
    OrLowBit(r, r / 2);
    OrLowBit(r / 4, r / 8);
    OrLowBit(r / 16, r / 32);
    OrLowBit(r / 64, r / 128);
    SomeBitIsSet(r);
  }

  lemma {:induction false} SomeBitIsSet(r: Byte)
    ensures r != 0 <==> (r % 2 == 1 || r / 2 % 2 == 1 || r / 4 % 2 == 1 || r / 8 % 2 == 1
                         || r / 16 % 2 == 1 || r / 32 % 2 == 1 || r / 64 % 2 == 1 || r / 128 % 2 == 1)
  {
  }

  /** 1 exactly for equal byte strings; the loop looks at every byte whatever it finds. */
  method ConstantTimeEqual(a: Bytes, b: Bytes) returns (equal: nat)
    ensures equal == if a == b then 1 else 0
  {
    if |a| != |b| { return 0; }
    var result: nat := 0;
    for i := 0 to |a|
      invariant result < 256
      invariant result == 0 <==> a[..i] == b[..i]
    {
      PowersAre(8);
      StaysWithinBits(a[i], b[i], 8);
      StaysWithinBits(result, BitXor(a[i], b[i]), 8);
      XorIsZeroForEqual(a[i], b[i]);
      OrIsZeroForZeros(result, BitXor(a[i], b[i]));
      assert a[..i + 1] == a[..i] + [a[i]] && b[..i + 1] == b[..i] + [b[i]];
      result := BitOr(result, BitXor(a[i], b[i]));
    }
    assert a[..|a|] == a && b[..|b|] == b;
    AnyBitTellsZero(result);
    equal := 1 - AnyBit(result);
  }

  // ---------------------------------------------------------------- primitives

  datatype MessageKeys = MessageKeys(chachaKey: Bytes, chachaNonce: Bytes, hmacKey: Bytes)

  datatype Primitives = Primitives(
    validPrivate: Bytes -> bool,
    validPublic: Bytes -> bool,
    publicKey: Bytes -> Bytes,
    sharedSecret: (Bytes, Bytes) -> Bytes,        // private key, public key: the conversation key
    expand: (Bytes, Bytes) -> MessageKeys,        // conversation key, nonce
    chacha: (Bytes, Bytes, Bytes) -> Bytes,       // key, nonce, data
    hmac: (Bytes, Bytes) -> Bytes)                // key, message

  ghost predicate Laws(c: Primitives) {
    && (forall a :: c.validPrivate(a) ==> c.validPublic(c.publicKey(a)))
    && (forall a, b :: c.sharedSecret(a, c.publicKey(b)) == c.sharedSecret(b, c.publicKey(a)))
    && (forall k, n, d :: |c.chacha(k, n, d)| == |d|)
    && (forall k, n, d :: c.chacha(k, n, c.chacha(k, n, d)) == d)
    && (forall k, m :: |c.hmac(k, m)| == 32)
  }

  // ---------------------------------------------------------------- encryption

  datatype Payload = Payload(version: nat, nonce: Bytes, ciphertext: Bytes, mac: Bytes)

  /** The version-2 payload before base64; errors for a wrong nonce length, key or plaintext length. */
  function EncryptV2(c: Primitives, plaintext: Bytes, privateKey: Bytes, publicKey: Bytes, nonce: Bytes): Result<Bytes> {
    if |nonce| != 32 || !c.validPrivate(privateKey) || !c.validPublic(publicKey) then Err
    else
      var keys := c.expand(c.sharedSecret(privateKey, publicKey), nonce);
      match Pad(plaintext)
      case Err => Err
      case Ok(padded) =>
        var ciphertext := c.chacha(keys.chachaKey, keys.chachaNonce, padded);
        Ok([2] + nonce + ciphertext + c.hmac(keys.hmacKey, nonce + ciphertext))
  }

  /** Refused are other nonce lengths, invalid keys and plaintexts that are empty or too long. */
  function Encrypt(c: Primitives, plaintext: Bytes, privateKey: Bytes, publicKey: Bytes, nonce: Bytes): (r: Result<string>)
    ensures r.Ok? <==> |nonce| == 32 && c.validPrivate(privateKey) && c.validPublic(publicKey) && 1 <= |plaintext| <= 65535
  {
    match EncryptV2(c, plaintext, privateKey, publicKey, nonce)
    case Err => Err
    case Ok(payload) => Ok(Base64.Encode(payload))
  }

  // ---------------------------------------------------------------- decryption

  /** The characters String.prototype.trim removes. */
  predicate IsSpace(c: char) {
    var u := c as int;
    (9 <= u <= 13) || u == 32 || u == 160 || u == 0x1680 || (0x2000 <= u <= 0x200a) || u == 0x2028 || u == 0x2029
    || u == 0x202f || u == 0x205f || u == 0x3000 || u == 0xfeff
  }

  function TrimStart(s: string): string {
    if s != "" && IsSpace(s[0]) then TrimStart(s[1..]) else s
  }

  function TrimEnd(s: string): string {
    if s != "" && IsSpace(s[|s| - 1]) then TrimEnd(s[..|s| - 1]) else s
  }

  function Trim(s: string): string {
    TrimEnd(TrimStart(s))
  }

  function DecodePayload(payload: string): Result<Payload> {
    var raw := Trim(payload);
    if raw != "" && raw[0] == '#' then Err
    else if |raw| < MinBase64Payload || |raw| > MaxBase64Payload then Err
    else if !ValidText(raw) then Err
    else SplitPayload(Base64.Decode(raw))
  }

  /** Every supported version has a 32-byte nonce and a 32-byte MAC. */
  function SplitPayload(data: Bytes): Result<Payload> {
    if |data| < MinPayload || |data| > MaxPayload then Err
    else if data[0] > 2 then Err
    else Ok(Payload(data[0], data[1..33], data[33..|data| - 32], data[|data| - 32..]))
  }

  /** Versions 0 and 1 are decrypted by the same function. */
  function DecryptV2(c: Primitives, ciphertext: Bytes, nonce: Bytes, mac: Bytes,
                     privateKey: Bytes, publicKey: Bytes): Result<Bytes>
  {
    var keys := c.expand(c.sharedSecret(privateKey, publicKey), nonce);
    if c.hmac(keys.hmacKey, nonce + ciphertext) != mac then Err
    else Unpad(c.chacha(keys.chachaKey, keys.chachaNonce, ciphertext))
  }

  function Decrypt(c: Primitives, payload: string, privateKey: Bytes, publicKey: Bytes): Result<Bytes> {
    if !c.validPublic(publicKey) || !c.validPrivate(privateKey) then Err
    else match DecodePayload(payload)
      case Err => Err
      case Ok(p) => DecryptV2(c, p.ciphertext, p.nonce, p.mac, privateKey, publicKey)
  }

  // ---------------------------------------------------------------- round trip

  lemma {:induction false} TrimKeepsText(s: string)
    requires ValidText(s)
    ensures Trim(s) == s && s[0] != '#'
  {
    var last := s[|s| - 4..];
    assert last[3] == s[|s| - 1];
    assert IsDigit(s[0]) by {
      if |s| == 4 { assert s[0] == last[..2][0]; } else { assert s[0] == s[..|s| - 4][0]; }
    }
    assert IsDigit(s[|s| - 1]) || s[|s| - 1] == '=';
  }

  lemma {:induction false} PayloadSizes(c: Primitives, plaintext: Bytes, privateKey: Bytes, publicKey: Bytes, nonce: Bytes)
    requires Laws(c) && |nonce| == 32 && c.validPrivate(privateKey) && c.validPublic(publicKey)
    requires MinPlaintext <= |plaintext| <= MaxPlaintext
    ensures var r := EncryptV2(c, plaintext, privateKey, publicKey, nonce);
            r.Ok? && |r.value| == 67 + PaddedLen(|plaintext|) && MinPayload <= |r.value| <= MaxPayload
  {
    UnpadInvertsPad(plaintext);
    PaddingArithmetic(|plaintext|);
  }

  lemma {:induction false} TextSizes(n: nat)
    requires MinPayload <= n <= MaxPayload
    ensures MinBase64Payload <= (n + 2) / 3 * 4 <= MaxBase64Payload
  {
  }

  lemma {:induction false} TextDecodes(text: string, data: Bytes)
    requires ValidText(text) && Base64.Decode(text) == data && MinBase64Payload <= |text| <= MaxBase64Payload
    ensures DecodePayload(text) == SplitPayload(data)
  {
    TrimKeepsText(text);
  }

  lemma {:induction false} SizedTextDecodes(text: string, data: Bytes)
    requires ValidText(text) && Base64.Decode(text) == data && MinPayload <= |data| <= MaxPayload
    requires |text| == (|data| + 2) / 3 * 4
    ensures DecodePayload(text) == SplitPayload(data)
  {
    TextSizes(|data|);
    TextDecodes(text, data);
  }

  /** The text of a payload is valid and decodes to it. */
  lemma {:induction false} TextOf(data: Bytes) returns (text: string)
    requires data != []
    ensures text == Base64.Encode(data) && ValidText(text) && Base64.Decode(text) == data
    ensures |text| == (|data| + 2) / 3 * 4
  {
    text := Base64.Encode(data);
    DecodeInvertsEncode(data);
  }

  lemma {:induction false} SplitsBack(data: Bytes, version: Byte, nonce: Bytes, ciphertext: Bytes, mac: Bytes)
    requires version <= 2 && |nonce| == 32 && |mac| == 32 && data == [version] + nonce + ciphertext + mac
    requires MinPayload <= |data| <= MaxPayload
    ensures SplitPayload(data) == Ok(Payload(version, nonce, ciphertext, mac))
  {
    assert data[0] == version;
    assert data[1..33] == nonce && data[33..|data| - 32] == ciphertext && data[|data| - 32..] == mac;
  }

  /** A payload of permitted size, sent as base64, is split into the same parts. */
  lemma {:induction false} PayloadRoundTrip(data: Bytes, version: Byte, nonce: Bytes, ciphertext: Bytes, mac: Bytes)
    requires version <= 2 && |nonce| == 32 && |mac| == 32 && data == [version] + nonce + ciphertext + mac
    requires MinPayload <= |data| <= MaxPayload
    ensures DecodePayload(Base64.Encode(data)) == Ok(Payload(version, nonce, ciphertext, mac))
  {
    var text := TextOf(data);
    SizedTextDecodes(text, data);
    SplitsBack(data, version, nonce, ciphertext, mac);
  }

  /**
    * The message round trip: for every plaintext of 1 to 65535 bytes encryption succeeds with a payload of 99 to
    * 65603 bytes and 132 to 87472 characters, which the other party decrypts to the plaintext.
    */
  lemma {:induction false} MessageRoundTrip(c: Primitives, plaintext: Bytes, alice: Bytes, bob: Bytes, nonce: Bytes)
    requires Laws(c) && |nonce| == 32 && c.validPrivate(alice) && c.validPrivate(bob)
    requires MinPlaintext <= |plaintext| <= MaxPlaintext
    ensures var text := Encrypt(c, plaintext, alice, c.publicKey(bob), nonce);
            && text.Ok? && MinBase64Payload <= |text.value| <= MaxBase64Payload
            && Decrypt(c, text.value, bob, c.publicKey(alice)) == Ok(plaintext)
    ensures var keys := c.expand(c.sharedSecret(alice, c.publicKey(bob)), nonce);
            var ciphertext := c.chacha(keys.chachaKey, keys.chachaNonce, Pad(plaintext).value);
            DecodePayload(Encrypt(c, plaintext, alice, c.publicKey(bob), nonce).value)
              == Ok(Payload(2, nonce, ciphertext, c.hmac(keys.hmacKey, nonce + ciphertext)))
  {
    PayloadSizes(c, plaintext, alice, c.publicKey(bob), nonce);
    var keys := c.expand(c.sharedSecret(alice, c.publicKey(bob)), nonce);
    var padded := Pad(plaintext).value;
    var ciphertext := c.chacha(keys.chachaKey, keys.chachaNonce, padded);
    UnpadInvertsPad(plaintext);
    TextSizes(67 + PaddedLen(|plaintext|));
    PayloadRoundTrip(EncryptV2(c, plaintext, alice, c.publicKey(bob), nonce).value, 2, nonce, ciphertext,
                     c.hmac(keys.hmacKey, nonce + ciphertext));
  }

  // ---------------------------------------------------------------- which texts are decrypted

  /** Tabs, line ends, spaces and the byte order mark, as String.prototype.trim knows them. */
  predicate Blank(c: char) {
    c as int in {9, 10, 11, 12, 13, 32, 160, 5760, 8192, 8193, 8194, 8195, 8196, 8197, 8198, 8199, 8200, 8201, 8202,
                 8232, 8233, 8239, 8287, 12288, 65279}
  }

  lemma {:induction false} BlankIsSpace(c: char)
    ensures IsSpace(c) <==> Blank(c)
  {
  }

  lemma {:induction false} TrimsLead(lead: string, rest: string)
    requires (forall c :: c in lead ==> Blank(c)) && (rest == "" || !Blank(rest[0]))
    ensures TrimStart(lead + rest) == rest
    decreases |lead|
  {
    if lead == "" {
      assert lead + rest == rest;
      if rest != "" { BlankIsSpace(rest[0]); }
    } else {
      BlankIsSpace(lead[0]);
      assert (lead + rest)[1..] == lead[1..] + rest;
      TrimsLead(lead[1..], rest);
    }
  }

  lemma {:induction false} TrimsTrail(text: string, trail: string)
    requires (forall c :: c in trail ==> Blank(c)) && (text == "" || !Blank(text[|text| - 1]))
    ensures TrimEnd(text + trail) == text
    decreases |trail|
  {
    if trail == "" {
      assert text + trail == text;
      if text != "" { BlankIsSpace(text[|text| - 1]); }
    } else {
      var n := |trail| - 1;
      BlankIsSpace(trail[n]);
      assert (text + trail)[..|text| + n] == text + trail[..n];
      TrimsTrail(text, trail[..n]);
    }
  }

  /** The text of a payload: 132 to 87472 characters of base64 for 99 to 65603 bytes, the first at most 2. */
  predicate IsPayloadText(text: string, p: Payload) {
    && 132 <= |text| <= 87472 && ValidText(text)
    && var data := Base64.Decode(text);
       99 <= |data| <= 65603 && data[0] <= 2 && |p.nonce| == 32 && |p.mac| == 32
       && p.version == data[0] && data[1..] == p.nonce + p.ciphertext + p.mac
  }

  lemma {:induction false} SplitsExactly(data: Bytes, p: Payload)
    ensures SplitPayload(data) == Ok(p) <==>
              && 99 <= |data| <= 65603 && data[0] <= 2 && |p.nonce| == 32 && |p.mac| == 32
              && p.version == data[0] && data[1..] == p.nonce + p.ciphertext + p.mac
  {
    if 99 <= |data| <= 65603 && data[0] <= 2 {
      assert data[1..] == data[1..33] + data[33..|data| - 32] + data[|data| - 32..];
      if |p.nonce| == 32 && |p.mac| == 32 && data[1..] == p.nonce + p.ciphertext + p.mac {
        assert data[1..33] == data[1..][..32] == p.nonce;
        assert data[|data| - 32..] == data[1..][|data| - 33..] == p.mac;
        assert data[33..|data| - 32] == data[1..][32..|data| - 33] == p.ciphertext;
      }
    }
  }

  /** Which texts are split into which payloads: blanks before and after are ignored, and the rest is the text of it. */
  lemma {:induction false} DecodesExactly(lead: string, text: string, trail: string, p: Payload)
    requires forall c :: c in lead || c in trail ==> Blank(c)
    requires text != "" && !Blank(text[0]) && !Blank(text[|text| - 1])
    ensures DecodePayload(lead + text + trail) == Ok(p) <==> IsPayloadText(text, p)
  {
    assert lead + text + trail == lead + (text + trail);
    TrimsLead(lead, text + trail);
    TrimsTrail(text, trail);
    if ValidText(text) {
      TrimKeepsText(text);
      SplitsExactly(Base64.Decode(text), p);
    }
  }

  /** Which texts decrypt to which plaintexts, for a text without blanks around it: both keys are valid, the text is that
      of a payload, its MAC is that of nonce and ciphertext, and the decrypted bytes are the padded plaintext. */
  lemma {:induction false} DecryptsExactly(c: Primitives, text: string, privateKey: Bytes, publicKey: Bytes, plaintext: Bytes)
    requires Laws(c) && text != "" && !Blank(text[0]) && !Blank(text[|text| - 1])
    ensures Decrypt(c, text, privateKey, publicKey) == Ok(plaintext) <==>
              && c.validPrivate(privateKey) && c.validPublic(publicKey)
              && exists p :: IsPayloadText(text, p) &&
                   DecryptV2(c, p.ciphertext, p.nonce, p.mac, privateKey, publicKey) == Ok(plaintext)
  {
    assert "" + text + "" == text;
    forall p ensures DecodePayload(text) == Ok(p) <==> IsPayloadText(text, p) { DecodesExactly("", text, "", p); }
  }

  /** Decryption succeeds exactly when the MAC matches nonce and ciphertext and the padding is well formed. */
  lemma {:induction false} DecryptsOnlyAuthenticated(c: Primitives, p: Payload, privateKey: Bytes, publicKey: Bytes,
                                                     plaintext: Bytes)
    requires Laws(c)
    ensures var keys := c.expand(c.sharedSecret(privateKey, publicKey), p.nonce);
            DecryptV2(c, p.ciphertext, p.nonce, p.mac, privateKey, publicKey) == Ok(plaintext) <==>
              && p.mac == c.hmac(keys.hmacKey, p.nonce + p.ciphertext)
              && MinPlaintext <= |plaintext| <= MaxPlaintext && |p.ciphertext| == 2 + PaddedLen(|plaintext|)
              && [|plaintext| / 256, |plaintext| % 256] + plaintext
                   <= c.chacha(keys.chachaKey, keys.chachaNonce, p.ciphertext)
  {
    var keys := c.expand(c.sharedSecret(privateKey, publicKey), p.nonce);
    UnpadAcceptsExactly(c.chacha(keys.chachaKey, keys.chachaNonce, p.ciphertext), plaintext);
  }
}
