/** Proof of work: leading zero bits of a digest, and the search for a nonce.
    The digest is any function of the nonce to a byte string. */
module ProofOfWork {
  type byte = b: nat | b < 256

  /** `Math.clz32(b) - 24` for a byte. */
  function LeadingZerosOfByte(b: byte): nat {
    if b >= 128 then 0 else if b >= 64 then 1 else if b >= 32 then 2 else if b >= 16 then 3
    else if b >= 8 then 4 else if b >= 4 then 5 else if b >= 2 then 6 else if b >= 1 then 7 else 8
  }

  /** The leading zero bits of a byte string, by its first nonzero byte. */
  function ZeroBits(buf: seq<byte>): nat {
    if buf == [] then 0
    else if buf[0] == 0 then 8 + ZeroBits(buf[1..])
    else LeadingZerosOfByte(buf[0])
  }

  method LeadingZeroBits(buf: seq<byte>) returns (n: nat)
    ensures n == ZeroBits(buf)
  {
    n := 0;
    for i := 0 to |buf|
      invariant n + ZeroBits(buf[i..]) == ZeroBits(buf)
    {
      assert buf[i..][1..] == buf[i + 1..];
      if buf[i] == 0 { n := n + 8; continue; }
      n := n + LeadingZerosOfByte(buf[i]);
      return;
    }
  }

  function Pow2(n: nat): nat { if n == 0 then 1 else 2 * Pow2(n - 1) }

  /** The byte string read as a big-endian number. */
  function BigEndian(buf: seq<byte>): nat {
    if buf == [] then 0 else buf[0] * Pow2(8 * (|buf| - 1)) + BigEndian(buf[1..])
  }

  lemma {:induction false} Pow2Add(a: nat, b: nat)
    ensures Pow2(a + b) == Pow2(a) * Pow2(b)
  {
    if a == 0 {
    } else {
      Pow2Add(a - 1, b);
    }
  }

  lemma {:induction false} Pow2Positive(n: nat)
    ensures Pow2(n) >= 1
  {
    if n == 0 {
    } else {
      Pow2Positive(n - 1);
    }
  }

  lemma {:induction false} Pow2Grows(a: nat, b: nat)
    requires a <= b
    ensures Pow2(a) <= Pow2(b)
  {
    Pow2Add(a, b - a);
    Pow2Positive(a);
    Pow2Positive(b - a);
    Scaled(1, Pow2(b - a), Pow2(a));
  }

  lemma Scaled(a: nat, b: nat, k: nat)
    requires a <= b
    ensures a * k <= b * k
  {
  }

  lemma {:induction false} BigEndianBound(buf: seq<byte>)
    ensures BigEndian(buf) < Pow2(8 * |buf|)
  {
    if buf == [] {
    } else {
      var k := Pow2(8 * (|buf| - 1));
      BigEndianBound(buf[1..]);
      Pow2Add(8, 8 * (|buf| - 1));
      assert Pow2(8) == 256;
      Scaled(buf[0], 255, k);
    }
  }

  /** A further byte is the lowest one. */
  lemma {:induction false} BigEndianPush(buf: seq<byte>, b: byte)
    ensures BigEndian(buf + [b]) == 256 * BigEndian(buf) + b
  {
    if buf == [] {
      assert buf + [b] == [b] && [b][1..] == [];
    } else {
      assert (buf + [b])[1..] == buf[1..] + [b];
      BigEndianPush(buf[1..], b);
      Pow2Add(8, 8 * (|buf| - 1));
      assert Pow2(8) == 256;
      Shifted(buf[0], Pow2(8 * (|buf| - 1)));
    }
  }

  lemma Shifted(a: nat, k: nat)
    ensures a * (256 * k) == 256 * (a * k)
  {
  }

  lemma ByteZeros(b: byte, d: nat)
    requires d <= 8
    ensures LeadingZerosOfByte(b) >= d <==> b < Pow2(8 - d)
  {
    assert Pow2(0) == 1 && Pow2(1) == 2 && Pow2(2) == 4 && Pow2(3) == 8 && Pow2(4) == 16
           && Pow2(5) == 32 && Pow2(6) == 64 && Pow2(7) == 128 && Pow2(8) == 256;
  }

  lemma Leading(b: nat, p: nat, k: nat, r: nat)
    requires r < k
    ensures b * k + r < p * k <==> b < p
  {
    if b < p { Scaled(b + 1, p, k); } else { Scaled(p, b, k); }
  }

  lemma NonzeroByteDecides(buf: seq<byte>, d: nat)
    requires buf != [] && buf[0] != 0 && d <= 8 * |buf|
    ensures LeadingZerosOfByte(buf[0]) >= d <==> BigEndian(buf) < Pow2(8 * |buf| - d)
  {
    var rest := buf[1..];
    var k := Pow2(8 * |rest|);
    BigEndianBound(rest);
    if d > 8 {
      Pow2Grows(8 * |buf| - d, 8 * |rest|);
      Scaled(1, buf[0], k);
    } else {
      ByteZeros(buf[0], d);
      Pow2Add(8 - d, 8 * |rest|);
      Leading(buf[0], Pow2(8 - d), k, BigEndian(rest));
    }
  }

  /** A digest has at least `d` leading zero bits exactly when, as a number, it is
      below 2^(8n - d). */
  lemma {:induction false} ZeroBitsAreASmallNumber(buf: seq<byte>, d: nat)
    requires d <= 8 * |buf|
    ensures ZeroBits(buf) >= d <==> BigEndian(buf) < Pow2(8 * |buf| - d)
  {
    if buf == [] {
    } else if buf[0] != 0 {
      NonzeroByteDecides(buf, d);
    } else if d >= 8 {
      ZeroBitsAreASmallNumber(buf[1..], d - 8);
    } else {
      BigEndianBound(buf[1..]);
      Pow2Grows(8 * |buf[1..]|, 8 * |buf| - d);
    }
  }

  predicate Solves(digest: nat -> seq<byte>, difficulty: nat, n: nat) {
    ZeroBits(digest(n)) >= difficulty
  }

  /** A nonce solves exactly when its digest is small enough. */
  lemma SolvesExactly(digest: nat -> seq<byte>, difficulty: nat, n: nat)
    requires difficulty <= 8 * |digest(n)|
    ensures Solves(digest, difficulty, n) <==> BigEndian(digest(n)) < Pow2(8 * |digest(n)| - difficulty)
  {
    ZeroBitsAreASmallNumber(digest(n), difficulty);
  }

  /** When the search stops, it stops at the least nonce that solves. `solution` is
      any solving nonce: the search has no bound of its own. */
  method SolvePow(digest: nat -> seq<byte>, difficulty: nat, ghost solution: nat) returns (n: nat)
    requires Solves(digest, difficulty, solution)
    ensures Solves(digest, difficulty, n)
    ensures forall m :: 0 <= m < n ==> !Solves(digest, difficulty, m)
  {
    n := 0;
    while true
      invariant n <= solution
      invariant forall m :: 0 <= m < n ==> !Solves(digest, difficulty, m)
      decreases solution - n
    {
      var bits := LeadingZeroBits(digest(n));
      if bits >= difficulty { return; }
      n := n + 1;
    }
  }
}
