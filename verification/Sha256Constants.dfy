/**
 * The constants and functions of SHA-256 against their definitions in FIPS 180-4: the roots of the first primes (sections
 * 4.2.2 and 5.3.3), the bit functions (4.1.2), the padding (5.1.1), the rounds (6.2.2) and the big-endian words (3.1).
 */
module Sha256Constants {
  import opened Sha256

  // ----- The constants -----

  // The word is the first 32 bits of the fractional part of the cube root of p: the low ones of the root times 2^32.
  ghost predicate IsCubeRoot(p: nat, k: bv32) { exists n: nat :: k as int == n % 0x1_0000_0000 && EnclosesCube(p, n) }

  predicate EnclosesCube(p: nat, n: nat) { n * n * n <= p * 0x1_0000_0000_0000_0000_0000_0000 < (n + 1) * (n + 1) * (n + 1) }

  // The same of the square root.
  ghost predicate IsSquareRoot(p: nat, k: bv32) { exists n: nat :: k as int == n % 0x1_0000_0000 && EnclosesSquare(p, n) }

  predicate EnclosesSquare(p: nat, n: nat) { n * n <= p * 0x1_0000_0000_0000_0000 < (n + 1) * (n + 1) }

  // The first 64 primes.
  function Prime(i: nat): nat
    requires i < 64
  {
    match i
    case 0 => 2 case 1 => 3 case 2 => 5 case 3 => 7 case 4 => 11 case 5 => 13
    case 6 => 17 case 7 => 19 case 8 => 23 case 9 => 29 case 10 => 31 case 11 => 37
    case 12 => 41 case 13 => 43 case 14 => 47 case 15 => 53 case 16 => 59 case 17 => 61
    case 18 => 67 case 19 => 71 case 20 => 73 case 21 => 79 case 22 => 83 case 23 => 89
    case 24 => 97 case 25 => 101 case 26 => 103 case 27 => 107 case 28 => 109 case 29 => 113
    case 30 => 127 case 31 => 131 case 32 => 137 case 33 => 139 case 34 => 149 case 35 => 151
    case 36 => 157 case 37 => 163 case 38 => 167 case 39 => 173 case 40 => 179 case 41 => 181
    case 42 => 191 case 43 => 193 case 44 => 197 case 45 => 199 case 46 => 211 case 47 => 223
    case 48 => 227 case 49 => 229 case 50 => 233 case 51 => 239 case 52 => 241 case 53 => 251
    case 54 => 257 case 55 => 263 case 56 => 269 case 57 => 271 case 58 => 277 case 59 => 281
    case 60 => 283 case 61 => 293 case 62 => 307 case _ => 311
  }

  lemma CubeRoot(i: nat, p: nat, n: nat, k: bv32)
    requires i < 64 && Prime(i) == p && Constant(i) == k && k as int == n % 0x1_0000_0000 && EnclosesCube(p, n)
    ensures IsCubeRoot(Prime(i), Constant(i))
  {
    hide Prime, Constant;
  }

  lemma CubeRoots0(i: nat)
    requires 0 <= i < 8
    ensures IsCubeRoot(Prime(i), Constant(i))
  {
    hide IsCubeRoot;
    if i == 0 {
      CubeRoot(0, 2, 0x1_428a_2f98, 0x428a2f98);
    } else if i == 1 {
      CubeRoot(1, 3, 0x1_7137_4491, 0x71374491);
    } else if i == 2 {
      CubeRoot(2, 5, 0x1_b5c0_fbcf, 0xb5c0fbcf);
    } else if i == 3 {
      CubeRoot(3, 7, 0x1_e9b5_dba5, 0xe9b5dba5);
    } else if i == 4 {
      CubeRoot(4, 11, 0x2_3956_c25b, 0x3956c25b);
    } else if i == 5 {
      CubeRoot(5, 13, 0x2_59f1_11f1, 0x59f111f1);
    } else if i == 6 {
      CubeRoot(6, 17, 0x2_923f_82a4, 0x923f82a4);
    } else {
      CubeRoot(7, 19, 0x2_ab1c_5ed5, 0xab1c5ed5);
    }
  }

  lemma CubeRoots8(i: nat)
    requires 8 <= i < 16
    ensures IsCubeRoot(Prime(i), Constant(i))
  {
    hide IsCubeRoot;
    if i == 8 {
      CubeRoot(8, 23, 0x2_d807_aa98, 0xd807aa98);
    } else if i == 9 {
      CubeRoot(9, 29, 0x3_1283_5b01, 0x12835b01);
    } else if i == 10 {
      CubeRoot(10, 31, 0x3_2431_85be, 0x243185be);
    } else if i == 11 {
      CubeRoot(11, 37, 0x3_550c_7dc3, 0x550c7dc3);
    } else if i == 12 {
      CubeRoot(12, 41, 0x3_72be_5d74, 0x72be5d74);
    } else if i == 13 {
      CubeRoot(13, 43, 0x3_80de_b1fe, 0x80deb1fe);
    } else if i == 14 {
      CubeRoot(14, 47, 0x3_9bdc_06a7, 0x9bdc06a7);
    } else {
      CubeRoot(15, 53, 0x3_c19b_f174, 0xc19bf174);
    }
  }

  lemma CubeRoots16(i: nat)
    requires 16 <= i < 24
    ensures IsCubeRoot(Prime(i), Constant(i))
  {
    hide IsCubeRoot;
    if i == 16 {
      CubeRoot(16, 59, 0x3_e49b_69c1, 0xe49b69c1);
    } else if i == 17 {
      CubeRoot(17, 61, 0x3_efbe_4786, 0xefbe4786);
    } else if i == 18 {
      CubeRoot(18, 67, 0x4_0fc1_9dc6, 0x0fc19dc6);
    } else if i == 19 {
      CubeRoot(19, 71, 0x4_240c_a1cc, 0x240ca1cc);
    } else if i == 20 {
      CubeRoot(20, 73, 0x4_2de9_2c6f, 0x2de92c6f);
    } else if i == 21 {
      CubeRoot(21, 79, 0x4_4a74_84aa, 0x4a7484aa);
    } else if i == 22 {
      CubeRoot(22, 83, 0x4_5cb0_a9dc, 0x5cb0a9dc);
    } else {
      CubeRoot(23, 89, 0x4_76f9_88da, 0x76f988da);
    }
  }

  lemma CubeRoots24(i: nat)
    requires 24 <= i < 32
    ensures IsCubeRoot(Prime(i), Constant(i))
  {
    hide IsCubeRoot;
    if i == 24 {
      CubeRoot(24, 97, 0x4_983e_5152, 0x983e5152);
    } else if i == 25 {
      CubeRoot(25, 101, 0x4_a831_c66d, 0xa831c66d);
    } else if i == 26 {
      CubeRoot(26, 103, 0x4_b003_27c8, 0xb00327c8);
    } else if i == 27 {
      CubeRoot(27, 107, 0x4_bf59_7fc7, 0xbf597fc7);
    } else if i == 28 {
      CubeRoot(28, 109, 0x4_c6e0_0bf3, 0xc6e00bf3);
    } else if i == 29 {
      CubeRoot(29, 113, 0x4_d5a7_9147, 0xd5a79147);
    } else if i == 30 {
      CubeRoot(30, 127, 0x5_06ca_6351, 0x06ca6351);
    } else {
      CubeRoot(31, 131, 0x5_1429_2967, 0x14292967);
    }
  }

  lemma CubeRoots32(i: nat)
    requires 32 <= i < 40
    ensures IsCubeRoot(Prime(i), Constant(i))
  {
    hide IsCubeRoot;
    if i == 32 {
      CubeRoot(32, 137, 0x5_27b7_0a85, 0x27b70a85);
    } else if i == 33 {
      CubeRoot(33, 139, 0x5_2e1b_2138, 0x2e1b2138);
    } else if i == 34 {
      CubeRoot(34, 149, 0x5_4d2c_6dfc, 0x4d2c6dfc);
    } else if i == 35 {
      CubeRoot(35, 151, 0x5_5338_0d13, 0x53380d13);
    } else if i == 36 {
      CubeRoot(36, 157, 0x5_650a_7354, 0x650a7354);
    } else if i == 37 {
      CubeRoot(37, 163, 0x5_766a_0abb, 0x766a0abb);
    } else if i == 38 {
      CubeRoot(38, 167, 0x5_81c2_c92e, 0x81c2c92e);
    } else {
      CubeRoot(39, 173, 0x5_9272_2c85, 0x92722c85);
    }
  }

  lemma CubeRoots40(i: nat)
    requires 40 <= i < 48
    ensures IsCubeRoot(Prime(i), Constant(i))
  {
    hide IsCubeRoot;
    if i == 40 {
      CubeRoot(40, 179, 0x5_a2bf_e8a1, 0xa2bfe8a1);
    } else if i == 41 {
      CubeRoot(41, 181, 0x5_a81a_664b, 0xa81a664b);
    } else if i == 42 {
      CubeRoot(42, 191, 0x5_c24b_8b70, 0xc24b8b70);
    } else if i == 43 {
      CubeRoot(43, 193, 0x5_c76c_51a3, 0xc76c51a3);
    } else if i == 44 {
      CubeRoot(44, 197, 0x5_d192_e819, 0xd192e819);
    } else if i == 45 {
      CubeRoot(45, 199, 0x5_d699_0624, 0xd6990624);
    } else if i == 46 {
      CubeRoot(46, 211, 0x5_f40e_3585, 0xf40e3585);
    } else {
      CubeRoot(47, 223, 0x6_106a_a070, 0x106aa070);
    }
  }

  lemma CubeRoots48(i: nat)
    requires 48 <= i < 56
    ensures IsCubeRoot(Prime(i), Constant(i))
  {
    hide IsCubeRoot;
    if i == 48 {
      CubeRoot(48, 227, 0x6_19a4_c116, 0x19a4c116);
    } else if i == 49 {
      CubeRoot(49, 229, 0x6_1e37_6c08, 0x1e376c08);
    } else if i == 50 {
      CubeRoot(50, 233, 0x6_2748_774c, 0x2748774c);
    } else if i == 51 {
      CubeRoot(51, 239, 0x6_34b0_bcb5, 0x34b0bcb5);
    } else if i == 52 {
      CubeRoot(52, 241, 0x6_391c_0cb3, 0x391c0cb3);
    } else if i == 53 {
      CubeRoot(53, 251, 0x6_4ed8_aa4a, 0x4ed8aa4a);
    } else if i == 54 {
      CubeRoot(54, 257, 0x6_5b9c_ca4f, 0x5b9cca4f);
    } else {
      CubeRoot(55, 263, 0x6_682e_6ff3, 0x682e6ff3);
    }
  }

  lemma CubeRoots56(i: nat)
    requires 56 <= i < 64
    ensures IsCubeRoot(Prime(i), Constant(i))
  {
    hide IsCubeRoot;
    if i == 56 {
      CubeRoot(56, 269, 0x6_748f_82ee, 0x748f82ee);
    } else if i == 57 {
      CubeRoot(57, 271, 0x6_78a5_636f, 0x78a5636f);
    } else if i == 58 {
      CubeRoot(58, 277, 0x6_84c8_7814, 0x84c87814);
    } else if i == 59 {
      CubeRoot(59, 281, 0x6_8cc7_0208, 0x8cc70208);
    } else if i == 60 {
      CubeRoot(60, 283, 0x6_90be_fffa, 0x90befffa);
    } else if i == 61 {
      CubeRoot(61, 293, 0x6_a450_6ceb, 0xa4506ceb);
    } else if i == 62 {
      CubeRoot(62, 307, 0x6_bef9_a3f7, 0xbef9a3f7);
    } else {
      CubeRoot(63, 311, 0x6_c671_78f2, 0xc67178f2);
    }
  }

  /** Every constant is the first 32 bits of the fractional part of the cube root of its prime. */
  lemma ConstantsAreCubeRoots(i: nat)
    requires i < 64
    ensures IsCubeRoot(Prime(i), Constant(i))
  {
    hide IsCubeRoot, Prime, Constant;
    if i < 8 {
      CubeRoots0(i);
    } else if i < 16 {
      CubeRoots8(i);
    } else if i < 24 {
      CubeRoots16(i);
    } else if i < 32 {
      CubeRoots24(i);
    } else if i < 40 {
      CubeRoots32(i);
    } else if i < 48 {
      CubeRoots40(i);
    } else if i < 56 {
      CubeRoots48(i);
    } else {
      CubeRoots56(i);
    }
  }

  lemma SquareRoot(p: nat, n: nat, k: bv32)
    requires k as int == n % 0x1_0000_0000 && EnclosesSquare(p, n)
    ensures IsSquareRoot(p, k)
  {
  }

  /** The initial state holds those of the square roots of the first eight primes. */
  lemma InitialIsSquareRoots()
    ensures var v := INITIAL;
            && IsSquareRoot(Prime(0), v.a) && IsSquareRoot(Prime(1), v.b) && IsSquareRoot(Prime(2), v.c) && IsSquareRoot(Prime(3), v.d)
            && IsSquareRoot(Prime(4), v.e) && IsSquareRoot(Prime(5), v.f) && IsSquareRoot(Prime(6), v.g) && IsSquareRoot(Prime(7), v.h)
  {
    hide IsSquareRoot;
    SquareRoot(2, 0x1_6a09_e667, 0x6a09e667);
    SquareRoot(3, 0x1_bb67_ae85, 0xbb67ae85);
    SquareRoot(5, 0x2_3c6e_f372, 0x3c6ef372);
    SquareRoot(7, 0x2_a54f_f53a, 0xa54ff53a);
    SquareRoot(11, 0x3_510e_527f, 0x510e527f);
    SquareRoot(13, 0x3_9b05_688c, 0x9b05688c);
    SquareRoot(17, 0x4_1f83_d9ab, 0x1f83d9ab);
    SquareRoot(19, 0x4_5be0_cd19, 0x5be0cd19);
  }

  // ----- The functions -----

  /** Ch takes each bit from y where x has a one and from z where it has none; Maj takes the majority. */
  lemma ChChooses(x: bv32, y: bv32, z: bv32)
    ensures Ch(x, y, z) & x == y & x && Ch(x, y, z) & !x == z & !x
  {
  }

  lemma MajIsMajority(x: bv32, y: bv32, z: bv32)
    ensures Maj(x, y, z) == (x & y) | (x & z) | (y & z)
  {
  }

  /** The four sums of section 4.1.2, with the rotations of section 3.2 written as shifts. */
  lemma SigmasRotate(x: bv32)
    ensures BigSigma0(x) == ((x >> 2) | (x << 30)) ^ ((x >> 13) | (x << 19)) ^ ((x >> 22) | (x << 10))
    ensures BigSigma1(x) == ((x >> 6) | (x << 26)) ^ ((x >> 11) | (x << 21)) ^ ((x >> 25) | (x << 7))
    ensures SmallSigma0(x) == ((x >> 7) | (x << 25)) ^ ((x >> 18) | (x << 14)) ^ (x >> 3)
    ensures SmallSigma1(x) == ((x >> 17) | (x << 15)) ^ ((x >> 19) | (x << 13)) ^ (x >> 10)
  {
  }

  /** One round is step 3 of section 6.2.2, equation by equation; Add wraps at 2^32. */
  lemma RoundEquations(start: State, w: seq<bv32>, t: nat)
    requires |w| == 64 && t < 64
    ensures var v, next := Rounds(start, w, t), Rounds(start, w, t + 1);
            var t1 := Add(Add(Add(Add(v.h, BigSigma1(v.e)), Ch(v.e, v.f, v.g)), Constant(t)), w[t]);
            var t2 := Add(BigSigma0(v.a), Maj(v.a, v.b, v.c));
            && next.h == v.g && next.g == v.f && next.f == v.e && next.e == Add(v.d, t1)
            && next.d == v.c && next.c == v.b && next.b == v.a && next.a == Add(t1, t2)
    ensures Rounds(start, w, 0) == start
  {
    hide BigSigma0, BigSigma1, Ch, Maj, Constant, Add;
  }

  /** A block of the message is step 4: the working variables after 64 rounds are added to the hash value before it. */
  lemma BlockEquations(data: seq<bv8>, block: seq<bv8>)
    requires |data| % 64 == 0 && |block| == 64
    ensures var before, after := CompressAll(data), CompressAll(data + block);
            var v := Rounds(before, Schedule(block, 64), 64);
            && after.a == Add(v.a, before.a) && after.b == Add(v.b, before.b) && after.c == Add(v.c, before.c) && after.d == Add(v.d, before.d)
            && after.e == Add(v.e, before.e) && after.f == Add(v.f, before.f) && after.g == Add(v.g, before.g) && after.h == Add(v.h, before.h)
    ensures CompressAll([]) == INITIAL
  {
    hide Rounds, Schedule, Add;
    assert (data + block)[..|data|] == data && (data + block)[|data|..] == block;
    var before := CompressAll(data);
    var v := Rounds(before, Schedule(block, 64), 64);
    AddCommutes(before.a, v.a);
    AddCommutes(before.b, v.b);
    AddCommutes(before.c, v.c);
    AddCommutes(before.d, v.d);
    AddCommutes(before.e, v.e);
    AddCommutes(before.f, v.f);
    AddCommutes(before.g, v.g);
    AddCommutes(before.h, v.h);
  }

  /** Padding is section 5.1.1: a one bit, the fewest zeros that leave 64 bits, and the length in bits, most significant byte first. */
  lemma PaddingEquations(message: seq<bv8>, k: nat)
    requires k < 64 && (|message| + 1 + k) % 64 == 56
    ensures var p, bits := Padded(message), 8 * |message| % 0x1_0000_0000_0000_0000;
            && |p| == |message| + 1 + k + 8 && p[..|message|] == message && p[|message|] == 0x80
            && (forall i :: |message| < i <= |message| + k ==> p[i] == 0)
            && forall j :: 0 <= j < 8 ==> LastEight(p)[j] == (bits / Power256(7 - j) % 256) as bv8
  {
    hide BigEndian, Power256, Padded, LastEight;
    PaddedParts(message, k);
    LengthBytes(8 * |message| % 0x1_0000_0000_0000_0000);
  }

  lemma PaddedParts(message: seq<bv8>, k: nat)
    requires k < 64 && (|message| + 1 + k) % 64 == 56
    ensures var p := Padded(message);
            && |p| == |message| + 1 + k + 8 && p[..|message|] == message && p[|message|] == 0x80
            && (forall i :: |message| < i <= |message| + k ==> p[i] == 0)
            && LastEight(p) == BigEndian(8 * |message| % 0x1_0000_0000_0000_0000, 8)
  {
    hide BigEndian;
    FewestZeros(|message|, k);
  }

  lemma LengthBytes(n: nat)
    requires n < 0x1_0000_0000_0000_0000
    ensures forall j :: 0 <= j < 8 ==> BigEndian(n, 8)[j] == (n / Power256(7 - j) % 256) as bv8
  {
    hide BigEndian, Power256;
    forall j | 0 <= j < 8
      ensures BigEndian(n, 8)[j] == (n / Power256(7 - j) % 256) as bv8
    {
      BigEndianAt(n, 8, j);
    }
  }

  function LastEight(p: seq<bv8>): (bytes: seq<bv8>)
    requires |p| >= 8
    ensures |bytes| == 8
  {
    p[|p| - 8..]
  }

  lemma FewestZeros(length: nat, k: nat)
    requires k < 64 && (length + 1 + k) % 64 == 56
    ensures PaddingZeros(length) == k
  {
  }

  function Power256(n: nat): (p: nat)
    ensures p > 0
  {
    if n == 0 then 1 else 256 * Power256(n - 1)
  }

  lemma Multiply(a: int, b: int, d: nat)
    requires a <= b
    ensures a * d <= b * d
  {
  }

  lemma Quotient(n: nat, d: nat, q: nat)
    requires d > 0 && q * d <= n < (q + 1) * d
    ensures n / d == q
  {
    var r := n / d;
    assert r * d <= n < r * d + d;
    assert (q + 1) * d == q * d + d && (r + 1) * d == r * d + d;
    if r < q {
      Multiply(r + 1, q, d);
    } else if q < r {
      Multiply(q + 1, r, d);
    }
  }

  lemma DivideTwice(n: nat, p: nat)
    requires p > 0
    ensures n / 256 / p == n / (256 * p)
  {
    var q := n / 256 / p;
    assert q * p <= n / 256 < (q + 1) * p;
    assert q * (256 * p) == 256 * (q * p) && (q + 1) * (256 * p) == 256 * ((q + 1) * p);
    Quotient(n, 256 * p, q);
  }

  lemma {:induction false} BigEndianAt(n: nat, width: nat, j: nat)
    requires j < width
    ensures BigEndian(n, width)[j] == (n / Power256(width - 1 - j) % 256) as bv8
  {
    if j < width - 1 {
      BigEndianAt(n / 256, width - 1, j);
      DivideTwice(n, Power256(width - 2 - j));
    }
  }

  /** Words are read and written with the most significant byte first, and writing undoes reading. */
  lemma WordsAreBigEndian(b0: bv8, b1: bv8, b2: bv8, b3: bv8)
    ensures WordBytes(BigEndianWord(b0, b1, b2, b3)) == [b0, b1, b2, b3]
    ensures BigEndianWord(b0, b1, b2, b3) >> 24 == b0 as bv32 && BigEndianWord(b0, b1, b2, b3) & 0xff == b3 as bv32
    ensures (BigEndianWord(b0, b1, b2, b3) >> 16) & 0xff == b1 as bv32
  {
  }
}
