/**
 The chunked AES-GCM file format of cmd/hyperexport/encryption.go.

 An encrypted file is a 12-byte starting nonce followed by frames.  A frame is a
 4-byte big-endian length and that many bytes of sealed chunk.  Chunk i is sealed
 under the starting nonce incremented i times.  Seal and Open are parameters.
 */
module Encryption {
  import opened Wrappers
  import opened ByteStrings

  const NONCE_SIZE := 12
  const OVERHEAD := 16
  const MAX_CHUNK := 65536

  // ---------------------------------------------------------------- counter nonce

  function BigEndian(s: Bytes): nat {
    if s == [] then 0 else 256 * BigEndian(s[..|s| - 1]) + s[|s| - 1] as nat
  }

  function Pow256(n: nat): (p: nat)
    ensures p > 0
  {
    if n == 0 then 1 else 256 * Pow256(n - 1)
  }

  /** The nonce that follows `s`: the last byte is bumped and a carry moves left. */
  function Successor(s: Bytes): (r: Bytes)
    ensures |r| == |s|
  {
    if s == [] then []
    else if s[|s| - 1] == 255 then Successor(s[..|s| - 1]) + [0]
    else s[..|s| - 1] + [s[|s| - 1] + 1]
  }

  /** The nonce of chunk `i`. */
  function NonceAt(s: Bytes, i: nat): (r: Bytes)
    ensures |r| == |s|
    decreases i
  {
    if i == 0 then s else NonceAt(Successor(s), i - 1)
  }

  lemma {:induction false} BigEndianBound(s: Bytes)
    ensures BigEndian(s) < Pow256(|s|)
  {
    if s != [] {
      BigEndianBound(s[..|s| - 1]);
    }
  }

  /** Equal-length byte strings with the same value are the same. */
  lemma {:induction false} BigEndianInjective(a: Bytes, b: Bytes)
    requires |a| == |b| && BigEndian(a) == BigEndian(b)
    ensures a == b
  {
    if a != [] {
      var n := |a| - 1;
      assert 256 * (BigEndian(a[..n]) - BigEndian(b[..n])) == b[n] as int - a[n] as int;
      BigEndianInjective(a[..n], b[..n]);
      assert a == a[..n] + [a[n]] && b == b[..n] + [b[n]];
    }
  }

  lemma ModUnique(x: int, m: nat, q: int, r: nat)
    requires r < m && x == q * m + r
    ensures x % m == r
  {
    var d := q - x / m;
    assert d * m == x % m - r;
    assert d >= 1 ==> d * m >= m;
    assert d <= -1 ==> d * m + m <= 0;
  }

  /** Stepping over the wrap-around point: b + 1 == m behaves as zero. */
  lemma ModWrap(b: nat, i: nat, m: nat)
    requires b + 1 == m && i > 0
    ensures (b + i) % m == (i - 1) % m
  {
    var q, r := (i - 1) / m, (i - 1) % m;
    assert b + i == (q + 1) * m + r;
    ModUnique(b + i, m, q + 1, r);
  }

  lemma ModFixed(b: nat, d: nat, m: nat)
    requires b < m
    ensures (b + d) % m == b <==> d % m == 0
  {
    var q, r := d / m, d % m;
    assert d == q * m + r;
    if b + r < m {
      ModUnique(b + d, m, q, b + r);
    } else {
      assert b + d == (q + 1) * m + (b + r - m);
      ModUnique(b + d, m, q + 1, b + r - m);
    }
  }

  /** One increment adds one to the value, wrapping at 256^len. */
  lemma {:induction false} SuccessorValue(s: Bytes)
    ensures BigEndian(Successor(s)) == if BigEndian(s) + 1 == Pow256(|s|) then 0 else BigEndian(s) + 1
  {
    if s != [] {
      var n := |s| - 1;
      SuccessorValue(s[..n]);
      BigEndianBound(s[..n]);
      var r := Successor(s);
      assert r[..n] == if s[n] == 255 then Successor(s[..n]) else s[..n];
    }
  }

  /** The nonce of chunk i has value (start + i) mod 256^len. */
  lemma {:induction false} NonceAtValue(s: Bytes, i: nat)
    ensures BigEndian(NonceAt(s, i)) == (BigEndian(s) + i) % Pow256(|s|)
    decreases i
  {
    var m, b := Pow256(|s|), BigEndian(s);
    BigEndianBound(s);
    if i == 0 {
      ModUnique(b, m, 0, b);
    } else {
      SuccessorValue(s);
      NonceAtValue(Successor(s), i - 1);
      if b + 1 == m {
        ModWrap(b, i, m);
      }
    }
  }

  /** Incrementing is addition of one modulo 256^len. */
  lemma SuccessorIsPlusOne(s: Bytes)
    ensures BigEndian(Successor(s)) == (BigEndian(s) + 1) % Pow256(|s|)
  {
    NonceAtValue(s, 1);
    assert NonceAt(s, 1) == Successor(s);
  }

  lemma {:induction false} NonceAtAdd(s: Bytes, i: nat, d: nat)
    ensures NonceAt(s, i + d) == NonceAt(NonceAt(s, i), d)
    decreases i
  {
    if i > 0 {
      NonceAtAdd(Successor(s), i - 1, d);
    }
  }

  /** Two chunks share a nonce exactly when they are a multiple of 256^len apart. */
  lemma NonceReuse(s: Bytes, i: nat, j: nat)
    requires i <= j
    ensures NonceAt(s, i) == NonceAt(s, j) <==> (j - i) % Pow256(|s|) == 0
  {
    var t, d, m := NonceAt(s, i), j - i, Pow256(|s|);
    NonceAtAdd(s, i, d);
    NonceAtValue(t, d);
    BigEndianBound(t);
    ModFixed(BigEndian(t), d, m);
    if d % m == 0 {
      BigEndianInjective(NonceAt(t, d), t);
    }
  }

  /** The nonces of one file are pairwise distinct for at most 256^12 = 2^96 chunks. */
  lemma NoncesOfFileDistinct(s: Bytes, i: nat, j: nat)
    requires |s| == NONCE_SIZE
    requires i < j < 0x1_0000_0000_0000_0000_0000_0000
    ensures NonceAt(s, i) != NonceAt(s, j)
  {
    assert Pow256(4) == 0x1_0000_0000;
    assert Pow256(8) == 0x1_0000_0000_0000_0000;
    assert Pow256(12) == 0x1_0000_0000_0000_0000_0000_0000;
    NonceReuse(s, i, j);
    ModUnique(j - i, Pow256(12), 0, j - i);
  }

  /** Two files under one key: one of the first p chunks of s and one of the first q of t share a nonce. */
  ghost predicate ShareNonce(s: Bytes, p: nat, t: Bytes, q: nat) {
    exists i: nat, j: nat :: i < p && j < q && NonceAt(s, i) == NonceAt(t, j)
  }

  /** How far t lies ahead of s on the wheel of 256^len nonces. */
  function Ahead(s: Bytes, t: Bytes): nat { Gap(BigEndian(s), BigEndian(t), Pow256(|s|)) }

  function Gap(a: int, b: int, m: nat): nat
    requires m > 0
  {
    (b - a) % m
  }

  lemma ModAhead(a: int, b: nat, m: nat)
    requires b < m
    ensures (a + Gap(a, b, m)) % m == b
  {
    var k, d := (b - a) / m, (b - a) % m;
    assert b - a == k * m + d;
    ModUnique(a + d, m, -k, b);
  }

  lemma SameRemainder(x: int, y: int, m: nat)
    requires m > 0 && x % m == y % m
    ensures y - x == (y / m) * m - (x / m) * m
  {
  }

  lemma ModApart(a: int, b: int, m: nat, x: int, y: int, r: nat)
    requires m > 0 && b - a == x * m - y * m + r
    ensures Gap(a, b, m) <= r
  {
    var z := r / m;
    assert b - a == (x - y + z) * m + r % m;
    ModUnique(b - a, m, x - y + z, r % m);
  }

  lemma AheadMeets(s: Bytes, t: Bytes)
    requires |s| == |t|
    ensures NonceAt(s, Ahead(s, t)) == t
  {
    BigEndianBound(t);
    NonceAtValue(s, Ahead(s, t));
    hide BigEndian, Pow256, NonceAt, Gap;
    ModAhead(BigEndian(s), BigEndian(t), Pow256(|s|));
    BigEndianInjective(NonceAt(s, Ahead(s, t)), t);
  }

  lemma AheadIsLeast(s: Bytes, i: nat, t: Bytes, j: nat)
    requires |s| == |t| && j <= i && NonceAt(s, i) == NonceAt(t, j)
    ensures Ahead(s, t) <= i - j
  {
    var a, b, m := BigEndian(s), BigEndian(t), Pow256(|s|);
    NonceAtValue(s, i);
    NonceAtValue(t, j);
    BigEndianBound(t);
    hide BigEndian, Pow256, NonceAt, Gap;
    SameRemainder(a + i, b + j, m);
    ModApart(a, b, m, (b + j) / m, (a + i) / m, i - j);
  }

  /**
   A passphrase always derives the same key, so two files can share nonces even where each
   alone does not: exactly when one start lies closer behind the other than its file is long.
   */
  lemma FilesShareNonceIff(s: Bytes, p: nat, t: Bytes, q: nat)
    requires |s| == |t|
    ensures ShareNonce(s, p, t, q) <==> p > 0 && q > 0 && (Ahead(s, t) < p || Ahead(t, s) < q)
  {
    AheadMeets(s, t);
    AheadMeets(t, s);
    assert NonceAt(s, 0) == s && NonceAt(t, 0) == t;
    hide NonceAt, Ahead;
    if ShareNonce(s, p, t, q) {
      var i: nat, j: nat :| i < p && j < q && NonceAt(s, i) == NonceAt(t, j);
      if j <= i {
        AheadIsLeast(s, i, t, j);
      } else {
        AheadIsLeast(t, j, s, i);
      }
    }
  }

  /** Bumping byte i after a run of wrapped bytes is the successor (i is -1 when all wrapped). */
  lemma {:induction false} SuccessorPointwise(s: Bytes, r: Bytes, i: int)
    requires |r| == |s| && -1 <= i < |s|
    requires forall j :: 0 <= j < i ==> r[j] == s[j]
    requires i >= 0 ==> s[i] != 255 && r[i] == s[i] + 1
    requires forall j :: i < j < |s| ==> s[j] == 255 && r[j] == 0
    ensures r == Successor(s)
  {
    var n := |s| - 1;
    if n >= 0 && i < n {
      SuccessorPointwise(s[..n], r[..n], i);
      assert r == r[..n] + [r[n]];
    }
  }

  /** Byte i is one more, those behind it wrapped to zero, and those before it are as they were. */
  ghost predicate BumpedAt(s: Bytes, r: Bytes, i: int) {
    && |r| == |s| && -1 <= i < |s|
    && (forall j :: 0 <= j < i ==> r[j] == s[j])
    && (i >= 0 ==> s[i] != 255 && r[i] == s[i] + 1)
    && (forall j :: i < j < |s| ==> s[j] == 255 && r[j] == 0)
  }

  /** In-place increment, low byte last, stopping at the first byte that does not wrap. */
  method IncrementNonce(nonce: array<Byte>)
    modifies nonce
    ensures nonce[..] == Successor(old(nonce[..]))
    ensures BigEndian(nonce[..]) == (BigEndian(old(nonce[..])) + 1) % Pow256(nonce.Length)
    ensures exists i :: -1 <= i < nonce.Length && BumpedAt(old(nonce[..]), nonce[..], i)
  {
    hide BigEndian, Pow256, Successor;
    var i := nonce.Length - 1;
    while i >= 0
      invariant -1 <= i < nonce.Length
      invariant forall j :: 0 <= j <= i ==> nonce[j] == old(nonce[j])
      invariant forall j :: i < j < nonce.Length ==> old(nonce[j]) == 255 && nonce[j] == 0
    {
      nonce[i] := if nonce[i] == 255 then 0 else nonce[i] + 1;
      if nonce[i] != 0 {
        break;
      }
      i := i - 1;
    }
    assert BumpedAt(old(nonce[..]), nonce[..], i);
    SuccessorPointwise(old(nonce[..]), nonce[..], i);
    SuccessorIsPlusOne(old(nonce[..]));
  }

  // ---------------------------------------------------------------- frames

  /** The AEAD of one key: seal(nonce, plaintext) and open(nonce, ciphertext). */
  datatype Cipher = Cipher(seal: (Bytes, Bytes) -> Bytes, open: (Bytes, Bytes) -> Option<Bytes>)

  /** What AES-GCM guarantees here: a 16-byte tag, and Open inverts Seal. */
  ghost predicate Lawful(c: Cipher) {
    forall n: Bytes, p: Bytes :: |n| == NONCE_SIZE ==>
      |c.seal(n, p)| == |p| + OVERHEAD && c.open(n, c.seal(n, p)) == Some(p)
  }

  ghost predicate ChunksFit(chunks: seq<Bytes>) {
    forall i :: 0 <= i < |chunks| ==> 0 < |chunks[i]| <= MAX_CHUNK
  }

  function SizeBytes(n: nat): (r: Bytes)
    ensures |r| == 4
  {
    [(n / 0x100_0000 % 256) as Byte, (n / 0x1_0000 % 256) as Byte, (n / 0x100 % 256) as Byte, (n % 256) as Byte]
  }

  function SizeOf(b: Bytes): nat
    requires |b| == 4
  {
    b[0] as nat * 0x100_0000 + b[1] as nat * 0x1_0000 + b[2] as nat * 0x100 + b[3] as nat
  }

  /** The length field survives the trip exactly when the length fits 32 bits. */
  lemma SizeRoundTrip(n: nat)
    ensures SizeOf(SizeBytes(n)) == n <==> n < 0x1_0000_0000
  {
    var a, b, c := n / 0x100, n / 0x1_0000, n / 0x100_0000;
    assert a == 256 * (a / 256) + a % 256 && a / 256 == b;
    assert b == 256 * (b / 256) + b % 256 && b / 256 == c;
    assert c == 256 * (c / 256) + c % 256;
  }

  /** High byte first: the last byte counts one, each byte before it 256 times the next. */
  lemma BigEndianMeans(s: Bytes, x: Byte)
    ensures BigEndian([]) == 0 && BigEndian(s + [x]) == 256 * BigEndian(s) + x as nat
  {
    assert (s + [x])[..|s|] == s;
  }

  /** The four size bytes are the length in that order. */
  lemma SizeIsBigEndian(b: Bytes)
    requires |b| == 4
    ensures SizeOf(b) == BigEndian(b)
  {
    hide BigEndian;
    var p, q, r := [b[0]], [b[0], b[1]], [b[0], b[1], b[2]];
    assert [] + [b[0]] == p && p + [b[1]] == q && q + [b[2]] == r && r + [b[3]] == b;
    BigEndianMeans([], b[0]);
    BigEndianMeans(p, b[1]);
    BigEndianMeans(q, b[2]);
    BigEndianMeans(r, b[3]);
  }

  function Frame(c: Cipher, nonce: Bytes, chunk: Bytes): Bytes {
    SizeBytes(|c.seal(nonce, chunk)|) + c.seal(nonce, chunk)
  }

  function Frames(c: Cipher, nonce: Bytes, chunks: seq<Bytes>): Bytes
    decreases |chunks|
  {
    if chunks == [] then []
    else Frame(c, nonce, chunks[0]) + Frames(c, Successor(nonce), chunks[1..])
  }

  function Encrypted(c: Cipher, nonce: Bytes, chunks: seq<Bytes>): Bytes {
    nonce + Frames(c, nonce, chunks)
  }

  function Joined(chunks: seq<Bytes>): Bytes {
    if chunks == [] then [] else chunks[0] + Joined(chunks[1..])
  }

  datatype Outcome = Success | NonceTruncated | SizeTruncated | ChunkTruncated | OpenFailed

  /** What the decrypter wrote before it stopped, and how it stopped. */
  datatype Decrypted = Decrypted(plain: Bytes, outcome: Outcome)

  function DecryptFrames(c: Cipher, nonce: Bytes, s: Bytes): Decrypted
    decreases |s|
  {
    if s == [] then Decrypted([], Success)
    else if |s| < 4 then Decrypted([], SizeTruncated)
    else
      var size := SizeOf(s[..4]);
      if |s| - 4 < size then Decrypted([], ChunkTruncated)
      else match c.open(nonce, s[4..4 + size])
        case None => Decrypted([], OpenFailed)
        case Some(p) =>
          var rest := DecryptFrames(c, Successor(nonce), s[4 + size..]);
          Decrypted(p + rest.plain, rest.outcome)
  }

  function Decrypt(c: Cipher, s: Bytes): Decrypted {
    if |s| < NONCE_SIZE then Decrypted([], NonceTruncated)
    else DecryptFrames(c, s[..NONCE_SIZE], s[NONCE_SIZE..])
  }

  /** Byte offset, after the nonce, at which the first `m` frames end. */
  function FrameEnd(chunks: seq<Bytes>, m: nat): nat
    requires m <= |chunks|
  {
    if m == 0 then 0 else 4 + OVERHEAD + |chunks[0]| + FrameEnd(chunks[1..], m - 1)
  }

  // ---------------------------------------------------------------- truncation and round trip

  /** The first frame of a stream is parsed back, and parsing goes on behind it. */
  lemma ParseFrame(c: Cipher, nonce: Bytes, chunk: Bytes, rest: Bytes)
    requires Lawful(c) && |nonce| == NONCE_SIZE && |chunk| <= MAX_CHUNK
    ensures |Frame(c, nonce, chunk)| == 4 + OVERHEAD + |chunk|
    ensures var d := DecryptFrames(c, Successor(nonce), rest);
      DecryptFrames(c, nonce, Frame(c, nonce, chunk) + rest) == Decrypted(chunk + d.plain, d.outcome)
  {
    var ct := c.seal(nonce, chunk);
    var s := Frame(c, nonce, chunk) + rest;
    SizeRoundTrip(|ct|);
    assert s[..4] == SizeBytes(|ct|);
    assert s[4..4 + |ct|] == ct;
    assert s[4 + |ct|..] == rest;
  }

  /** A stream cut inside its first frame yields nothing and an error. */
  lemma ParseCutFrame(c: Cipher, nonce: Bytes, chunk: Bytes, k: nat)
    requires Lawful(c) && |nonce| == NONCE_SIZE && |chunk| <= MAX_CHUNK
    requires 0 < k < |Frame(c, nonce, chunk)|
    ensures var d := DecryptFrames(c, nonce, Frame(c, nonce, chunk)[..k]);
      d.plain == [] && d.outcome != Success
  {
    var ct := c.seal(nonce, chunk);
    SizeRoundTrip(|ct|);
    if k >= 4 {
      assert Frame(c, nonce, chunk)[..k][..4] == SizeBytes(|ct|);
    }
  }

  /** Exactly the first m chunks come out of the first k bytes, with success only at their end. */
  ghost predicate CutYields(c: Cipher, nonce: Bytes, chunks: seq<Bytes>, k: nat, m: nat)
    requires k <= |Frames(c, nonce, chunks)|
  {
    var d := DecryptFrames(c, nonce, Frames(c, nonce, chunks)[..k]);
    && m <= |chunks|
    && FrameEnd(chunks, m) <= k
    && (m < |chunks| ==> k < FrameEnd(chunks, m + 1))
    && d.plain == Joined(chunks[..m])
    && (d.outcome == Success <==> k == FrameEnd(chunks, m))
  }

  lemma CutInFirstFrame(c: Cipher, nonce: Bytes, chunks: seq<Bytes>, k: nat)
    requires Lawful(c) && |nonce| == NONCE_SIZE && ChunksFit(chunks) && chunks != []
    requires k < |Frame(c, nonce, chunks[0])|
    ensures k <= |Frames(c, nonce, chunks)| && CutYields(c, nonce, chunks, k, 0)
  {
    var f := Frame(c, nonce, chunks[0]);
    assert Frames(c, nonce, chunks)[..k] == f[..k];
    assert FrameEnd(chunks[1..], 0) == 0;
    if k > 0 {
      ParseCutFrame(c, nonce, chunks[0], k);
    }
  }

  lemma FramesCut(c: Cipher, nonce: Bytes, chunks: seq<Bytes>, k: nat)
    requires chunks != [] && k <= |Frames(c, Successor(nonce), chunks[1..])|
    ensures var f := Frame(c, nonce, chunks[0]);
      && |f| + k <= |Frames(c, nonce, chunks)|
      && Frames(c, nonce, chunks)[..|f| + k] == f + Frames(c, Successor(nonce), chunks[1..])[..k]
  {
    var f, tail := Frame(c, nonce, chunks[0]), Frames(c, Successor(nonce), chunks[1..]);
    assert (f + tail)[..|f| + k] == f + tail[..k];
  }

  lemma CutBehindFirstFrame(c: Cipher, nonce: Bytes, chunks: seq<Bytes>, k: nat, m: nat)
    requires Lawful(c) && |nonce| == NONCE_SIZE && ChunksFit(chunks) && chunks != []
    requires k <= |Frames(c, Successor(nonce), chunks[1..])|
    requires CutYields(c, Successor(nonce), chunks[1..], k, m)
    ensures var j := |Frame(c, nonce, chunks[0])| + k;
      j <= |Frames(c, nonce, chunks)| && CutYields(c, nonce, chunks, j, m + 1)
  {
    var tail := Frames(c, Successor(nonce), chunks[1..]);
    FramesCut(c, nonce, chunks, k);
    ParseFrame(c, nonce, chunks[0], tail[..k]);
    assert Joined(chunks[..m + 1]) == chunks[0] + Joined(chunks[1..][..m]) by {
      assert chunks[..m + 1][1..] == chunks[1..][..m];
    }
  }

  lemma {:induction false} DecryptCutFrames(c: Cipher, nonce: Bytes, chunks: seq<Bytes>, k: nat) returns (m: nat)
    requires Lawful(c) && |nonce| == NONCE_SIZE && ChunksFit(chunks)
    requires k <= |Frames(c, nonce, chunks)|
    ensures CutYields(c, nonce, chunks, k, m)
    decreases |chunks|
  {
    hide Successor, Frame, Lawful, SizeOf;
    if chunks == [] {
      m := 0;
    } else if k < |Frame(c, nonce, chunks[0])| {
      m := 0;
      CutInFirstFrame(c, nonce, chunks, k);
    } else {
      var j := k - |Frame(c, nonce, chunks[0])|;
      m := DecryptCutFrames(c, Successor(nonce), chunks[1..], j);
      CutBehindFirstFrame(c, nonce, chunks, j, m);
      m := m + 1;
    }
  }

  lemma {:induction false} FrameEndsIncrease(chunks: seq<Bytes>, a: nat, b: nat)
    requires a < b <= |chunks|
    ensures FrameEnd(chunks, a) < FrameEnd(chunks, b)
    decreases a
  {
    if a > 0 {
      FrameEndsIncrease(chunks[1..], a - 1, b - 1);
    }
  }

  lemma {:induction false} JoinedPrefix(chunks: seq<Bytes>, m: nat)
    requires m <= |chunks|
    ensures Joined(chunks[..m]) <= Joined(chunks)
  {
    if m > 0 {
      JoinedPrefix(chunks[1..], m - 1);
      assert chunks[..m][1..] == chunks[1..][..m - 1];
    }
  }

  /**
   Decrypting the first k bytes of an encrypted stream writes a prefix of the plaintext,
   and succeeds exactly when the cut is a frame boundary at or after the nonce.
   */
  lemma DecryptTruncated(c: Cipher, nonce: Bytes, chunks: seq<Bytes>, k: nat)
    requires Lawful(c) && |nonce| == NONCE_SIZE && ChunksFit(chunks)
    requires k <= |Encrypted(c, nonce, chunks)|
    ensures var d := Decrypt(c, Encrypted(c, nonce, chunks)[..k]);
      && d.plain <= Joined(chunks)
      && (d.outcome == Success <==> exists m: nat :: m <= |chunks| && k == NONCE_SIZE + FrameEnd(chunks, m))
  {
    hide Lawful, ChunksFit, Frames, DecryptFrames, Joined, FrameEnd;
    if k >= NONCE_SIZE {
      var j := k - NONCE_SIZE;
      var s := Encrypted(c, nonce, chunks)[..k];
      assert s[..NONCE_SIZE] == nonce;
      assert s[NONCE_SIZE..] == Frames(c, nonce, chunks)[..j];
      var m := DecryptCutFrames(c, nonce, chunks, j);
      assert Decrypt(c, s).outcome == Success <==> k == NONCE_SIZE + FrameEnd(chunks, m);
      JoinedPrefix(chunks, m);
      forall b: nat | b <= |chunks| && b != m
        ensures j != FrameEnd(chunks, b)
      {
        if b < m {
          FrameEndsIncrease(chunks, b, m);
        } else if b > m + 1 {
          FrameEndsIncrease(chunks, m + 1, b);
        }
      }
    }
  }

  lemma {:induction false} ParseFrames(c: Cipher, nonce: Bytes, chunks: seq<Bytes>)
    requires Lawful(c) && |nonce| == NONCE_SIZE && ChunksFit(chunks)
    ensures DecryptFrames(c, nonce, Frames(c, nonce, chunks)) == Decrypted(Joined(chunks), Success)
    decreases |chunks|
  {
    if chunks != [] {
      ParseFrames(c, Successor(nonce), chunks[1..]);
      ParseFrame(c, nonce, chunks[0], Frames(c, Successor(nonce), chunks[1..]));
    }
  }

  /** Encrypt, then decrypt: the file comes back exactly, whatever the chunk boundaries. */
  lemma RoundTrip(c: Cipher, nonce: Bytes, chunks: seq<Bytes>)
    requires Lawful(c) && |nonce| == NONCE_SIZE && ChunksFit(chunks)
    ensures Decrypt(c, Encrypted(c, nonce, chunks)) == Decrypted(Joined(chunks), Success)
  {
    var s := Encrypted(c, nonce, chunks);
    assert s[..NONCE_SIZE] == nonce && s[NONCE_SIZE..] == Frames(c, nonce, chunks);
    ParseFrames(c, nonce, chunks);
  }

  // ---------------------------------------------------------------- any input

  /** Size and ciphertext, one after the other. */
  function Wire(cts: seq<Bytes>): Bytes {
    if cts == [] then [] else SizeBytes(|cts[0]|) + cts[0] + Wire(cts[1..])
  }

  /** Ciphertext i opens to plaintext i under the i-th nonce. */
  ghost predicate Opens(c: Cipher, nonce: Bytes, cts: seq<Bytes>, plains: seq<Bytes>) {
    && |plains| == |cts|
    && forall i :: 0 <= i < |cts| ==> |cts[i]| < 0x1_0000_0000 && c.open(NonceAt(nonce, i), cts[i]) == Some(plains[i])
  }

  lemma OpensTail(c: Cipher, nonce: Bytes, cts: seq<Bytes>, plains: seq<Bytes>)
    requires cts != [] && Opens(c, nonce, cts, plains)
    ensures |cts[0]| < 0x1_0000_0000 && c.open(nonce, cts[0]) == Some(plains[0])
    ensures Opens(c, Successor(nonce), cts[1..], plains[1..])
  {
    hide Successor;
    assert NonceAt(nonce, 0) == nonce;
    forall i | 0 <= i < |cts| - 1
      ensures |cts[1..][i]| < 0x1_0000_0000 && c.open(NonceAt(Successor(nonce), i), cts[1..][i]) == Some(plains[1..][i])
    {
      assert cts[1..][i] == cts[i + 1] && plains[1..][i] == plains[i + 1];
      assert NonceAt(nonce, i + 1) == NonceAt(Successor(nonce), i);
    }
  }

  lemma OpensMore(c: Cipher, nonce: Bytes, ct: Bytes, plain: Bytes, cts: seq<Bytes>, plains: seq<Bytes>)
    requires |ct| < 0x1_0000_0000 && c.open(nonce, ct) == Some(plain) && Opens(c, Successor(nonce), cts, plains)
    ensures Opens(c, nonce, [ct] + cts, [plain] + plains)
  {
    hide Successor;
    forall i | 0 <= i < |cts| + 1
      ensures |([ct] + cts)[i]| < 0x1_0000_0000
      ensures c.open(NonceAt(nonce, i), ([ct] + cts)[i]) == Some(([plain] + plains)[i])
    {
      if i > 0 {
        assert NonceAt(nonce, i) == NonceAt(Successor(nonce), i - 1);
        assert ([ct] + cts)[i] == cts[i - 1] && ([plain] + plains)[i] == plains[i - 1];
      }
    }
  }

  /** One frame that opens comes out, and parsing goes on behind it. */
  lemma ParseOpened(c: Cipher, nonce: Bytes, ct: Bytes, plain: Bytes, rest: Bytes)
    requires |ct| < 0x1_0000_0000 && c.open(nonce, ct) == Some(plain)
    ensures var d := DecryptFrames(c, Successor(nonce), rest);
      DecryptFrames(c, nonce, SizeBytes(|ct|) + ct + rest) == Decrypted(plain + d.plain, d.outcome)
  {
    var s := SizeBytes(|ct|) + ct + rest;
    SizeRoundTrip(|ct|);
    assert s[..4] == SizeBytes(|ct|) && s[4..4 + |ct|] == ct && s[4 + |ct|..] == rest;
  }

  /** All frames that open come out, and what follows them is read under the next nonce. */
  lemma {:induction false} ParseWire(c: Cipher, nonce: Bytes, cts: seq<Bytes>, plains: seq<Bytes>, rest: Bytes)
    requires Opens(c, nonce, cts, plains)
    ensures var d := DecryptFrames(c, NonceAt(nonce, |cts|), rest);
      DecryptFrames(c, nonce, Wire(cts) + rest) == Decrypted(Joined(plains) + d.plain, d.outcome)
    decreases |cts|
  {
    hide Successor, SizeBytes, DecryptFrames, Opens, Joined, Wire;
    var d := DecryptFrames(c, NonceAt(nonce, |cts|), rest);
    OpensSize(c, nonce, cts, plains);
    if cts == [] {
      WireNone(rest, d.plain);
    } else {
      OpensTail(c, nonce, cts, plains);
      ParseWire(c, Successor(nonce), cts[1..], plains[1..], rest);
      WireFirst(cts, rest);
      JoinedFirst(plains, d.plain);
      ParseOpened(c, nonce, cts[0], plains[0], Wire(cts[1..]) + rest);
    }
  }

  lemma WireNone(rest: Bytes, plain: Bytes)
    ensures Wire([]) + rest == rest && Joined([]) + plain == plain
  {
  }

  lemma WireFirst(cts: seq<Bytes>, rest: Bytes)
    requires cts != []
    ensures Wire(cts) + rest == SizeBytes(|cts[0]|) + cts[0] + (Wire(cts[1..]) + rest)
  {
    hide SizeBytes;
  }

  lemma JoinedFirst(plains: seq<Bytes>, plain: Bytes)
    requires plains != []
    ensures Joined(plains) + plain == plains[0] + (Joined(plains[1..]) + plain)
  {
  }

  lemma OpensSize(c: Cipher, nonce: Bytes, cts: seq<Bytes>, plains: seq<Bytes>)
    requires Opens(c, nonce, cts, plains)
    ensures |plains| == |cts|
  {
  }

  /** Why nothing more comes out of r: it is empty, cut in its size, cut in its ciphertext, or does not open. */
  ghost predicate StopsWith(c: Cipher, nonce: Bytes, r: Bytes, o: Outcome) {
    if r == [] then o == Success
    else if |r| < 4 then o == SizeTruncated
    else if |r| - 4 < SizeOf(r[..4]) then o == ChunkTruncated
    else c.open(nonce, r[4..4 + SizeOf(r[..4])]) == None && o == OpenFailed
  }

  lemma LastByte(hi: nat, lo: nat)
    requires lo < 256
    ensures (hi * 256 + lo) / 256 == hi && (hi * 256 + lo) % 256 == lo
  {
  }

  lemma SizeBytesOf(b: Bytes)
    requires |b| == 4
    ensures SizeOf(b) < 0x1_0000_0000 && SizeBytes(SizeOf(b)) == b
  {
    var n := SizeOf(b);
    var x := b[0] as nat;
    var y := x * 256 + b[1] as nat;
    var z := y * 256 + b[2] as nat;
    assert n == z * 256 + b[3] as nat;
    LastByte(0, x);
    LastByte(x, b[1] as nat);
    LastByte(y, b[2] as nat);
    LastByte(z, b[3] as nat);
    assert n / 0x100 == z && n / 0x1_0000 == y && n / 0x100_0000 == x;
  }

  lemma CutFrame(s: Bytes) returns (ct: Bytes, rest: Bytes)
    requires |s| >= 4 && |s| - 4 >= SizeOf(s[..4])
    ensures s == SizeBytes(|ct|) + ct + rest && |ct| < 0x1_0000_0000
    ensures ct == s[4..4 + SizeOf(s[..4])] && rest == s[4 + SizeOf(s[..4])..]
  {
    SizeBytesOf(s[..4]);
    ct, rest := s[4..4 + SizeOf(s[..4])], s[4 + SizeOf(s[..4])..];
  }

  lemma OneNonce(nonce: Bytes)
    ensures NonceAt(nonce, 1) == Successor(nonce)
  {
  }

  /** Where no whole frame opens, nothing comes out. */
  lemma ParseNone(c: Cipher, nonce: Bytes, s: Bytes)
    ensures Opens(c, nonce, [], []) && Joined([]) == []
    ensures |s| < 4 || |s| - 4 < SizeOf(s[..4]) || c.open(nonce, s[4..4 + SizeOf(s[..4])]) == None ==>
      DecryptFrames(c, nonce, s).plain == [] && StopsWith(c, nonce, s, DecryptFrames(c, nonce, s).outcome)
  {
    hide SizeOf;
  }

  /** Every input is a series of frames that open, and a rest from which nothing more comes out. */
  lemma {:induction false} ParseAny(c: Cipher, nonce: Bytes, s: Bytes)
    returns (cts: seq<Bytes>, plains: seq<Bytes>, r: Bytes)
    ensures s == Wire(cts) + r && Opens(c, nonce, cts, plains)
    ensures var d := DecryptFrames(c, nonce, s);
      d.plain == Joined(plains) && StopsWith(c, NonceAt(nonce, |cts|), r, d.outcome)
    decreases |s|
  {
    hide Successor, SizeOf, SizeBytes, DecryptFrames;
    cts, plains, r := [], [], s;
    assert NonceAt(nonce, 0) == nonce && Wire([]) + s == s;
    ParseNone(c, nonce, s);
    hide Opens, StopsWith, NonceAt, Wire, Joined;
    if |s| >= 4 && |s| - 4 >= SizeOf(s[..4]) {
      var ct, rest := CutFrame(s);
      var plain := c.open(nonce, ct);
      if plain.Some? {
        ParseOpened(c, nonce, ct, plain.value, rest);
        cts, plains, r := ParseAny(c, Successor(nonce), rest);
        OpensMore(c, nonce, ct, plain.value, cts, plains);
        NonceAtAdd(nonce, 1, |cts|);
        OneNonce(nonce);
        WireFirst([ct] + cts, r);
        JoinedHead([plain.value], plains);
        assert ([ct] + cts)[1..] == cts;
        cts, plains := [ct] + cts, [plain.value] + plains;
      }
    }
  }

  /**
   Decrypting any input at all, written by the encrypter or not: behind the nonce come frames
   whose ciphertexts open under the nonces in turn, then a rest.  The output is their
   plaintexts, and the outcome says what is wrong with the rest, which succeeds only if it is empty.
   */
  lemma DecryptMeans(c: Cipher, input: Bytes) returns (cts: seq<Bytes>, plains: seq<Bytes>, r: Bytes)
    requires |input| >= 12
    ensures input == input[..12] + Wire(cts) + r && Opens(c, input[..12], cts, plains)
    ensures var d, nonce := Decrypt(c, input), NonceAt(input[..12], |cts|);
      && d.plain == Joined(plains) && d.outcome != NonceTruncated
      && (d.outcome == Success <==> r == [])
      && (d.outcome == SizeTruncated <==> 0 < |r| < 4)
      && (d.outcome == ChunkTruncated <==> |r| >= 4 && |r| - 4 < SizeOf(r[..4]))
      && (d.outcome == OpenFailed <==>
            && |r| >= 4 && |r| - 4 >= SizeOf(r[..4])
            && c.open(nonce, r[4..4 + SizeOf(r[..4])]) == None)
  {
    hide DecryptFrames, Opens, SizeOf;
    cts, plains, r := ParseAny(c, input[..12], input[12..]);
    assert input == input[..12] + input[12..];
    assert input[..12] + (Wire(cts) + r) == input[..12] + Wire(cts) + r;
  }

  /** An input too short for the nonce gives nothing but an error. */
  lemma DecryptShort(c: Cipher, input: Bytes)
    ensures Decrypt(c, input).outcome == NonceTruncated <==> |input| < 12
    ensures |input| < 12 ==> Decrypt(c, input).plain == []
  {
    if |input| >= 12 {
      hide Decrypt, Opens;
      var cts, plains, r := DecryptMeans(c, input);
    }
  }

  /** Decryption succeeds exactly on a nonce followed by whole frames that open in turn, and gives their plaintexts. */
  lemma DecryptSucceedsIff(c: Cipher, input: Bytes, plain: Bytes)
    ensures Decrypt(c, input) == Decrypted(plain, Success) <==>
      && |input| >= 12
      && exists cts, plains :: input[12..] == Wire(cts) && Opens(c, input[..12], cts, plains) && plain == Joined(plains)
  {
    hide DecryptFrames, Opens, SizeOf, Wire;
    if |input| >= 12 {
      if Decrypt(c, input) == Decrypted(plain, Success) {
        var cts, plains, r := DecryptMeans(c, input);
        assert input[12..] == Wire(cts) + [] == Wire(cts);
      }
      if cts, plains :| input[12..] == Wire(cts) && Opens(c, input[..12], cts, plains) && plain == Joined(plains) {
        ParseWire(c, input[..12], cts, plains, []);
        NothingLeft(c, NonceAt(input[..12], |cts|));
        assert Wire(cts) + [] == Wire(cts) && Joined(plains) + [] == Joined(plains);
      }
    }
  }

  lemma NothingLeft(c: Cipher, nonce: Bytes)
    ensures DecryptFrames(c, nonce, []) == Decrypted([], Success)
  {
  }

  /** The first frame that does not open ends in an error, with the plaintexts before it as output. */
  lemma TamperedFrameFails(c: Cipher, nonce: Bytes, cts: seq<Bytes>, plains: seq<Bytes>, bad: Bytes, rest: Bytes)
    requires |nonce| == 12 && Opens(c, nonce, cts, plains)
    requires |bad| < 0x1_0000_0000 && c.open(NonceAt(nonce, |cts|), bad) == None
    ensures Decrypt(c, nonce + (Wire(cts) + (SizeBytes(|bad|) + bad + rest))) == Decrypted(Joined(plains), OpenFailed)
  {
    var r := SizeBytes(|bad|) + bad + rest;
    var input := nonce + (Wire(cts) + r);
    assert input[..12] == nonce && input[12..] == Wire(cts) + r;
    ParseBad(c, NonceAt(nonce, |cts|), bad, rest);
    hide DecryptFrames, Opens;
    ParseWire(c, nonce, cts, plains, r);
    assert Joined(plains) + [] == Joined(plains);
  }

  lemma ParseBad(c: Cipher, nonce: Bytes, bad: Bytes, rest: Bytes)
    requires |bad| < 0x1_0000_0000 && c.open(nonce, bad) == None
    ensures DecryptFrames(c, nonce, SizeBytes(|bad|) + bad + rest) == Decrypted([], OpenFailed)
  {
    var s := SizeBytes(|bad|) + bad + rest;
    SizeRoundTrip(|bad|);
    assert s[..4] == SizeBytes(|bad|) && s[4..4 + |bad|] == bad;
  }

  // ---------------------------------------------------------------- nonces of the frames

  /** Chunk i is sealed under NonceAt(nonce, i): the frames split at every i. */
  lemma {:induction false} FramesUseNonceAt(c: Cipher, nonce: Bytes, chunks: seq<Bytes>, i: nat)
    requires i < |chunks|
    ensures Frames(c, nonce, chunks) ==
      Frames(c, nonce, chunks[..i]) + Frame(c, NonceAt(nonce, i), chunks[i])
      + Frames(c, NonceAt(nonce, i + 1), chunks[i + 1..])
    decreases i
  {
    hide Successor, Frame;
    if i == 0 {
      assert NonceAt(nonce, 1) == Successor(nonce);
    } else {
      FramesUseNonceAt(c, Successor(nonce), chunks[1..], i - 1);
      assert chunks[..i][1..] == chunks[1..][..i - 1];
      assert chunks[1..][i..] == chunks[i + 1..];
      var head := Frame(c, nonce, chunks[0]);
      var left := Frames(c, Successor(nonce), chunks[1..][..i - 1]);
      assert Frames(c, nonce, chunks[..i]) == head + left;
    }
  }

  // ---------------------------------------------------------------- the two file loops

  datatype ReadStatus = More | AtEOF | ReadFailed

  /** One Read call on the input file: the bytes it returned and its error. */
  datatype ReadReply = ReadReply(data: Bytes, status: ReadStatus)

  /** The non-empty pieces the encrypter sees before it stops; a spent script is end of file. */
  function Chunks(replies: seq<ReadReply>): seq<Bytes> {
    if replies == [] then []
    else
      var head := if replies[0].data == [] then [] else [replies[0].data];
      if replies[0].status == More then head + Chunks(replies[1..]) else head
  }

  predicate ReadsFail(replies: seq<ReadReply>) {
    replies != [] && (replies[0].status == ReadFailed || (replies[0].status == More && ReadsFail(replies[1..])))
  }

  /** Reading ends with the first reply that is not More, and fails exactly when that is an error. */
  lemma {:induction false} ReadsFailMeans(replies: seq<ReadReply>)
    ensures ReadsFail(replies) <==>
      exists j ::
        && 0 <= j < |replies| && replies[j].status == ReadFailed
        && forall i :: 0 <= i < j ==> replies[i].status == More
  {
    if replies != [] {
      ReadsFailMeans(replies[1..]);
      if ReadsFail(replies) && replies[0].status == More {
        var j :| 0 <= j < |replies| - 1 && replies[1..][j].status == ReadFailed
                 && forall i :: 0 <= i < j ==> replies[1..][i].status == More;
        assert forall i :: 1 <= i < j + 1 ==> replies[i] == replies[1..][i - 1];
        assert replies[j + 1].status == ReadFailed;
      }
      if j :| 0 <= j < |replies| && replies[j].status == ReadFailed
              && forall i :: 0 <= i < j ==> replies[i].status == More {
        if j > 0 {
          assert replies[1..][j - 1].status == ReadFailed;
          assert forall i :: 0 <= i < j - 1 ==> replies[1..][i] == replies[i + 1];
        }
      }
    }
  }

  /** The data of all replies, in order. */
  function DataOf(replies: seq<ReadReply>): seq<Bytes> {
    seq(|replies|, i requires 0 <= i < |replies| => replies[i].data)
  }

  /** No data is lost: the chunks are all that was read, that of the last reply included, be it an error. */
  lemma {:induction false} ChunksAreAllData(replies: seq<ReadReply>, j: nat)
    requires j <= |replies| && forall i :: 0 <= i < j ==> replies[i].status == More
    requires j < |replies| ==> replies[j].status != More
    ensures Joined(Chunks(replies)) == Joined(DataOf(if j < |replies| then replies[..j + 1] else replies))
    ensures forall i :: 0 <= i < |Chunks(replies)| ==> Chunks(replies)[i] != []
    decreases j
  {
    var seen := if j < |replies| then replies[..j + 1] else replies;
    if replies != [] {
      assert DataOf(seen)[0] == replies[0].data;
      assert DataOf(seen)[1..] == DataOf(seen[1..]);
      var head := if replies[0].data == [] then [] else [replies[0].data];
      if j == 0 {
        assert seen[1..] == [] && DataOf([]) == [];
        JoinedHead(head, []);
      } else {
        ChunksAreAllData(replies[1..], j - 1);
        assert seen[1..] == if j - 1 < |replies[1..]| then replies[1..][..j - 1 + 1] else replies[1..];
        JoinedHead(head, Chunks(replies[1..]));
      }
    }
  }

  lemma JoinedHead(head: seq<Bytes>, rest: seq<Bytes>)
    requires |head| <= 1
    ensures Joined(head + rest) == (if head == [] then [] else head[0]) + Joined(rest)
  {
    if head != [] {
      assert (head + rest)[1..] == rest;
    } else {
      assert head + rest == rest && [] + Joined(rest) == Joined(rest);
    }
  }

  /** Reads fill at most the 64 KiB buffer. */
  ghost predicate ReadsFit(replies: seq<ReadReply>) {
    forall i :: 0 <= i < |replies| ==> |replies[i].data| <= MAX_CHUNK
  }

  lemma {:induction false} ChunksOfReadsFit(replies: seq<ReadReply>)
    requires ReadsFit(replies)
    ensures ChunksFit(Chunks(replies))
  {
    if replies != [] {
      ChunksOfReadsFit(replies[1..]);
    }
  }

  /** What is written and the frames still to come make up the whole stream. */
  ghost predicate Completes(c: Cipher, output: Bytes, nonce: Bytes, left: seq<Bytes>, whole: Bytes) {
    output + Frames(c, nonce, left) == whole
  }

  /** Reading one non-empty piece extends the stream by exactly its frame. */
  lemma CompletesStep(c: Cipher, output: Bytes, nonce: Bytes, data: Bytes, tail: seq<Bytes>, whole: Bytes)
    requires Completes(c, output, nonce, [data] + tail, whole)
    ensures Completes(c, output + Frame(c, nonce, data), Successor(nonce), tail, whole)
  {
    hide Frame, Successor;
    assert ([data] + tail)[1..] == tail;
  }

  lemma CompletesNone(c: Cipher, output: Bytes, nonce: Bytes, whole: Bytes)
    ensures Completes(c, output, nonce, [], whole) <==> output == whole
  {
    assert output + [] == output;
  }

  lemma RepliesStep(replies: seq<ReadReply>, i: nat)
    requires i < |replies|
    ensures var r := replies[i];
      var tail := if r.status == More then Chunks(replies[i + 1..]) else [];
      && Chunks(replies[i..]) == (if r.data == [] then tail else [r.data] + tail)
      && (ReadsFail(replies[i..]) <==> r.status == ReadFailed || (r.status == More && ReadsFail(replies[i + 1..])))
  {
    assert replies[i..][1..] == replies[i + 1..];
  }

  /** Seal one chunk, lay out its frame and move the nonce on. */
  method SealChunk(c: Cipher, nonce: array<Byte>, data: Bytes) returns (frame: Bytes)
    modifies nonce
    ensures frame == Frame(c, old(nonce[..]), data)
    ensures nonce[..] == Successor(old(nonce[..]))
  {
    hide BumpedAt;
    var ciphertext := c.seal(nonce[..], data);
    frame := SizeBytes(|ciphertext|) + ciphertext;
    IncrementNonce(nonce);
  }

  method EncryptFile(c: Cipher, start: Bytes, replies: seq<ReadReply>) returns (output: Bytes, ok: bool)
    requires |start| == NONCE_SIZE
    ensures output == Encrypted(c, start, Chunks(replies))
    ensures ok <==> !ReadsFail(replies)
  {
    hide Successor, BigEndian, Pow256, Frame, Frames;
    var nonce := new Byte[|start|](i requires 0 <= i < |start| => start[i]);
    assert nonce[..] == start;
    output := start;
    ok := true;
    ghost var whole := Encrypted(c, start, Chunks(replies));
    assert replies[0..] == replies;
    assert Completes(c, output, start, Chunks(replies), whole);
    hide Chunks, ReadsFail, Completes, Encrypted;
    var i := 0;
    while i < |replies|
      invariant 0 <= i <= |replies| && ok
      invariant Completes(c, output, nonce[..], Chunks(replies[i..]), whole)
      invariant ReadsFail(replies) <==> ReadsFail(replies[i..])
    {
      var r := replies[i];
      RepliesStep(replies, i);
      ghost var tail := if r.status == More then Chunks(replies[i + 1..]) else [];
      if |r.data| > 0 {
        CompletesStep(c, output, nonce[..], r.data, tail, whole);
        var frame := SealChunk(c, nonce, r.data);
        output := output + frame;
      }
      if r.status == AtEOF {
        CompletesNone(c, output, nonce[..], whole);
        return;
      }
      if r.status == ReadFailed {
        CompletesNone(c, output, nonce[..], whole);
        ok := false;
        return;
      }
      i := i + 1;
    }
    NoReplies();
    CompletesNone(c, output, nonce[..], whole);
  }

  lemma NoReplies()
    ensures Chunks([]) == [] && !ReadsFail([])
  {
  }

  method DecryptFile(c: Cipher, input: Bytes) returns (output: Bytes, outcome: Outcome)
    ensures Decrypted(output, outcome) == Decrypt(c, input)
  {
    hide Successor, BigEndian, Pow256, SizeOf, BumpedAt;
    output := [];
    if |input| < NONCE_SIZE {
      outcome := NonceTruncated;
      return;
    }
    var nonce := new Byte[NONCE_SIZE](i requires 0 <= i < |input| => input[i]);
    assert nonce[..] == input[..NONCE_SIZE];
    var pos := NONCE_SIZE;
    while pos < |input|
      invariant NONCE_SIZE <= pos <= |input|
      invariant var d := DecryptFrames(c, nonce[..], input[pos..]);
        Decrypt(c, input) == Decrypted(output + d.plain, d.outcome)
      decreases |input| - pos
    {
      ghost var s := input[pos..];
      if |input| - pos < 4 {
        outcome := SizeTruncated;
        return;
      }
      var size := SizeOf(input[pos..pos + 4]);
      assert s[..4] == input[pos..pos + 4];
      if |input| - pos - 4 < size {
        outcome := ChunkTruncated;
        return;
      }
      var chunk := c.open(nonce[..], input[pos + 4..pos + 4 + size]);
      assert s[4..4 + size] == input[pos + 4..pos + 4 + size];
      if chunk == None {
        outcome := OpenFailed;
        return;
      }
      output := output + chunk.value;
      IncrementNonce(nonce);
      pos := pos + 4 + size;
      assert s[4 + size..] == input[pos..];
    }
    outcome := Success;
  }

  /** The two loops compose to the identity on every file that could be read to its end. */
  method EncryptThenDecrypt(c: Cipher, start: Bytes, replies: seq<ReadReply>) returns (plain: Bytes, outcome: Outcome)
    requires Lawful(c) && |start| == NONCE_SIZE && ReadsFit(replies)
    ensures plain == Joined(Chunks(replies)) && outcome == Success
  {
    var stream, _ := EncryptFile(c, start, replies);
    ChunksOfReadsFit(replies);
    RoundTrip(c, start, Chunks(replies));
    plain, outcome := DecryptFile(c, stream);
  }
}
