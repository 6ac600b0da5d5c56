// internal/hash/digest.go: content digests, full and sampled, and their text form.

module Digests {
  import opened Nodes
  import opened Options
  import opened Text

  datatype DigestKind = NoKind | FullKind | PartialKind | LinkKind

  datatype Digest = Digest(kind: DigestKind, hex: string, size: int) {
    predicate IsZero() { hex == "" }
  }

  const ZERO := Digest(NoKind, "", 0)

  datatype Comparison = Same | Different | Indeterminate

  function Compare(a: Digest, b: Digest): Comparison {
    if a.IsZero() || b.IsZero() then Indeterminate
    else if a.kind != b.kind then Different
    else if a.kind == PartialKind && a.size != b.size then Different
    else if a.hex == b.hex then Same
    else Different
  }

  // ---------------------------------------------------------------- hashing

  function HexDigit(x: nat): char
    requires x < 16
  {
    if x < 10 then '0' + x as char else 'a' + (x - 10) as char
  }

  function HexOf(b: Bytes): string {
    if b == [] then "" else [HexDigit(b[0] / 16), HexDigit(b[0] % 16)] + HexOf(b[1..])
  }

  /** SHA-256 idealised as collision-free: a non-empty text of hex digits, one per input. */
  function Sha(b: Bytes): string {
    "0" + HexOf(b)
  }

  lemma HexDigitInjective(x: nat, y: nat)
    requires x < 16 && y < 16 && HexDigit(x) == HexDigit(y)
    ensures x == y
  {
  }

  lemma {:induction false} HexInjective(a: Bytes, b: Bytes)
    requires HexOf(a) == HexOf(b)
    ensures a == b
  {
    if a != [] && b != [] {
      var x, y := HexOf(a), HexOf(b);
      assert x[0] == y[0] && x[1] == y[1];
      HexDigitInjective(a[0] / 16, b[0] / 16);
      HexDigitInjective(a[0] % 16, b[0] % 16);
      assert x[2..] == HexOf(a[1..]) && y[2..] == HexOf(b[1..]);
      HexInjective(a[1..], b[1..]);
      assert a == [a[0]] + a[1..] && b == [b[0]] + b[1..];
    }
  }

  lemma ShaInjective(a: Bytes, b: Bytes)
    ensures Sha(a) == Sha(b) <==> a == b
  {
    if Sha(a) == Sha(b) {
      assert Sha(a)[1..] == HexOf(a) && Sha(b)[1..] == HexOf(b);
      HexInjective(a, b);
    }
  }

  lemma {:induction false} ShaIsText(b: Bytes)
    ensures Sha(b) != "" && ':' !in Sha(b)
  {
    HexHasNoColon(b);
  }

  lemma {:induction false} HexHasNoColon(b: Bytes)
    ensures ':' !in HexOf(b)
  {
    if b != [] {
      HexHasNoColon(b[1..]);
    }
  }

  /** binary.BigEndian.PutUint64. */
  function BigEndian(n: nat, bytes: nat): (r: Bytes)
    ensures |r| == bytes
  {
    if bytes == 0 then [] else BigEndian(n / 256, bytes - 1) + [n % 256]
  }

  lemma {:induction false} BigEndianInjective(a: nat, b: nat, bytes: nat)
    requires a < Power256(bytes) && b < Power256(bytes) && BigEndian(a, bytes) == BigEndian(b, bytes)
    ensures a == b
  {
    if bytes > 0 {
      var x, y := BigEndian(a, bytes), BigEndian(b, bytes);
      assert x[bytes - 1] == y[bytes - 1];
      assert x[..bytes - 1] == BigEndian(a / 256, bytes - 1) && y[..bytes - 1] == BigEndian(b / 256, bytes - 1);
      BigEndianInjective(a / 256, b / 256, bytes - 1);
    }
  }

  function Power256(n: nat): nat {
    if n == 0 then 1 else 256 * Power256(n - 1)
  }

  lemma SizesFitEightBytes(n: nat)
    requires n < 0x8000_0000_0000_0000
    ensures n < Power256(8)
  {
    assert Power256(4) == 0x1_0000_0000;
    assert Power256(8) == 256 * (256 * (256 * (256 * Power256(4))));
  }

  /** The first bytes, and the last ones where they do not overlap the first. */
  function Head(content: Content, sample: nat): Bytes {
    content[..if sample <= |content| then sample else |content|]
  }

  function Tail(content: Content, sample: nat): Bytes {
    if |content| > 2 * sample then content[|content| - sample..] else []
  }

  /** What the sampled digest feeds to the hash: size, head and tail. */
  function Sampled(content: Content, sample: nat): Bytes {
    BigEndian(|content|, 8) + Head(content, sample) + Tail(content, sample)
  }

  /** Two contents a sample of that size cannot tell apart. */
  predicate SampledAlike(x: Content, y: Content, sample: nat) {
    |x| == |y| && Head(x, sample) == Head(y, sample) && Tail(x, sample) == Tail(y, sample)
  }

  const DEFAULT_SAMPLE: nat := 4 * 1024 * 1024

  function FileDigest(content: Content, maxBytes: int, sampleBytes: int): Digest {
    if maxBytes <= 0 || |content| <= maxBytes then Digest(FullKind, Sha(content), |content|)
    else
      var sample := if sampleBytes <= 0 then DEFAULT_SAMPLE else sampleBytes;
      Digest(PartialKind, Sha(Sampled(content, sample)), |content|)
  }

  /** Compute: directories and special files have no digest; a link is its target. */
  function Compute(n: Node, maxBytes: int, sampleBytes: int): Digest {
    match n
    case File(content, _, _) => FileDigest(content, maxBytes, sampleBytes)
    case Symlink(target, _) => Digest(LinkKind, Sha(target), 0)
    case Dir(_) => ZERO
    case Special => ZERO
  }

  // ------------------------------------------- what equal digests prove

  lemma ThreeParts(a1: Bytes, b1: Bytes, c1: Bytes, a2: Bytes, b2: Bytes, c2: Bytes)
    requires |a1| == |a2| && |b1| == |b2|
    ensures a1 + b1 + c1 == a2 + b2 + c2 <==> a1 == a2 && b1 == b2 && c1 == c2
  {
    var x, y := a1 + b1 + c1, a2 + b2 + c2;
    if x == y {
      assert a1 == x[..|a1|] && a2 == y[..|a1|];
      assert b1 == x[|a1|..|a1| + |b1|] && b2 == y[|a1|..|a1| + |b1|];
      assert c1 == x[|a1| + |b1|..] && c2 == y[|a1| + |b1|..];
    }
  }

  lemma SizesApart(x: Content, y: Content, restX: Bytes, restY: Bytes)
    requires BigEndian(|x|, 8) + restX == BigEndian(|y|, 8) + restY
    ensures |x| == |y| && restX == restY
  {
    var a, b := BigEndian(|x|, 8) + restX, BigEndian(|y|, 8) + restY;
    assert a[..8] == BigEndian(|x|, 8) && b[..8] == BigEndian(|y|, 8) && a[8..] == restX && b[8..] == restY;
    SizesFitEightBytes(|x|);
    SizesFitEightBytes(|y|);
    BigEndianInjective(|x|, |y|, 8);
  }

  /** The fed bytes determine size, head and tail, for contents of any size. */
  lemma SampledInjective(x: Content, y: Content, sample: nat)
    ensures Sampled(x, sample) == Sampled(y, sample) <==> SampledAlike(x, y, sample)
  {
    hide BigEndian;
    assert Sampled(x, sample) == BigEndian(|x|, 8) + (Head(x, sample) + Tail(x, sample));
    assert Sampled(y, sample) == BigEndian(|y|, 8) + (Head(y, sample) + Tail(y, sample));
    if Sampled(x, sample) == Sampled(y, sample) {
      SizesApart(x, y, Head(x, sample) + Tail(x, sample), Head(y, sample) + Tail(y, sample));
      ThreeParts(BigEndian(|x|, 8), Head(x, sample), Tail(x, sample), BigEndian(|y|, 8), Head(y, sample), Tail(y,
        sample));
    }
  }

  /**
   * The hash state fed step by step, as the repository does while reading the file. What has been fed in
   * the end is fed for no other content, except those of the same size, head and tail.
   */
  method FeedSample(content: Content, sample: nat) returns (fed: Bytes)
    ensures fed == Sampled(content, sample)
    ensures forall y: Content :: Sampled(y, sample) == fed <==> SampledAlike(content, y, sample)
  {
    hide BigEndian;
    fed := BigEndian(|content|, 8);
    fed := fed + content[..if sample <= |content| then sample else |content|];
    if |content| > 2 * sample {
      fed := fed + content[|content| - sample..];
    }
    forall y: Content ensures Sampled(y, sample) == fed <==> SampledAlike(content, y, sample) {
      SampledInjective(content, y, sample);
    }
  }

  const MIN64: int := -0x8000_0000_0000_0000
  const MAX64: int := 0x7FFF_FFFF_FFFF_FFFF

  /** Two's-complement wrap of int64 arithmetic. */
  function Wrap64(x: int): int {
    (x - MIN64) % 0x1_0000_0000_0000_0000 + MIN64
  }

  /** Config.validateHashes. */
  predicate HashesAccepted(maxBytes: int, sampleBytes: int) {
    maxBytes >= 0 && (maxBytes == 0 || (sampleBytes > 0 && Wrap64(sampleBytes * 2) < maxBytes))
  }

  /** Acceptance means what the option promises exactly when doubling the sample size does not overflow. */
  lemma AcceptedMeansSampleFits(maxBytes: int, sampleBytes: int)
    requires MIN64 <= maxBytes <= MAX64 && MIN64 <= sampleBytes <= MAX64
    requires maxBytes > 0
    ensures HashesAccepted(maxBytes, sampleBytes) && sampleBytes <= MAX64 / 2 <==>
      sampleBytes > 0 && 2 * sampleBytes < maxBytes
    ensures sampleBytes > MAX64 / 2 ==> HashesAccepted(maxBytes, sampleBytes)
  {
  }

  /** Above the limit, equal sampled digests say: same size, same head, same tail, and nothing more. */
  lemma SampledDigestSaysExactly(x: Content, y: Content, maxBytes: int, sampleBytes: int)
    requires HashesAccepted(maxBytes, sampleBytes) && 0 < maxBytes <= MAX64 && sampleBytes <= MAX64 / 2
    requires |x| > maxBytes && |y| > maxBytes
    ensures Compare(FileDigest(x, maxBytes, sampleBytes), FileDigest(y, maxBytes, sampleBytes)) == Same <==>
      |x| == |y| && x[..sampleBytes] == y[..sampleBytes] && x[|x| - sampleBytes..] == y[|y| - sampleBytes..]
    ensures Compare(FileDigest(x, maxBytes, sampleBytes), FileDigest(y, maxBytes, sampleBytes)) != Indeterminate
  {
    AcceptedMeansSampleFits(maxBytes, sampleBytes);
    SampledInjective(x, y, sampleBytes);
    ShaInjective(Sampled(x, sampleBytes), Sampled(y, sampleBytes));
  }

  /** Whatever the limits, digests never tell two files of equal content apart. */
  lemma EqualContentNeverDiffers(m: Node, n: Node, maxBytes: int, sampleBytes: int)
    requires SameVersion(m, n)
    ensures Compare(Compute(m, maxBytes, sampleBytes), Compute(n, maxBytes, sampleBytes)) ==
      if Carries(m) then Same else Indeterminate
  {
  }

  /** Without sampling, digests decide equality of files and links. */
  lemma FullDigestsDecide(m: Node, n: Node, maxBytes: int, sampleBytes: int)
    requires maxBytes <= 0 && Carries(m) && Carries(n)
    ensures Compare(Compute(m, maxBytes, sampleBytes), Compute(n, maxBytes, sampleBytes)) ==
      if SameVersion(m, n) then Same else Different
  {
    if m.File? && n.File? {
      ShaInjective(m.content, n.content);
    } else if m.Symlink? && n.Symlink? {
      ShaInjective(m.target, n.target);
    }
  }

  // -------------------------------------------------------------- text form

  function Digit(x: nat): char
    requires x < 10
  {
    '0' + x as char
  }

  function Decimal(n: nat): string {
    if n < 10 then [Digit(n)] else Decimal(n / 10) + [Digit(n % 10)]
  }

  function FormatInt(n: int): string {
    if n < 0 then "-" + Decimal(-n) else Decimal(n)
  }

  predicate AllDigits(s: string) {
    forall i :: 0 <= i < |s| ==> '0' <= s[i] <= '9'
  }

  function DecimalValue(s: string): nat
    requires AllDigits(s)
  {
    if s == "" then 0
    else 10 * DecimalValue(s[..|s| - 1]) + (s[|s| - 1] - '0') as nat
  }

  /** strconv.ParseInt(s, 10, 64). */
  function ParseInt(s: string): Option<int> {
    if s == "" then None
    else
      var digits := if s[0] == '+' || s[0] == '-' then s[1..] else s;
      if digits == "" || !AllDigits(digits) then None
      else
        var v: int := DecimalValue(digits);
        if s[0] == '-' then (if v <= -MIN64 then Some(-v) else None)
        else if v <= MAX64 then Some(v) else None
  }

  function KindText(k: DigestKind): string {
    match k
    case NoKind => ""
    case FullKind => "sha256"
    case PartialKind => "sha256p"
    case LinkKind => "link"
  }

  function DigestText(d: Digest): string {
    if d.IsZero() then ""
    else if d.kind == PartialKind then KindText(d.kind) + ":" + d.hex + ":" + FormatInt(d.size)
    else KindText(d.kind) + ":" + d.hex
  }

  datatype ParseError = SizeRequired | UnexpectedKind | BadSize | UnknownFormat

  function ParseDigest(s: string): Result<Digest, ParseError> {
    if s == "" then Success(ZERO)
    else
      var parts := Split(s, ':');
      if |parts| == 1 then Success(Digest(FullKind, parts[0], 0))
      else if |parts| == 2 then
        if parts[0] == KindText(FullKind) then Success(Digest(FullKind, parts[1], 0))
        else if parts[0] == KindText(LinkKind) then Success(Digest(LinkKind, parts[1], 0))
        else Failure(SizeRequired)
      else if |parts| == 3 then
        if parts[0] != KindText(PartialKind) then Failure(UnexpectedKind)
        else
          match ParseInt(parts[2])
          case None => Failure(BadSize)
          case Some(size) => Success(Digest(PartialKind, parts[1], size))
      else Failure(UnknownFormat)
  }

  /** What the database hands back: the size survives only for sampled digests. */
  function Stored(d: Digest): Digest {
    if d.kind == PartialKind then d else d.(size := 0)
  }

  lemma {:induction false} DecimalReads(n: nat)
    ensures Decimal(n) != "" && AllDigits(Decimal(n)) && DecimalValue(Decimal(n)) == n
    ensures ':' !in Decimal(n) && '-' !in Decimal(n) && '+' !in Decimal(n)
  {
    if n >= 10 {
      DecimalReads(n / 10);
      var s := Decimal(n);
      assert s[..|s| - 1] == Decimal(n / 10);
    }
  }

  lemma ParsePositive(digits: string)
    requires digits != "" && AllDigits(digits) && DecimalValue(digits) <= MAX64
    ensures ParseInt(digits) == Some(DecimalValue(digits) as int)
  {
    assert '0' <= digits[0] <= '9';
  }

  lemma ParseNegative(digits: string)
    requires digits != "" && AllDigits(digits) && DecimalValue(digits) <= -MIN64
    ensures ParseInt("-" + digits) == Some(-(DecimalValue(digits) as int))
  {
    assert ("-" + digits)[1..] == digits;
  }

  lemma ParseFormatted(n: int)
    requires MIN64 <= n <= MAX64
    ensures ParseInt(FormatInt(n)) == Some(n) && ':' !in FormatInt(n)
  {
    if n < 0 {
      DecimalReads(-n);
      ParseNegative(Decimal(-n));
    } else {
      DecimalReads(n);
      ParsePositive(Decimal(n));
    }
  }

  lemma SplitTwo(a: string, b: string)
    requires ':' !in a && ':' !in b
    ensures Split(a + ":" + b, ':') == [a, b]
  {
    SplitJoin(a, ':', b);
    SplitOne(a, ':');
    SplitOne(b, ':');
  }

  lemma SplitThree(a: string, b: string, c: string)
    requires ':' !in a && ':' !in b && ':' !in c
    ensures Split(a + ":" + b + ":" + c, ':') == [a, b, c]
  {
    assert a + ":" + b + ":" + c == a + [':'] + (b + ":" + c);
    SplitJoin(a, ':', b + ":" + c);
    SplitOne(a, ':');
    SplitTwo(b, c);
  }

  /** A digest written to the database and read back is the same digest. */
  lemma TextRoundTrip(d: Digest)
    requires d.kind != NoKind && d.hex != "" && ':' !in d.hex && MIN64 <= d.size <= MAX64
    ensures ParseDigest(DigestText(d)) == Success(Stored(d))
    ensures Compare(Stored(d), d) == Same
  {
    if d.kind == PartialKind {
      ParseFormatted(d.size);
      SplitThree(KindText(d.kind), d.hex, FormatInt(d.size));
    } else {
      SplitTwo(KindText(d.kind), d.hex);
    }
  }

  /** Every digest the engine computes survives the database, and compares as it did before. */
  lemma ComputedSurvives(n: Node, maxBytes: int, sampleBytes: int)
    requires Carries(n)
    ensures ParseDigest(DigestText(Compute(n, maxBytes, sampleBytes))) == Success(Stored(Compute(n, maxBytes,
      sampleBytes)))
    ensures forall x :: Compare(x, Stored(Compute(n, maxBytes, sampleBytes))) == Compare(x, Compute(n, maxBytes, sampleBytes))
  {
    var d := Compute(n, maxBytes, sampleBytes);
    match n {
      case File(content, _, _) =>
        ShaIsText(content);
        ShaIsText(Sampled(content, if sampleBytes <= 0 then DEFAULT_SAMPLE else sampleBytes));
      case Symlink(target, _) => ShaIsText(target);
    }
    TextRoundTrip(d);
  }
}
