/**
 * Identity of the migration bundle: the canonical order, the length-framed byte string that is
 * hashed, and a decoder that inverts it. SHA-256 itself is a parameter.
 */
module MigrationIdentity {
  import opened Wrappers

  newtype Byte = b: int | 0 <= b < 0x100

  type Bytes = seq<Byte>

  const U64_LIMIT: nat := 0x1_0000_0000_0000_0000
  const I64_LIMIT: int := 0x8000_0000_0000_0000

  type U64 = n: nat | n < 0x1_0000_0000_0000_0000
  type I64 = n: int | -0x8000_0000_0000_0000 <= n < 0x8000_0000_0000_0000

  datatype MigrationType = Simple | ReversibleUp | ReversibleDown

  /** The fields of a bundled migration that the fingerprint covers. */
  datatype Migration = Migration(
    version: I64, description: Bytes, migrationType: MigrationType, checksum: Bytes, noTx: bool)

  function TypeTag(t: MigrationType): nat {
    match t
    case Simple => 0
    case ReversibleUp => 1
    case ReversibleDown => 2
  }

  /** The ASCII bytes of a literal. */
  function Ascii(s: string): Bytes
    requires forall i :: 0 <= i < |s| ==> s[i] as int < 0x100
  {
    seq(|s|, i requires 0 <= i < |s| => s[i] as int as Byte)
  }

  const BUNDLE_DOMAIN: Bytes := Ascii("runledger-postgres:migration-bundle:v1") + [0]
  const PIPELINE_DOMAIN: Bytes := Ascii("runledger-postgres:migration-pipeline:v1") + [0]

  // ---- encoding ---------------------------------------------------------------------------

  function Pow256(k: nat): (p: nat)
    ensures p > 0
  {
    if k == 0 then 1 else 256 * Pow256(k - 1)
  }

  /** `k` bytes, most significant first. */
  function BigEndian(n: nat, k: nat): Bytes {
    if k == 0 then [] else BigEndian(n / 256, k - 1) + [(n % 256) as Byte]
  }

  function U64Bytes(n: U64): Bytes { BigEndian(n, 8) }

  /** Two's complement. */
  function I64Bytes(v: I64): Bytes { BigEndian(if v < 0 then v + U64_LIMIT else v, 8) }

  ghost predicate Framable(b: Bytes) { |b| < U64_LIMIT }

  function Frame(b: Bytes): Bytes
    requires Framable(b)
  {
    U64Bytes(|b|) + b
  }

  ghost predicate Encodable(m: Migration) { Framable(m.description) && Framable(m.checksum) }

  function Entry(m: Migration): Bytes
    requires Encodable(m)
  {
    I64Bytes(m.version) + Frame(m.description) + [TypeTag(m.migrationType) as Byte]
    + Frame(m.checksum) + [if m.noTx then 1 else 0]
  }

  ghost predicate EncodableEach(ms: seq<Migration>) {
    forall i :: 0 <= i < |ms| ==> Encodable(ms[i])
  }

  ghost predicate EncodableAll(ms: seq<Migration>) { |ms| < U64_LIMIT && EncodableEach(ms) }

  function Entries(ms: seq<Migration>): Bytes
    requires EncodableEach(ms)
  {
    if ms == [] then [] else Entry(ms[0]) + Entries(ms[1..])
  }

  function BundlePreimage(ms: seq<Migration>): Bytes
    requires EncodableAll(ms)
  {
    BUNDLE_DOMAIN + U64Bytes(|ms|) + Entries(ms)
  }

  function PipelinePreimage(version: Bytes, bundleFingerprint: Bytes): Bytes
    requires Framable(version)
  {
    PIPELINE_DOMAIN + Frame(version) + bundleFingerprint
  }

  // ---- the incremental digest -------------------------------------------------------------

  /** What has been fed to the hasher so far. */
  class Digest {
    var fed: Bytes

    constructor ()
      ensures fed == []
    {
      fed := [];
    }

    method Update(b: Bytes)
      modifies this
      ensures fed == old(fed) + b
    {
      fed := fed + b;
    }

    method AddFrame(b: Bytes)
      requires Framable(b)
      modifies this
      ensures fed == old(fed) + Frame(b)
    {
      Update(U64Bytes(|b|));
      Update(b);
    }

    method AddEntry(m: Migration)
      requires Encodable(m)
      modifies this
      ensures fed == old(fed) + Entry(m)
    {
      Update(I64Bytes(m.version));
      AddFrame(m.description);
      Update([TypeTag(m.migrationType) as Byte]);
      AddFrame(m.checksum);
      Update([if m.noTx then 1 else 0]);
    }
  }

  lemma {:induction false} EntriesSnoc(ms: seq<Migration>, m: Migration)
    requires EncodableEach(ms) && Encodable(m)
    ensures Entries(ms + [m]) == Entries(ms) + Entry(m)
  {
    if ms == [] {
      assert ms + [m] == [m];
    } else {
      assert (ms + [m])[1..] == ms[1..] + [m];
      EntriesSnoc(ms[1..], m);
    }
  }

  lemma Associates(a: Bytes, b: Bytes, c: Bytes)
    ensures a + b + c == a + (b + c)
  {
  }

  method AddEntries(digest: Digest, ms: seq<Migration>)
    requires EncodableEach(ms)
    modifies digest
    ensures digest.fed == old(digest.fed) + Entries(ms)
  {
    for i := 0 to |ms|
      invariant digest.fed == old(digest.fed) + Entries(ms[..i])
    {
      digest.AddEntry(ms[i]);
      EntriesSnoc(ms[..i], ms[i]);
      assert ms[..i + 1] == ms[..i] + [ms[i]];
      Associates(old(digest.fed), Entries(ms[..i]), Entry(ms[i]));
    }
    assert ms[..|ms|] == ms;
  }

  method FingerprintBundle(ms: seq<Migration>, sha256: Bytes -> Bytes) returns (hash: Bytes)
    requires EncodableAll(ms)
    ensures hash == sha256(BundlePreimage(ms))
  {
    var digest := new Digest();
    digest.Update(BUNDLE_DOMAIN);
    AddCountedEntries(digest, ms);
    Associates(BUNDLE_DOMAIN, U64Bytes(|ms|), Entries(ms));
    assert [] + BUNDLE_DOMAIN == BUNDLE_DOMAIN;
    hash := sha256(digest.fed);
  }

  method AddCountedEntries(digest: Digest, ms: seq<Migration>)
    requires EncodableAll(ms)
    modifies digest
    ensures digest.fed == old(digest.fed) + (U64Bytes(|ms|) + Entries(ms))
  {
    digest.Update(U64Bytes(|ms|));
    AddEntries(digest, ms);
    Associates(old(digest.fed), U64Bytes(|ms|), Entries(ms));
  }

  method FingerprintPipeline(version: Bytes, bundleFingerprint: Bytes, sha256: Bytes -> Bytes)
    returns (hash: Bytes)
    requires Framable(version)
    ensures hash == sha256(PipelinePreimage(version, bundleFingerprint))
  {
    var digest := new Digest();
    digest.Update(PIPELINE_DOMAIN);
    digest.AddFrame(version);
    digest.Update(bundleFingerprint);
    assert digest.fed == PipelinePreimage(version, bundleFingerprint);
    hash := sha256(digest.fed);
  }

  // ---- the documented layout --------------------------------------------------------------

  /** Each byte of a number is its digit to base 256, the most significant first. */
  lemma {:induction false} BigEndianDigits(n: nat, k: nat, i: nat)
    requires i < k
    ensures |BigEndian(n, k)| == k
    ensures BigEndian(n, k)[i] as nat == (n / Pow256(k - 1 - i)) % 256
  {
    BigEndianLength(n, k);
    BigEndianLength(n / 256, k - 1);
    if i < k - 1 {
      BigEndianDigits(n / 256, k - 1, i);
      DivideTwice(n, Pow256(k - 2 - i));
    }
  }

  lemma {:induction false} BigEndianLength(n: nat, k: nat)
    ensures |BigEndian(n, k)| == k
  {
    if k > 0 {
      BigEndianLength(n / 256, k - 1);
    }
  }

  lemma DivideTwice(n: nat, m: nat)
    requires m > 0
    ensures n / 256 / m == n / (256 * m)
  {
    var q, r := n / 256 / m, n / 256 % m;
    assert n / 256 == m * q + r && r <= m - 1;
    var rest := 256 * r + n % 256;
    assert n == 256 * (m * q + r) + n % 256;
    assert n == q * (256 * m) + rest && 0 <= rest < 256 * m;
    QuotientIs(n, 256 * m, q, rest);
  }

  lemma QuotientIs(n: nat, d: nat, q: nat, r: nat)
    requires n == q * d + r && r < d
    ensures n / d == q
  {
    var p := n / d;
    assert n == p * d + n % d;
    if p < q {
      TimesGrows(p + 1, q, d);
    } else if q < p {
      TimesGrows(q + 1, p, d);
    }
  }

  lemma TimesGrows(a: nat, b: nat, d: nat)
    requires a <= b
    ensures a * d <= b * d
  {
  }

  /**
   * The fields of an entry where the format puts them: version, framed description, tag 0 for
   * simple, 1 for up and 2 for down, framed checksum, and 1 for a migration outside a transaction.
   */
  lemma EntryLayout(m: Migration)
    requires Encodable(m)
    ensures var e, d, c := Entry(m), |m.description|, |m.checksum|;
            && |e| == 26 + d + c
            && e[..8] == BigEndian(if m.version < 0 then m.version + U64_LIMIT else m.version, 8)
            && e[8..16] == BigEndian(d, 8) && e[16..16 + d] == m.description
            && e[16 + d] == (match m.migrationType
                             case Simple => 0 case ReversibleUp => 1 case ReversibleDown => 2)
            && e[17 + d..25 + d] == BigEndian(c, 8) && e[25 + d..25 + d + c] == m.checksum
            && e[25 + d + c] == (if m.noTx then 1 else 0)
  {
    BigEndianLength(if m.version < 0 then m.version + U64_LIMIT else m.version, 8);
    BigEndianLength(|m.description|, 8);
    BigEndianLength(|m.checksum|, 8);
  }

  lemma DomainLengths()
    ensures |BUNDLE_DOMAIN| == 39 && |PIPELINE_DOMAIN| == 41
  {
  }

  /** The count follows the domain. */
  lemma BundleLayout(ms: seq<Migration>)
    requires EncodableAll(ms)
    ensures var b := BundlePreimage(ms);
            BUNDLE_DOMAIN <= b && |b| >= 47 && b[39..47] == BigEndian(|ms|, 8)
  {
    DomainLengths();
    BigEndianLength(|ms|, 8);
    Slices(BUNDLE_DOMAIN, U64Bytes(|ms|), Entries(ms));
  }

  /** The framed release follows the domain, and the bundle fingerprint ends it. */
  lemma PipelineLayout(version: Bytes, fingerprint: Bytes)
    requires Framable(version)
    ensures var p := PipelinePreimage(version, fingerprint);
            && PIPELINE_DOMAIN <= p && |p| == 49 + |version| + |fingerprint|
            && p[41..49 + |version|] == BigEndian(|version|, 8) + version
            && p[49 + |version|..] == fingerprint
  {
    DomainLengths();
    BigEndianLength(|version|, 8);
    Slices(PIPELINE_DOMAIN, Frame(version), fingerprint);
  }

  lemma Slices(a: Bytes, b: Bytes, c: Bytes)
    ensures a <= a + b + c
    ensures (a + b + c)[|a|..|a| + |b|] == b && (a + b + c)[|a| + |b|..] == c
  {
  }

  // ---- decoding ---------------------------------------------------------------------------

  /** A decoded value and the bytes after it. */
  datatype Parsed<+T> = Parsed(value: T, rest: Bytes)

  function Number(b: Bytes): nat {
    if b == [] then 0 else 256 * Number(b[..|b| - 1]) + b[|b| - 1] as nat
  }

  function DecodeU64(b: Bytes): Option<Parsed<nat>> {
    if |b| < 8 then None else Some(Parsed(Number(b[..8]), b[8..]))
  }

  function DecodeI64(b: Bytes): Option<Parsed<int>> {
    var n :- DecodeU64(b);
    Some(Parsed(if n.value >= I64_LIMIT then n.value - U64_LIMIT else n.value, n.rest))
  }

  function DecodeFrame(b: Bytes): Option<Parsed<Bytes>> {
    var n :- DecodeU64(b);
    if |n.rest| < n.value then None else Some(Parsed(n.rest[..n.value], n.rest[n.value..]))
  }

  function DecodeType(b: Bytes): Option<Parsed<MigrationType>> {
    if b == [] || b[0] > 2 then None
    else
      Some(Parsed(if b[0] == 0 then Simple else if b[0] == 1 then ReversibleUp else ReversibleDown,
                  b[1..]))
  }

  function DecodeFlag(b: Bytes): Option<Parsed<bool>> {
    if b == [] || b[0] > 1 then None else Some(Parsed(b[0] == 1, b[1..]))
  }

  function DecodeEntry(b: Bytes): Option<Parsed<Migration>> {
    var v :- DecodeI64(b);
    var d :- DecodeFrame(v.rest);
    var t :- DecodeType(d.rest);
    var c :- DecodeFrame(t.rest);
    var n :- DecodeFlag(c.rest);
    if -I64_LIMIT <= v.value < I64_LIMIT
    then Some(Parsed(Migration(v.value, d.value, t.value, c.value, n.value), n.rest))
    else None
  }

  function DecodeEntries(b: Bytes, count: nat): Option<Parsed<seq<Migration>>> {
    if count == 0 then Some(Parsed([], b))
    else
      var m :- DecodeEntry(b);
      var ms :- DecodeEntries(m.rest, count - 1);
      Some(Parsed([m.value] + ms.value, ms.rest))
  }

  function DecodeBundle(b: Bytes): Option<Parsed<seq<Migration>>> {
    if !(BUNDLE_DOMAIN <= b) then None
    else
      var count :- DecodeU64(b[|BUNDLE_DOMAIN|..]);
      DecodeEntries(count.rest, count.value)
  }

  function DecodePipeline(b: Bytes): Option<Parsed<Bytes>> {
    if !(PIPELINE_DOMAIN <= b) then None else DecodeFrame(b[|PIPELINE_DOMAIN|..])
  }

  // ---- unique decoding --------------------------------------------------------------------

  lemma {:induction false} NumberOfBigEndian(n: nat, k: nat)
    requires n < Pow256(k)
    ensures |BigEndian(n, k)| == k && Number(BigEndian(n, k)) == n
  {
    if k > 0 {
      NumberOfBigEndian(n / 256, k - 1);
      assert BigEndian(n, k)[..k - 1] == BigEndian(n / 256, k - 1);
    }
  }

  lemma U64RoundTrip(n: U64, rest: Bytes)
    ensures DecodeU64(U64Bytes(n) + rest) == Some(Parsed(n, rest))
  {
    assert Pow256(8) == 256 * 256 * 256 * 256 * Pow256(4);
    assert Pow256(4) == 256 * 256 * 256 * 256;
    NumberOfBigEndian(n, 8);
    assert (U64Bytes(n) + rest)[..8] == U64Bytes(n) && (U64Bytes(n) + rest)[8..] == rest;
  }

  lemma I64RoundTrip(v: I64, rest: Bytes)
    ensures DecodeI64(I64Bytes(v) + rest) == Some(Parsed(v, rest))
  {
    U64RoundTrip(if v < 0 then v + U64_LIMIT else v, rest);
  }

  lemma FrameRoundTrip(b: Bytes, rest: Bytes)
    requires Framable(b)
    ensures DecodeFrame(Frame(b) + rest) == Some(Parsed(b, rest))
  {
    assert Frame(b) + rest == U64Bytes(|b|) + (b + rest);
    U64RoundTrip(|b|, b + rest);
    assert (b + rest)[..|b|] == b && (b + rest)[|b|..] == rest;
  }

  lemma EntryRoundTrip(m: Migration, rest: Bytes)
    requires Encodable(m)
    ensures DecodeEntry(Entry(m) + rest) == Some(Parsed(m, rest))
  {
    var r4 := [(if m.noTx then 1 else 0) as Byte] + rest;
    var r3 := Frame(m.checksum) + r4;
    var r2 := [TypeTag(m.migrationType) as Byte] + r3;
    var r1 := Frame(m.description) + r2;
    assert Entry(m) + rest == I64Bytes(m.version) + r1 by { EntrySplit(m, rest); }
    assert DecodeI64(I64Bytes(m.version) + r1) == Some(Parsed(m.version, r1)) by {
      I64RoundTrip(m.version, r1);
    }
    assert DecodeFrame(r1) == Some(Parsed(m.description, r2)) by { FrameRoundTrip(m.description, r2); }
    assert DecodeType(r2) == Some(Parsed(m.migrationType, r3)) by { assert r2[1..] == r3; }
    assert DecodeFrame(r3) == Some(Parsed(m.checksum, r4)) by { FrameRoundTrip(m.checksum, r4); }
    assert DecodeFlag(r4) == Some(Parsed(m.noTx, rest)) by { assert r4[1..] == rest; }
  }

  lemma EntrySplit(m: Migration, rest: Bytes)
    requires Encodable(m)
    ensures Entry(m) + rest
            == I64Bytes(m.version) + (Frame(m.description) + ([TypeTag(m.migrationType) as Byte]
               + (Frame(m.checksum) + ([if m.noTx then 1 else 0] + rest))))
  {
    var v, d, c := I64Bytes(m.version), Frame(m.description), Frame(m.checksum);
    Regroup(v, d, [TypeTag(m.migrationType) as Byte], c, [(if m.noTx then 1 else 0) as Byte], rest);
  }

  lemma Regroup(a: Bytes, b: Bytes, c: Bytes, d: Bytes, e: Bytes, f: Bytes)
    ensures a + b + c + d + e + f == a + (b + (c + (d + (e + f))))
  {
  }

  lemma {:induction false} EntriesRoundTrip(ms: seq<Migration>, rest: Bytes)
    requires EncodableEach(ms)
    ensures DecodeEntries(Entries(ms) + rest, |ms|) == Some(Parsed(ms, rest))
    decreases |ms|
  {
    if ms == [] {
      assert Entries(ms) + rest == rest;
    } else {
      var tail := Entries(ms[1..]) + rest;
      assert Entries(ms) + rest == Entry(ms[0]) + tail;
      assert DecodeEntry(Entry(ms[0]) + tail) == Some(Parsed(ms[0], tail)) by {
        EntryRoundTrip(ms[0], tail);
      }
      EntriesRoundTrip(ms[1..], rest);
      assert [ms[0]] + ms[1..] == ms;
    }
  }

  /** The decoder inverts the bundle preimage, also in front of any other bytes. */
  lemma BundleRoundTrip(ms: seq<Migration>, rest: Bytes)
    requires EncodableAll(ms)
    ensures DecodeBundle(BundlePreimage(ms) + rest) == Some(Parsed(ms, rest))
  {
    DomainInFront(BUNDLE_DOMAIN, U64Bytes(|ms|), Entries(ms), rest);
    U64RoundTrip(|ms|, Entries(ms) + rest);
    EntriesRoundTrip(ms, rest);
  }

  lemma DomainInFront(domain: Bytes, a: Bytes, b: Bytes, rest: Bytes)
    ensures domain <= domain + a + b + rest
    ensures (domain + a + b + rest)[|domain|..] == a + (b + rest)
  {
  }

  /** Different manifests never share a preimage, nor is one a prefix of another's. */
  lemma BundlePreimageIsPrefixFree(ms: seq<Migration>, ns: seq<Migration>)
    requires EncodableAll(ms) && EncodableAll(ns)
    requires BundlePreimage(ms) <= BundlePreimage(ns)
    ensures ms == ns
  {
    var rest := BundlePreimage(ns)[|BundlePreimage(ms)|..];
    assert BundlePreimage(ns) == BundlePreimage(ms) + rest;
    BundleRoundTrip(ms, rest);
    BundleRoundTrip(ns, []);
    assert BundlePreimage(ns) + [] == BundlePreimage(ns);
  }

  lemma PipelineRoundTrip(version: Bytes, fingerprint: Bytes)
    requires Framable(version)
    ensures DecodePipeline(PipelinePreimage(version, fingerprint)) == Some(Parsed(version, fingerprint))
  {
    DomainInFront(PIPELINE_DOMAIN, Frame(version), fingerprint, []);
    assert PipelinePreimage(version, fingerprint) + [] == PipelinePreimage(version, fingerprint);
    assert fingerprint + [] == fingerprint;
    FrameRoundTrip(version, fingerprint);
  }

  lemma DomainsDiffer(v: Bytes, fingerprint: Bytes, ms: seq<Migration>)
    requires Framable(v) && EncodableAll(ms)
    ensures PipelinePreimage(v, fingerprint) != BundlePreimage(ms)
  {
    assert PipelinePreimage(v, fingerprint)[29] == 'p' as int as Byte;
    assert BundlePreimage(ms)[29] == 'b' as int as Byte;
  }

  ghost predicate CollisionFree(sha256: Bytes -> Bytes, xs: set<Bytes>) {
    forall x, y :: x in xs && y in xs && sha256(x) == sha256(y) ==> x == y
  }

  function PipelineFingerprint(
      version: Bytes, ms: seq<Migration>, sha256: Bytes -> Bytes): Bytes
    requires Framable(version) && EncodableAll(ms)
  {
    sha256(PipelinePreimage(version, sha256(BundlePreimage(ms))))
  }

  /** Unless the hash collides on these inputs, equal identities mean equal release and bundle. */
  lemma PipelineIdentifiesContent(
      v: Bytes, ms: seq<Migration>, w: Bytes, ns: seq<Migration>, sha256: Bytes -> Bytes)
    requires Framable(v) && EncodableAll(ms) && Framable(w) && EncodableAll(ns)
    requires CollisionFree(sha256, {
        BundlePreimage(ms), BundlePreimage(ns),
        PipelinePreimage(v, sha256(BundlePreimage(ms))),
        PipelinePreimage(w, sha256(BundlePreimage(ns)))})
    ensures PipelineFingerprint(v, ms, sha256) == PipelineFingerprint(w, ns, sha256)
            <==> v == w && ms == ns
  {
    if PipelineFingerprint(v, ms, sha256) == PipelineFingerprint(w, ns, sha256) {
      PipelineRoundTrip(v, sha256(BundlePreimage(ms)));
      PipelineRoundTrip(w, sha256(BundlePreimage(ns)));
      BundlePreimageIsPrefixFree(ms, ns);
    }
  }

  // ---- canonical order --------------------------------------------------------------------

  predicate KeyLess(a: Migration, b: Migration) {
    || a.version < b.version
    || (a.version == b.version && TypeTag(a.migrationType) < TypeTag(b.migrationType))
  }

  predicate SameKey(a: Migration, b: Migration) {
    a.version == b.version && a.migrationType == b.migrationType
  }

  /** Stable insertion: after every entry whose key is not greater. */
  function Insert(sorted: seq<Migration>, m: Migration): seq<Migration> {
    if sorted == [] || !KeyLess(m, sorted[|sorted| - 1]) then sorted + [m]
    else Insert(sorted[..|sorted| - 1], m) + [sorted[|sorted| - 1]]
  }

  /** What a stable sort by (version, tag) returns. */
  function Canonical(ms: seq<Migration>): seq<Migration> {
    if ms == [] then [] else Insert(Canonical(ms[..|ms| - 1]), ms[|ms| - 1])
  }

  ghost predicate Sorted(ms: seq<Migration>) {
    forall i, j :: 0 <= i < j < |ms| ==> !KeyLess(ms[j], ms[i])
  }

  function WithKey(ms: seq<Migration>, k: Migration): seq<Migration> {
    if ms == [] then []
    else WithKey(ms[..|ms| - 1], k)
         + if SameKey(ms[|ms| - 1], k) then [ms[|ms| - 1]] else []
  }

  lemma {:induction false} InsertKeeps(sorted: seq<Migration>, m: Migration)
    ensures multiset(Insert(sorted, m)) == multiset(sorted) + multiset{m}
  {
    if sorted != [] && KeyLess(m, sorted[|sorted| - 1]) {
      InsertKeeps(sorted[..|sorted| - 1], m);
      assert sorted == sorted[..|sorted| - 1] + [sorted[|sorted| - 1]];
    }
  }

  lemma {:induction false} InsertSorts(sorted: seq<Migration>, m: Migration)
    requires Sorted(sorted)
    ensures Sorted(Insert(sorted, m))
  {
    if sorted != [] && KeyLess(m, sorted[|sorted| - 1]) {
      var init, last := sorted[..|sorted| - 1], sorted[|sorted| - 1];
      InsertSorts(init, m);
      InsertKeeps(init, m);
      forall i | 0 <= i < |Insert(init, m)| ensures !KeyLess(last, Insert(init, m)[i]) {
        assert Insert(init, m)[i] in multiset(Insert(init, m));
      }
    }
  }

  lemma {:induction false} InsertIsStable(sorted: seq<Migration>, m: Migration, k: Migration)
    requires Sorted(sorted)
    ensures WithKey(Insert(sorted, m), k)
            == WithKey(sorted, k) + if SameKey(m, k) then [m] else []
  {
    var r := Insert(sorted, m);
    if sorted == [] || !KeyLess(m, sorted[|sorted| - 1]) {
      assert r[..|r| - 1] == sorted;
    } else {
      var init, last := sorted[..|sorted| - 1], sorted[|sorted| - 1];
      InsertIsStable(init, m, k);
      assert r[..|r| - 1] == Insert(init, m);
      assert !(SameKey(m, k) && SameKey(last, k));
    }
  }

  lemma {:induction false} CanonicalSorts(ms: seq<Migration>)
    ensures Sorted(Canonical(ms))
  {
    if ms != [] {
      CanonicalSorts(ms[..|ms| - 1]);
      InsertSorts(Canonical(ms[..|ms| - 1]), ms[|ms| - 1]);
    }
  }

  /** Versions ascend; within a version, simple comes before up, and up before down. */
  lemma CanonicalIsSorted(ms: seq<Migration>, i: nat, j: nat)
    requires i < j < |Canonical(ms)|
    ensures var a, b := Canonical(ms)[i], Canonical(ms)[j];
            && a.version <= b.version
            && (a.version == b.version ==>
                  a.migrationType == b.migrationType
                  || a.migrationType == Simple || b.migrationType == ReversibleDown)
  {
    CanonicalSorts(ms);
    assert !KeyLess(Canonical(ms)[j], Canonical(ms)[i]);
  }

  lemma {:induction false} CanonicalKeepsEntries(ms: seq<Migration>)
    ensures multiset(Canonical(ms)) == multiset(ms)
  {
    if ms != [] {
      var init, last := ms[..|ms| - 1], ms[|ms| - 1];
      CanonicalKeepsEntries(init);
      InsertKeeps(Canonical(init), last);
      assert ms == init + [last];
    }
  }

  /** Entries with one key stay in the order they came in. */
  lemma {:induction false} CanonicalIsStable(ms: seq<Migration>, k: Migration)
    ensures WithKey(Canonical(ms), k) == WithKey(ms, k)
  {
    if ms != [] {
      CanonicalIsStable(ms[..|ms| - 1], k);
      CanonicalSorts(ms[..|ms| - 1]);
      InsertIsStable(Canonical(ms[..|ms| - 1]), ms[|ms| - 1], k);
    }
  }

  /** Entries with the same key are the same entry. */
  ghost predicate KeysIdentify(ms: seq<Migration>) {
    forall a, b :: a in ms && b in ms && SameKey(a, b) ==> a == b
  }

  lemma {:induction false} SortedIsUnique(s: seq<Migration>, t: seq<Migration>)
    requires Sorted(s) && Sorted(t) && KeysIdentify(s) && multiset(s) == multiset(t)
    ensures s == t
  {
    assert |s| == |multiset(s)| == |multiset(t)| == |t|;
    if s != [] {
      LastIsShared(s, t);
      InitIsShared(s, t);
      SortedIsUnique(s[..|s| - 1], t[..|t| - 1]);
      assert s == s[..|s| - 1] + [s[|s| - 1]] && t == t[..|t| - 1] + [t[|t| - 1]];
    }
  }

  lemma LastIsShared(s: seq<Migration>, t: seq<Migration>)
    requires Sorted(s) && Sorted(t) && KeysIdentify(s) && multiset(s) == multiset(t)
    requires s != [] && t != []
    ensures s[|s| - 1] == t[|t| - 1]
  {
    LastIsGreatest(s, t);
    LastIsGreatest(t, s);
    assert t[|t| - 1] in multiset(s);
    assert SameKey(s[|s| - 1], t[|t| - 1]);
  }

  lemma InitIsShared(s: seq<Migration>, t: seq<Migration>)
    requires multiset(s) == multiset(t) && s != [] && t != [] && s[|s| - 1] == t[|t| - 1]
    ensures multiset(s[..|s| - 1]) == multiset(t[..|t| - 1])
  {
    assert s == s[..|s| - 1] + [s[|s| - 1]] && t == t[..|t| - 1] + [t[|t| - 1]];
    assert multiset(s[..|s| - 1]) == multiset(s) - multiset{s[|s| - 1]};
  }

  lemma LastIsGreatest(s: seq<Migration>, t: seq<Migration>)
    requires Sorted(s) && multiset(s) == multiset(t) && s != [] && t != []
    ensures !KeyLess(s[|s| - 1], t[|t| - 1])
  {
    assert t[|t| - 1] in multiset(s);
    var i :| 0 <= i < |s| && s[i] == t[|t| - 1];
  }

  ghost predicate OrderIndependent(ms: seq<Migration>) {
    forall a: seq<Migration>, b: seq<Migration>
      | Permutes(a, ms) && Permutes(b, ms) :: Canonical(a) == Canonical(b)
  }

  ghost predicate Permutes(a: seq<Migration>, ms: seq<Migration>) { multiset(a) == multiset(ms) }

  lemma KeysIdentifyPermuted(a: seq<Migration>, ms: seq<Migration>)
    requires multiset(a) == multiset(ms) && KeysIdentify(ms)
    ensures KeysIdentify(a)
  {
    forall x, y | x in a && y in a && SameKey(x, y) ensures x == y {
      assert x in multiset(ms) && y in multiset(ms);
    }
  }

  /** Two different entries with one key, put first in either order, stay in that order. */
  lemma {:induction false} FrontStaysInFront(x: Migration, y: Migration, rest: seq<Migration>)
    requires SameKey(x, y)
    ensures [x, y] <= WithKey([x, y] + rest, x)
  {
    var s := [x, y] + rest;
    if rest == [] {
      assert s == [x, y] && s[..1] == [x] && s[..1][..0] == [];
      assert WithKey([], x) == [] && WithKey([x], x) == [x] by { assert [x][..0] == []; }
      assert WithKey(s, x) == [x] + [y];
    } else {
      assert s[..|s| - 1] == [x, y] + rest[..|rest| - 1];
      FrontStaysInFront(x, y, rest[..|rest| - 1]);
    }
  }

  /**
   * The manifest, and with it both fingerprints, is independent of the order the migrator
   * yields its entries exactly when no two different entries share (version, type).
   */
  lemma CanonicalOrderIndependentIff(ms: seq<Migration>)
    ensures OrderIndependent(ms) <==> KeysIdentify(ms)
  {
    if KeysIdentify(ms) {
      forall a: seq<Migration>, b: seq<Migration>
        | Permutes(a, ms) && Permutes(b, ms)
        ensures Canonical(a) == Canonical(b)
      {
        CanonicalSorts(a);
        CanonicalSorts(b);
        CanonicalKeepsEntries(a);
        CanonicalKeepsEntries(b);
        KeysIdentifyPermuted(Canonical(a), ms);
        SortedIsUnique(Canonical(a), Canonical(b));
      }
    } else {
      var x, y :| x in ms && y in ms && SameKey(x, y) && x != y;
      OrderMatters(ms, x, y);
    }
  }

  lemma OrderMatters(ms: seq<Migration>, x: Migration, y: Migration)
    requires x in ms && y in ms && SameKey(x, y) && x != y
    ensures !OrderIndependent(ms)
  {
    var a, b := BothOrders(ms, x, y);
  }

  lemma BothOrders(ms: seq<Migration>, x: Migration, y: Migration)
    returns (a: seq<Migration>, b: seq<Migration>)
    requires x in ms && y in ms && SameKey(x, y) && x != y
    ensures Permutes(a, ms) && Permutes(b, ms) && Canonical(a) != Canonical(b)
  {
    var rest := SeqOf(multiset(ms) - multiset{x, y});
    a, b := [x, y] + rest, [y, x] + rest;
    PairInFront(ms, x, y, rest);
    BothOrdersSurvive(x, y, rest);
  }

  lemma BothOrdersSurvive(x: Migration, y: Migration, rest: seq<Migration>)
    requires SameKey(x, y) && x != y
    ensures Canonical([x, y] + rest) != Canonical([y, x] + rest)
  {
    FirstWithKey(x, y, rest);
    FirstWithKey(y, x, rest);
    SameKeySameFilter(Canonical([y, x] + rest), x, y);
  }

  lemma PairInFront(ms: seq<Migration>, x: Migration, y: Migration, rest: seq<Migration>)
    requires x in ms && y in ms && x != y
    requires multiset(rest) == multiset(ms) - multiset{x, y}
    ensures multiset([x, y] + rest) == multiset(ms) == multiset([y, x] + rest)
  {
    assert x in multiset(ms) && y in multiset(ms);
    assert multiset{x, y} <= multiset(ms);
    assert multiset([x, y]) == multiset{x, y} == multiset([y, x]);
  }

  lemma FirstWithKey(x: Migration, y: Migration, rest: seq<Migration>)
    requires SameKey(x, y)
    ensures var f := WithKey(Canonical([x, y] + rest), x);
            f != [] && f[0] == x
  {
    CanonicalIsStable([x, y] + rest, x);
    FrontStaysInFront(x, y, rest);
  }

  datatype MigrationBundle = MigrationBundle(
    migrations: seq<Migration>, bundleFingerprint: Bytes, pipelineFingerprint: Bytes)

  lemma CanonicalIsEncodable(ms: seq<Migration>)
    requires EncodableAll(ms)
    ensures EncodableAll(Canonical(ms))
  {
    CanonicalKeepsEntries(ms);
    assert |Canonical(ms)| == |multiset(Canonical(ms))| == |multiset(ms)| == |ms|;
    forall i | 0 <= i < |Canonical(ms)| ensures Encodable(Canonical(ms)[i]) {
      assert Canonical(ms)[i] in multiset(ms);
    }
  }

  /** Sort, fingerprint, and fingerprint the fingerprint. */
  method BuildBundle(entries: seq<Migration>, version: Bytes, sha256: Bytes -> Bytes)
    returns (bundle: MigrationBundle)
    requires EncodableAll(entries) && Framable(version)
    ensures EncodableAll(bundle.migrations)
    ensures bundle.migrations == Canonical(entries)
    ensures bundle.bundleFingerprint == sha256(BundlePreimage(bundle.migrations))
    ensures bundle.pipelineFingerprint == PipelineFingerprint(version, bundle.migrations, sha256)
  {
    CanonicalIsEncodable(entries);
    var migrations := Canonical(entries);
    var fingerprint := FingerprintBundle(migrations, sha256);
    var pipeline := FingerprintPipeline(version, fingerprint, sha256);
    bundle := MigrationBundle(migrations, fingerprint, pipeline);
  }

  lemma {:induction false} SameKeySameFilter(ms: seq<Migration>, x: Migration, y: Migration)
    requires SameKey(x, y)
    ensures WithKey(ms, x) == WithKey(ms, y)
  {
    if ms != [] {
      SameKeySameFilter(ms[..|ms| - 1], x, y);
    }
  }

  ghost function SeqOf(m: multiset<Migration>): (s: seq<Migration>)
    ensures multiset(s) == m
    decreases |m|
  {
    if m == multiset{} then []
    else
      var x :| x in m;
      [x] + SeqOf(m - multiset{x})
  }
}
