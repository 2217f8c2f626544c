/** Names of ephemeral test databases: normalisation, construction, and the name a drop targets. */
module DatabaseName {

  const COMPACT_PREFIX := 24
  const U64_LIMIT: nat := 0x1_0000_0000_0000_0000

  type U32 = n: nat | n < 0x1_0000_0000
  type U64 = n: nat | n < 0x1_0000_0000_0000_0000

  predicate IsDigit(c: char) { '0' <= c <= '9' }

  predicate IsLower(c: char) { 'a' <= c <= 'z' }

  predicate IsUpper(c: char) { 'A' <= c <= 'Z' }

  /** A character that may stand in a normalised name. */
  predicate IsNameChar(c: char) { IsDigit(c) || IsLower(c) || c == '_' }

  /** `to_ascii_lowercase` on letters, digits and `_`; every other character becomes `_`. */
  function Mapped(c: char): char {
    if IsUpper(c) then (c as int + 32) as char
    else if IsNameChar(c) then c
    else '_'
  }

  function MapAll(s: string): string {
    if s == [] then [] else MapAll(s[..|s| - 1]) + [Mapped(s[|s| - 1])]
  }

  /** Replaces every run of underscores by one underscore. */
  function Collapse(s: string): string {
    if |s| <= 1 then s
    else if s[0] == '_' && s[1] == '_' then Collapse(s[1..])
    else [s[0]] + Collapse(s[1..])
  }

  /** The last two steps: a name is never empty and never starts with a digit. */
  function WithSafeStart(s: string): string {
    var filled := if s == [] then "db" else s;
    if IsDigit(filled[0]) then "db_" + filled else filled
  }

  function Sanitized(input: string): string {
    WithSafeStart(Collapse(MapAll(input)))
  }

  /** What a normalised name looks like. */
  ghost predicate IsIdentifier(s: string) {
    && s != []
    && !IsDigit(s[0])
    && (forall i :: 0 <= i < |s| ==> IsNameChar(s[i]))
    && NoDoubleUnderscore(s)
  }

  ghost predicate NoDoubleUnderscore(s: string) {
    forall i :: !DoubleAt(s, i)
  }

  predicate DoubleAt(s: string, i: int) { 0 <= i < |s| - 1 && s[i] == '_' && s[i + 1] == '_' }

  // ---- the normalisation loop -------------------------------------------------------------

  lemma {:induction false} CollapseSnoc(s: string, c: char)
    ensures Collapse(s + [c]) ==
            if c == '_' && s != [] && s[|s| - 1] == '_' then Collapse(s) else Collapse(s) + [c]
  {
    if |s| >= 2 {
      assert (s + [c])[1..] == s[1..] + [c];
      CollapseSnoc(s[1..], c);
    }
  }

  /** `sanitize_identifier`: one pass with its `previous_was_underscore` flag computes `Sanitized`. */
  method SanitizeIdentifier(input: string) returns (normalized: string)
    ensures normalized == Sanitized(input)
  {
    normalized := "";
    var previousWasUnderscore := false;
    for i := 0 to |input|
      invariant normalized == Collapse(MapAll(input[..i]))
      invariant |MapAll(input[..i])| == i
      invariant previousWasUnderscore == (i > 0 && MapAll(input[..i])[i - 1] == '_')
    {
      var mapped := Mapped(input[i]);
      assert input[..i + 1][..i] == input[..i];
      CollapseSnoc(MapAll(input[..i]), mapped);
      if mapped == '_' {
        if !previousWasUnderscore {
          normalized := normalized + [mapped];
        }
        previousWasUnderscore := true;
      } else {
        normalized := normalized + [mapped];
        previousWasUnderscore := false;
      }
    }
    assert input[..|input|] == input;
    if normalized == "" {
      normalized := "db";
    }
    if IsDigit(normalized[0]) {
      normalized := "db_" + normalized;
    }
  }

  lemma {:induction false} MapAllChars(s: string)
    ensures |MapAll(s)| == |s|
    ensures forall i :: 0 <= i < |s| ==> MapAll(s)[i] == Mapped(s[i]) && IsNameChar(MapAll(s)[i])
  {
    if s != [] {
      MapAllChars(s[..|s| - 1]);
    }
  }

  lemma {:induction false} CollapseShape(s: string)
    ensures |Collapse(s)| <= |s|
    ensures NoDoubleUnderscore(Collapse(s))
    ensures s != [] ==> Collapse(s) != [] && Collapse(s)[0] == s[0]
    ensures forall c :: c in Collapse(s) ==> c in s
  {
    if |s| > 1 {
      CollapseShape(s[1..]);
      if !(s[0] == '_' && s[1] == '_') {
        var tail := Collapse(s[1..]);
        assert Collapse(s) == [s[0]] + tail;
        assert tail[0] == s[1];
        forall i ensures !DoubleAt(Collapse(s), i) {
          assert !DoubleAt(tail, i - 1);
        }
      }
    }
  }

  lemma {:induction false} CollapseFixed(s: string)
    requires NoDoubleUnderscore(s)
    ensures Collapse(s) == s
  {
    if |s| > 1 {
      assert !DoubleAt(s, 0);
      TailHasNoDouble(s);
      CollapseFixed(s[1..]);
    }
  }

  lemma TailHasNoDouble(s: string)
    requires s != [] && NoDoubleUnderscore(s)
    ensures NoDoubleUnderscore(s[1..])
  {
    forall i ensures !DoubleAt(s[1..], i) {
      assert !DoubleAt(s, i + 1);
    }
  }

  /** Every input is normalised to an identifier. */
  lemma SanitizedIsIdentifier(input: string)
    ensures IsIdentifier(Sanitized(input))
  {
    MapAllChars(input);
    CollapseShape(MapAll(input));
    var body := Collapse(MapAll(input));
    forall i | 0 <= i < |body| ensures IsNameChar(body[i]) {
      assert body[i] in body;
    }
    if body != [] && IsDigit(body[0]) {
      var r := "db_" + body;
      forall i ensures !DoubleAt(r, i) {
        assert !DoubleAt(body, i - 3);
      }
    }
  }

  /** The identifiers are exactly the names normalisation leaves alone. */
  lemma SanitizeFixesExactlyIdentifiers(s: string)
    ensures Sanitized(s) == s <==> IsIdentifier(s)
  {
    SanitizedIsIdentifier(s);
    if IsIdentifier(s) {
      MapAllChars(s);
      assert MapAll(s) == s;
      CollapseFixed(s);
    }
  }

  predicate IsWordChar(c: char) { IsDigit(c) || IsLower(c) || IsUpper(c) || c == '_' }

  /** A letter's lower-case form, spelt by its place in the alphabet. */
  predicate IsLowered(c: char, d: char) {
    if 'A' <= c <= 'Z' then 'a' <= d <= 'z' && d as int - 'a' as int == c as int - 'A' as int
    else d == c
  }

  /**
   * A name of letters, digits and single underscores that does not start with a digit keeps every
   * character, its letters in lower case.
   */
  lemma SanitizeLowersWords(s: string)
    requires s != [] && !IsDigit(s[0]) && NoDoubleUnderscore(s)
    requires forall i :: 0 <= i < |s| ==> IsWordChar(s[i])
    ensures |Sanitized(s)| == |s|
    ensures forall i :: 0 <= i < |s| ==> IsLowered(s[i], Sanitized(s)[i])
  {
    MapAllChars(s);
    forall i ensures !DoubleAt(MapAll(s), i) {
      assert !DoubleAt(s, i);
    }
    CollapseFixed(MapAll(s));
  }

  /** Every other character separates: it counts as an underscore. */
  lemma SanitizeReplacesOthers(s: string, i: nat)
    requires i < |s| && !IsWordChar(s[i])
    ensures Sanitized(s) == Sanitized(s[i := '_'])
  {
    MapAllChars(s);
    MapAllChars(s[i := '_']);
    assert MapAll(s) == MapAll(s[i := '_']);
  }

  lemma SanitizeIdempotent(input: string)
    ensures Sanitized(Sanitized(input)) == Sanitized(input)
  {
    SanitizedIsIdentifier(input);
    SanitizeFixesExactlyIdentifiers(Sanitized(input));
  }

  // ---- built names ------------------------------------------------------------------------

  function Digit(d: nat): char
    requires d < 10
  {
    (d + '0' as int) as char
  }

  function Decimal(n: nat): string {
    if n < 10 then [Digit(n)] else Decimal(n / 10) + [Digit(n % 10)]
  }

  function CompactPrefix(prefix: string): string {
    var s := Sanitized(prefix);
    if |s| > COMPACT_PREFIX then s[..COMPACT_PREFIX] else s
  }

  /** A sanitised prefix of at most 24 characters is kept whole; a longer one gives its first 24. */
  lemma PrefixIsKept(prefix: string)
    ensures var s, c := Sanitized(prefix), CompactPrefix(prefix);
            if |s| <= 24 then c == s else |c| == 24 && c <= s
  {
  }

  /** Everything after the prefix: both numbers with their separators. */
  function Suffix(pid: nat, index: nat): string {
    "_" + Decimal(pid) + "_" + Decimal(index)
  }

  function NameFor(prefix: string, pid: nat, index: nat): string {
    CompactPrefix(prefix) + Suffix(pid, index)
  }

  /** One process: its id, its database counter, and the prefixes it was called with. */
  class NameSource {
    const pid: U32
    var counter: U64
    ghost var prefixes: seq<string>

    ghost predicate Valid()
      reads this
    {
      counter == IndexOfCall(|prefixes|)
    }

    /** The name the k-th call returned. */
    ghost function NameOfCall(k: nat): string
      requires k < |prefixes|
      reads this
    {
      NameFor(prefixes[k], pid, IndexOfCall(k))
    }

    constructor (pid: U32)
      ensures this.pid == pid && counter == 1 && prefixes == [] && Valid()
    {
      this.pid := pid;
      counter := 1;
      prefixes := [];
    }

    /** Until the counter has wrapped, the name is one no earlier call returned. */
    method BuildDatabaseName(prefix: string) returns (name: string)
      requires Valid()
      modifies this
      ensures Valid() && prefixes == old(prefixes) + [prefix]
      ensures name == NameFor(prefix, pid, old(counter)) == NameOfCall(|old(prefixes)|)
      ensures counter == (old(counter) + 1) % U64_LIMIT
      ensures |prefixes| <= U64_LIMIT ==>
                forall k :: 0 <= k < |old(prefixes)| ==> name != NameOfCall(k)
    {
      ghost var before := prefixes;
      var sanitized := SanitizeIdentifier(prefix);
      var compact := sanitized;
      if |sanitized| > COMPACT_PREFIX {
        compact := sanitized[..COMPACT_PREFIX];
      }
      var index := counter;
      counter := (counter + 1) % U64_LIMIT;
      name := compact + "_" + Decimal(pid) + "_" + Decimal(index);
      assert name == compact + Suffix(pid, index);
      prefixes := prefixes + [prefix];
      forall k | 0 <= k < |before| && |prefixes| <= U64_LIMIT ensures name != NameOfCall(k) {
        NamesAreDistinct(prefixes[k], prefix, pid, k, |before|);
      }
      NextIndex(|before|);
    }
  }

  /** The index the k-th call of one process takes, the counter starting at 1 and wrapping. */
  function IndexOfCall(k: nat): U64 { (1 + k) % U64_LIMIT }

  lemma NextIndex(k: nat)
    ensures IndexOfCall(k + 1) == (IndexOfCall(k) + 1) % U64_LIMIT
  {
  }

  lemma {:induction false} DecimalDigits(n: nat)
    ensures Decimal(n) != []
    ensures forall i :: 0 <= i < |Decimal(n)| ==> IsDigit(Decimal(n)[i])
  {
    if n >= 10 {
      DecimalDigits(n / 10);
    }
  }

  lemma {:induction false} DecimalInjective(m: nat, n: nat)
    requires Decimal(m) == Decimal(n)
    ensures m == n
  {
    var s, t := Decimal(m), Decimal(n);
    DecimalDigits(m / 10);
    DecimalDigits(n / 10);
    assert s[|s| - 1] == Digit(m % 10) && t[|t| - 1] == Digit(n % 10);
    if m >= 10 && n >= 10 {
      assert s[..|s| - 1] == Decimal(m / 10) && t[..|t| - 1] == Decimal(n / 10);
      DecimalInjective(m / 10, n / 10);
    }
  }

  /** The number a decimal string stands for. */
  function Reading(s: string): nat {
    if s == [] || !IsDigit(s[|s| - 1]) then 0
    else 10 * Reading(s[..|s| - 1]) + (s[|s| - 1] as int - '0' as int)
  }

  lemma {:induction false} DecimalReads(n: nat)
    ensures Reading(Decimal(n)) == n
  {
    if n >= 10 {
      DecimalReads(n / 10);
      assert Decimal(n)[..|Decimal(n)| - 1] == Decimal(n / 10);
    }
  }

  function Pow10(k: nat): nat { if k == 0 then 1 else 10 * Pow10(k - 1) }

  lemma {:induction false} DecimalLength(n: nat, k: nat)
    requires k > 0 && n < Pow10(k)
    ensures |Decimal(n)| <= k
  {
    if n >= 10 {
      DecimalLength(n / 10, k - 1);
    }
  }

  /** The longest all-digit tail of a name. */
  function DigitTail(s: string): string {
    if s == [] || !IsDigit(s[|s| - 1]) then [] else DigitTail(s[..|s| - 1]) + [s[|s| - 1]]
  }

  lemma {:induction false} DigitTailOf(head: string, digits: string)
    requires head != [] && !IsDigit(head[|head| - 1])
    requires forall i :: 0 <= i < |digits| ==> IsDigit(digits[i])
    ensures DigitTail(head + digits) == digits
  {
    if digits == [] {
      assert head + digits == head;
    } else {
      var n := |digits| - 1;
      assert (head + digits)[..|head + digits| - 1] == head + digits[..n];
      DigitTailOf(head, digits[..n]);
    }
  }

  lemma NameDigitTail(prefix: string, pid: nat, index: nat)
    ensures DigitTail(NameFor(prefix, pid, index)) == Decimal(index)
  {
    var head := CompactPrefix(prefix) + "_" + Decimal(pid) + "_";
    assert NameFor(prefix, pid, index) == head + Decimal(index);
    DecimalDigits(index);
    DigitTailOf(head, Decimal(index));
  }

  /** Up to 2^64 calls of one process give pairwise distinct names, whatever the prefixes. */
  lemma NamesAreDistinct(p: string, q: string, pid: U32, j: nat, k: nat)
    requires j < k < j + U64_LIMIT
    ensures NameFor(p, pid, IndexOfCall(j)) != NameFor(q, pid, IndexOfCall(k))
  {
    NameDigitTail(p, pid, IndexOfCall(j));
    NameDigitTail(q, pid, IndexOfCall(k));
    if NameFor(p, pid, IndexOfCall(j)) == NameFor(q, pid, IndexOfCall(k)) {
      DecimalInjective(IndexOfCall(j), IndexOfCall(k));
    }
  }

  /** 24 + 1 + 10 + 1 + 20: inside PostgreSQL's 63-byte identifier limit. */
  lemma NameLength(prefix: string, pid: U32, index: U64)
    ensures |NameFor(prefix, pid, index)| <= 56
  {
    assert Pow10(10) == 10 * 10 * 10 * 10 * 10 * Pow10(5);
    assert Pow10(5) == 100000;
    assert Pow10(20) == 10 * 10 * 10 * 10 * 10 * Pow10(15);
    assert Pow10(15) == 10 * 10 * 10 * 10 * 10 * Pow10(10);
    DecimalLength(pid, 10);
    DecimalLength(index, 20);
  }

  // ---- the name a drop targets ------------------------------------------------------------

  predicate EndsInUnderscore(s: string) { s != [] && s[|s| - 1] == '_' }

  lemma CompactPrefixIsIdentifier(prefix: string)
    ensures IsIdentifier(CompactPrefix(prefix))
  {
    SanitizedIsIdentifier(prefix);
    var s := Sanitized(prefix);
    var c := CompactPrefix(prefix);
    forall i ensures !DoubleAt(c, i) {
      assert !DoubleAt(s, i);
    }
  }

  /** Appending a number section to a name that does not end in `_` keeps it an identifier. */
  lemma AppendSection(head: string, n: nat)
    requires IsIdentifier(head) && !EndsInUnderscore(head)
    ensures IsIdentifier(head + "_" + Decimal(n)) && !EndsInUnderscore(head + "_" + Decimal(n))
  {
    DecimalDigits(n);
    var s := head + "_" + Decimal(n);
    forall i ensures !DoubleAt(s, i) {
      assert !DoubleAt(head, i);
    }
  }

  lemma SuffixedIsIdentifier(head: string, pid: nat, index: nat)
    requires IsIdentifier(head) && !EndsInUnderscore(head)
    ensures IsIdentifier(head + Suffix(pid, index))
  {
    AppendSection(head, pid);
    AppendSection(head + "_" + Decimal(pid), index);
    assert head + Suffix(pid, index) == head + "_" + Decimal(pid) + "_" + Decimal(index);
  }

  lemma {:induction false} CollapseAppend(s: string, t: string)
    requires EndsInUnderscore(s) && NoDoubleUnderscore(s)
    requires t != [] && t[0] == '_' && NoDoubleUnderscore(t)
    ensures Collapse(s + t) == s + t[1..]
    decreases |s|
  {
    if |s| == 1 {
      assert s + t == "_" + t;
      assert (s + t)[1..] == t;
      CollapseFixed(t);
    } else {
      assert !DoubleAt(s, 0);
      assert (s + t)[1..] == s[1..] + t;
      TailHasNoDouble(s);
      CollapseAppend(s[1..], t);
    }
  }

  lemma SuffixShape(pid: nat, index: nat)
    ensures NoDoubleUnderscore(Suffix(pid, index))
    ensures forall i :: 0 <= i < |Suffix(pid, index)| ==> IsNameChar(Suffix(pid, index)[i])
  {
    DecimalDigits(pid);
    DecimalDigits(index);
  }

  /**
   * `drop_database` sanitises the name it is given. Exactly when the compacted prefix does not
   * end in `_` it drops the database that was created; otherwise it targets the name with one
   * underscore fewer.
   */
  lemma DropTarget(prefix: string, pid: nat, index: nat)
    ensures Sanitized(NameFor(prefix, pid, index)) == NameFor(prefix, pid, index)
            <==> !EndsInUnderscore(CompactPrefix(prefix))
    ensures EndsInUnderscore(CompactPrefix(prefix)) ==>
              Sanitized(NameFor(prefix, pid, index))
              == CompactPrefix(prefix) + Suffix(pid, index)[1..]
  {
    var c, t := CompactPrefix(prefix), Suffix(pid, index);
    CompactPrefixIsIdentifier(prefix);
    SuffixShape(pid, index);
    SanitizeFixesExactlyIdentifiers(c + t);
    if !EndsInUnderscore(c) {
      SuffixedIsIdentifier(c, pid, index);
    } else {
      assert DoubleAt(c + t, |c| - 1);
      MapAllChars(c + t);
      assert MapAll(c + t) == c + t;
      CollapseAppend(c, t);
    }
  }

  /** The leaking family is inhabited: a prefix whose last character is replaced. */
  lemma DropMissesCreatedDatabase()
    ensures NameFor("job!", 7, 1) == "job__7_1"
    ensures Sanitized(NameFor("job!", 7, 1)) == "job_7_1"
  {
    ReplacedLastCharacter();
    assert Decimal(7) == "7" && Decimal(1) == "1";
    assert Suffix(7, 1) == "_7_1";
    DropTarget("job!", 7, 1);
  }

  lemma ReplacedLastCharacter()
    ensures CompactPrefix("job!") == "job_"
  {
    MapAllChars("job!");
    assert MapAll("job!") == "job_";
    CollapseFixed("job_");
  }

  /** Even a drop that misses never targets another database created by the same process. */
  lemma DropNeverHitsAnother(p: string, q: string, pid: U32, j: U64, k: U64)
    requires Sanitized(NameFor(p, pid, j)) == NameFor(q, pid, k)
    ensures j == k
  {
    DropDigitTail(p, pid, j);
    NameDigitTail(q, pid, k);
    DecimalInjective(j, k);
  }

  /** Dropping keeps the index at the end of the name. */
  lemma DropDigitTail(prefix: string, pid: U32, index: U64)
    ensures DigitTail(Sanitized(NameFor(prefix, pid, index))) == Decimal(index)
  {
    DropTarget(prefix, pid, index);
    if EndsInUnderscore(CompactPrefix(prefix)) {
      ShortenedDigitTail(CompactPrefix(prefix), pid, index);
    } else {
      NameDigitTail(prefix, pid, index);
    }
  }

  lemma ShortenedDigitTail(compact: string, pid: nat, index: nat)
    ensures DigitTail(compact + Suffix(pid, index)[1..]) == Decimal(index)
  {
    var head := compact + Decimal(pid) + "_";
    assert Suffix(pid, index)[1..] == Decimal(pid) + "_" + Decimal(index);
    assert compact + Suffix(pid, index)[1..] == head + Decimal(index);
    DecimalDigits(index);
    DigitTailOf(head, Decimal(index));
  }
}
