/**
 * When the bounded search of the coalescing catch-up is exact: the condition over all streams and
 * jitter functions, and a schedule id whose own jitter defeats it.
 */
module CronExactness {
  import opened Wrappers
  import opened CronCatchUp

  /** Consecutive fires are at least `gap` seconds apart; whole seconds always are one apart. */
  ghost predicate Spaced(fires: iset<int>, gap: nat) {
    forall f, g :: f in fires && g in fires && f < g ==> g - f >= gap * SECOND
  }

  lemma {:induction false} SpacedSpread(fires: iset<int>, c: seq<int>, i: nat, j: nat)
    requires Spaced(fires, 2) && Increasing(c) && i <= j < |c|
    requires forall f :: f in c ==> f in fires
    ensures c[j] - c[i] >= (j - i) * (2 * SECOND)
    decreases j - i
  {
    if i < j {
      SpacedSpread(fires, c, i, j - 1);
      assert c[j] in c && c[j - 1] in c;
    }
  }

  /** The limit leaves room for every base that could still fire first. */
  ghost predicate HasRoom(fires: iset<int>, maxJitter: int) {
    2 * maxJitter <= MAX_JITTER_SECONDS + 1 || Spaced(fires, 2)
  }

  /**
   * With room, the bounded search finds the earliest jittered fire after `now` of the window and
   * all that follows it, or that there is none; if the window starts at an instant, of the whole
   * unbounded stream.
   */
  lemma SearchFindsEarliest(
      cron: Cron, fires: iset<int>, now: int, jitter: Jitter, maxJitter: nat)
    requires Enumerates(cron, fires) && Bounded(jitter, maxJitter)
    requires 0 < maxJitter <= MAX_JITTER_SECONDS && HasRoom(fires, maxJitter)
    ensures var found := Search(cron, now, jitter, maxJitter);
            && IsEarliest(InWindow(fires, now, maxJitter), now, jitter, found)
            && (HasWindow(now, maxJitter) ==> IsEarliest(fires, now, jitter, found))
  {
    var start := WindowStart(now, maxJitter);
    var c := cron.after(start, SEARCH_LIMIT);
    var found := Search(cron, now, jitter, maxJitter);
    assert Taken(fires, start, SEARCH_LIMIT, c);
    EarliestAfterIsEarliest(c, now, jitter);
    forall f | f in InWindow(fires, now, maxJitter) && Adjusted(jitter, f) > now
      ensures found.Some? && found.value <= Adjusted(jitter, f)
    {
      if f !in c {
        MissedBaseIsLate(cron, fires, now, jitter, maxJitter, f);
      }
    }
    if HasWindow(now, maxJitter) {
      WindowIsWideEnough(fires, now, jitter, maxJitter);
    }
  }

  /** Any base the search does not see lies at or after the fire it returns. */
  lemma MissedBaseIsLate(
      cron: Cron, fires: iset<int>, now: int, jitter: Jitter, maxJitter: nat, f: int)
    requires Enumerates(cron, fires) && Bounded(jitter, maxJitter)
    requires 0 < maxJitter <= MAX_JITTER_SECONDS && HasRoom(fires, maxJitter)
    requires f in InWindow(fires, now, maxJitter)
    requires f !in cron.after(WindowStart(now, maxJitter), SEARCH_LIMIT)
    ensures var found := Search(cron, now, jitter, maxJitter);
            found.Some? && found.value <= Adjusted(jitter, f)
  {
    UnseenBaseIsFar(cron, fires, WindowStart(now, maxJitter), SEARCH_LIMIT, f);
    FullCandidatesReachNow(cron, fires, now, maxJitter);
    var first := cron.after(now, 1);
    assert Taken(fires, now, 1, first);
    assert f > now;
    assert first != [] && first[0] in first;
    var next := first[0];
    SearchLimitSuffices(cron, fires, now, jitter, maxJitter, next);
    UnseenBaseIsFarFromNext(cron, fires, now, maxJitter, next, f);
    assert jitter(f) >= 0;
  }

  lemma UnseenBaseIsFarFromNext(
      cron: Cron, fires: iset<int>, now: int, maxJitter: nat, next: int, f: int)
    requires Enumerates(cron, fires) && IsNextFire(fires, now, next) && f in fires
    requires maxJitter <= MAX_JITTER_SECONDS && HasRoom(fires, maxJitter)
    requires var c := cron.after(WindowStart(now, maxJitter), SEARCH_LIMIT);
             next in c && |c| == SEARCH_LIMIT && c[SEARCH_LIMIT - 1] < f
    ensures f >= next + maxJitter * SECOND
  {
    var start := WindowStart(now, maxJitter);
    var c := cron.after(start, SEARCH_LIMIT);
    assert Taken(fires, start, SEARCH_LIMIT, c);
    assert forall g :: g in c ==> g % SECOND == 0;
    var n :| 0 <= n < |c| && c[n] == next;
    PastCandidatesAreFew(fires, c, now, maxJitter, n);
    assert c[SEARCH_LIMIT - 1] in c;
    if Spaced(fires, 2) {
      SpacedSpread(fires, c, n, SEARCH_LIMIT - 1);
    } else {
      WholeSecondsSpread(c, n, SEARCH_LIMIT - 1);
    }
  }

  /** How many candidates can precede the first one after `now`. */
  lemma PastCandidatesAreFew(fires: iset<int>, c: seq<int>, now: int, maxJitter: nat, n: nat)
    requires n < |c| && Increasing(c) && IsNextFire(fires, now, c[n])
    requires forall f :: f in c ==> f in fires && f % SECOND == 0 && f > WindowStart(now, maxJitter)
    ensures n <= maxJitter + 1
    ensures Spaced(fires, 2) ==> 2 * n <= maxJitter + 2
  {
    if n > 0 {
      assert c[n - 1] in c && c[0] in c && c[n - 1] <= now;
      WholeSecondsSpread(c, 0, n - 1);
      if Spaced(fires, 2) {
        SpacedSpread(fires, c, 0, n - 1);
      }
    }
  }

  // ---- the value of the next fire ---------------------------------------------------------

  /** A next base that is still ahead is the next fire. */
  lemma NextFireIsNextBase(
      cron: Cron, fires: iset<int>, scheduledFor: int, now: int, jitter: Jitter, maxJitter: int,
      f: int)
    requires Enumerates(cron, fires) && IsNextFire(fires, scheduledFor, f)
    requires Adjusted(jitter, f) > now
    ensures NextFire(Some(cron), scheduledFor, now, jitter, maxJitter) == Some(Adjusted(jitter, f))
  {
    var c := cron.after(scheduledFor, 1);
    assert Taken(fires, scheduledFor, 1, c);
    assert c != [] && c[0] in c && c[0] == f;
  }

  lemma StaleFireIsCoalesced(
      cron: Cron, fires: iset<int>, scheduledFor: int, now: int, jitter: Jitter, maxJitter: int)
    requires Enumerates(cron, fires) && IsStale(fires, scheduledFor, now, jitter)
    ensures NextFire(Some(cron), scheduledFor, now, jitter, maxJitter)
            == CoalescedNextFire(cron, now, jitter, maxJitter)
  {
    var c := cron.after(scheduledFor, 1);
    assert Taken(fires, scheduledFor, 1, c);
    assert c != [] && c[0] in c && IsNextFire(fires, scheduledFor, c[0]);
  }

  lemma FirstBaseIsEarliest(cron: Cron, fires: iset<int>, now: int, jitter: Jitter)
    requires Enumerates(cron, fires) && Bounded(jitter, 0)
    ensures IsEarliest(fires, now, jitter, NextJitteredFire(cron, now, jitter))
  {
    var n := cron.after(now, 1);
    assert Taken(fires, now, 1, n);
    assert forall f :: Adjusted(jitter, f) == f;
    if n != [] {
      assert n[0] in n && Adjusted(jitter, n[0]) == n[0];
    }
  }

  /**
   * A stale next base coalesces to the earliest jittered fire after `now`: of the whole stream
   * without jitter, or with a window and room; otherwise of the first 86402 candidates.
   */
  lemma StaleNextFireIsEarliest(
      cron: Cron, fires: iset<int>, scheduledFor: int, now: int, id: ScheduleId, maxJitter: int)
    requires Enumerates(cron, fires) && maxJitter <= MAX_JITTER_SECONDS
    requires IsStale(fires, scheduledFor, now, JitterOf(id, maxJitter))
    ensures var jitter := JitterOf(id, maxJitter);
            var found := NextFire(Some(cron), scheduledFor, now, jitter, maxJitter);
            && (maxJitter <= 0
                || (HasWindow(now, maxJitter) && HasRoom(fires, maxJitter)) ==>
                  IsEarliest(fires, now, jitter, found))
            && (maxJitter > 0 ==>
                  var start := if HasWindow(now, maxJitter) then now - (maxJitter + 1) * SECOND else now;
                  IsEarliest((iset f | f in cron.after(start, 86_402)), now, jitter, found))
  {
    var jitter := JitterOf(id, maxJitter);
    JitterIsBounded(id, maxJitter);
    StaleFireIsCoalesced(cron, fires, scheduledFor, now, jitter, maxJitter);
    if maxJitter <= 0 {
      FirstBaseIsEarliest(cron, fires, now, jitter);
    } else {
      CoalescingFindsAFire(cron, fires, now, jitter, maxJitter);
      EarliestAfterIsEarliest(
        cron.after(WindowStart(now, maxJitter), SEARCH_LIMIT), now, jitter);
      if HasRoom(fires, maxJitter) {
        SearchFindsEarliest(cron, fires, now, jitter, maxJitter);
      }
    }
  }

  // ---- the exact condition ----------------------------------------------------------------

  /** At `now`, the search is exact for every stream of that spacing and every bounded jitter. */
  ghost predicate AlwaysEarliest(now: int, maxJitter: nat, gap: nat) {
    forall cron: Cron, fires: iset<int>, jitter: Jitter
      | Enumerates(cron, fires) && Spaced(fires, gap) && Bounded(jitter, maxJitter)
      :: IsEarliest(fires, now, jitter, Search(cron, now, jitter, maxJitter))
  }

  /**
   * The search is always exact exactly when its window starts at an instant and either the fires
   * are two seconds apart or twice the jitter bound fits the limit.
   */
  lemma SearchIsExactIff(now: int, maxJitter: nat, gap: nat)
    requires 0 < maxJitter <= MAX_JITTER_SECONDS
    ensures AlwaysEarliest(now, maxJitter, gap) <==>
            && HasWindow(now, maxJitter)
            && (gap >= 2 || 2 * maxJitter <= MAX_JITTER_SECONDS + 1)
  {
    if !HasWindow(now, maxJitter) {
      NoWindowMisses(now, maxJitter, gap);
    } else if gap >= 2 || 2 * maxJitter <= MAX_JITTER_SECONDS + 1 {
      forall cron: Cron, fires: iset<int>, jitter: Jitter
        | Enumerates(cron, fires) && Spaced(fires, gap) && Bounded(jitter, maxJitter)
        ensures IsEarliest(fires, now, jitter, Search(cron, now, jitter, maxJitter))
      {
        assert gap >= 2 ==> Spaced(fires, 2);
        SearchFindsEarliest(cron, fires, now, jitter, maxJitter);
      }
    } else {
      SearchCanMiss(now, maxJitter);
      EverySecondIsSpaced(gap);
    }
  }

  function Once(f: int): Cron {
    Cron((from: int, limit: nat) => if from < f && limit > 0 then [f] else [])
  }

  /** Without a window, one base less than a second ago that waits the full bound is missed. */
  lemma NoWindowMisses(now: int, maxJitter: nat, gap: nat)
    requires 0 < maxJitter && !HasWindow(now, maxJitter)
    ensures !AlwaysEarliest(now, maxJitter, gap)
  {
    var f := now / SECOND * SECOND;
    var fires := iset{f};
    var jitter: Jitter := t => maxJitter;
    forall from: int, limit: nat ensures Taken(fires, from, limit, Once(f).after(from, limit)) {
    }
    assert Enumerates(Once(f), fires) && Spaced(fires, gap) && Bounded(jitter, maxJitter);
    assert Once(f).after(WindowStart(now, maxJitter), SEARCH_LIMIT) == [];
    assert f in fires && Adjusted(jitter, f) > now;
    assert !IsEarliest(fires, now, jitter, Search(Once(f), now, jitter, maxJitter));
  }

  ghost function WholeSeconds(): iset<int> { iset f: int | f % SECOND == 0 }

  function EverySecond(): Cron {
    Cron((from: int, limit: nat) => seq(limit, i requires 0 <= i => (from / SECOND + 1 + i) * SECOND))
  }

  lemma EverySecondTaken(from: int, limit: nat)
    ensures Taken(WholeSeconds(), from, limit, EverySecond().after(from, limit))
  {
    var c := EverySecond().after(from, limit);
    assert forall i :: 0 <= i < |c| ==> c[i] == (from / SECOND + 1 + i) * SECOND;
    forall f | f in WholeSeconds() && f > from && f !in c
      ensures |c| == limit && forall i :: 0 <= i < |c| ==> c[i] < f
    {
      SecondBeyond(from, limit, c, f);
    }
  }

  lemma SecondBeyond(from: int, limit: nat, c: seq<int>, f: int)
    requires |c| == limit && f % SECOND == 0 && f > from
    requires forall i :: 0 <= i < |c| ==> c[i] == (from / SECOND + 1 + i) * SECOND
    ensures f in c || forall i :: 0 <= i < |c| ==> c[i] < f
  {
    var k := f / SECOND - from / SECOND - 1;
    assert f == (from / SECOND + 1 + k) * SECOND && k >= 0;
    if k < limit {
      assert c[k] == f;
    }
  }

  lemma EverySecondEnumerates()
    ensures Enumerates(EverySecond(), WholeSeconds())
  {
    forall from: int, limit: nat
      ensures Taken(WholeSeconds(), from, limit, EverySecond().after(from, limit))
    {
      EverySecondTaken(from, limit);
    }
  }

  lemma EverySecondIsSpaced(gap: nat)
    requires gap <= 1
    ensures Spaced(WholeSeconds(), gap)
  {
    forall f, g | f % SECOND == 0 && g % SECOND == 0 && f < g ensures g - f >= gap * SECOND {
      assert g - f >= SECOND;
    }
  }

  /** The first base after the candidates of an every-second stream. */
  function FirstUnseen(now: int, maxJitter: nat): int {
    (now / SECOND + MAX_JITTER_SECONDS + 2 - maxJitter) * SECOND
  }

  /** Every candidate after `now` waits the full bound; the first unseen base does not wait. */
  function DefeatingJitter(now: int, maxJitter: nat): Jitter {
    t => if now < t < FirstUnseen(now, maxJitter) then maxJitter else 0
  }

  lemma SearchCanMiss(now: int, maxJitter: nat)
    requires maxJitter <= MAX_JITTER_SECONDS && MAX_JITTER_SECONDS + 1 < 2 * maxJitter
    requires HasWindow(now, maxJitter)
    ensures var fires := WholeSeconds();
            var jitter := DefeatingJitter(now, maxJitter);
            && Enumerates(EverySecond(), fires) && Bounded(jitter, maxJitter)
            && !IsEarliest(fires, now, jitter, Search(EverySecond(), now, jitter, maxJitter))
  {
    EverySecondEnumerates();
    FirstUnseenDoesNotWait(now, maxJitter);
    SearchIsTooLate(now, maxJitter);
    var jitter := DefeatingJitter(now, maxJitter);
    LaterResultIsNotEarliest(
      WholeSeconds(), now, jitter, Search(EverySecond(), now, jitter, maxJitter),
      FirstUnseen(now, maxJitter));
  }

  lemma LaterResultIsNotEarliest(
      fires: iset<int>, now: int, jitter: Jitter, found: Option<int>, f: int)
    requires f in fires && Adjusted(jitter, f) == f > now && (found.Some? ==> found.value > f)
    ensures !IsEarliest(fires, now, jitter, found)
  {
  }

  lemma FirstUnseenDoesNotWait(now: int, maxJitter: nat)
    requires maxJitter <= MAX_JITTER_SECONDS
    ensures var f, jitter := FirstUnseen(now, maxJitter), DefeatingJitter(now, maxJitter);
            f % SECOND == 0 && Adjusted(jitter, f) == f > now && Bounded(jitter, maxJitter)
  {
  }

  lemma SearchIsTooLate(now: int, maxJitter: nat)
    requires maxJitter <= MAX_JITTER_SECONDS && MAX_JITTER_SECONDS + 1 < 2 * maxJitter
    requires HasWindow(now, maxJitter)
    ensures var found := Search(EverySecond(), now, DefeatingJitter(now, maxJitter), maxJitter);
            found.Some? ==> found.value > FirstUnseen(now, maxJitter)
  {
    var jitter := DefeatingJitter(now, maxJitter);
    var c := EverySecond().after(WindowStart(now, maxJitter), SEARCH_LIMIT);
    EarliestAfterIsEarliest(c, now, jitter);
    forall i | 0 <= i < |c| && Adjusted(jitter, c[i]) > now
      ensures Adjusted(jitter, c[i]) > FirstUnseen(now, maxJitter)
    {
      DenseCandidate(now, maxJitter, i);
    }
  }

  lemma DenseCandidate(now: int, maxJitter: nat, i: nat)
    requires maxJitter <= MAX_JITTER_SECONDS && MAX_JITTER_SECONDS + 1 < 2 * maxJitter
    requires HasWindow(now, maxJitter) && i < SEARCH_LIMIT
    ensures var f := EverySecond().after(WindowStart(now, maxJitter), SEARCH_LIMIT)[i];
            var t := Adjusted(DefeatingJitter(now, maxJitter), f);
            t > now ==> t > FirstUnseen(now, maxJitter)
  {
    var f := EverySecond().after(WindowStart(now, maxJitter), SEARCH_LIMIT)[i];
    assert WindowStart(now, maxJitter) / SECOND == now / SECOND - maxJitter - 1;
    assert f == (now / SECOND - maxJitter + i) * SECOND;
  }

  // ---- the real jitter can defeat the search ----------------------------------------------

  function Shifted(a: nat, n: nat): nat { if n == 0 then a else 2 * Shifted(a, n - 1) }

  lemma XorDoubled(a: nat, x: nat, b: nat, y: nat)
    ensures Xor(2 * a + x, 2 * b + y) == (x + y) % 2 + 2 * Xor(a + x / 2, b + y / 2)
  {
    XorHalves(2 * a + x, 2 * b + y);
    EvenPart(a, x);
    EvenPart(b, y);
    EvenPart(a + b, x + y);
    assert 2 * a + x + (2 * b + y) == 2 * (a + b) + (x + y);
  }

  lemma EvenPart(a: nat, x: nat)
    ensures (2 * a + x) / 2 == a + x / 2 && (2 * a + x) % 2 == x % 2
  {
  }

  /** High and low bits do not mix. */
  lemma {:induction false} XorByParts(a: nat, x: nat, b: nat, y: nat, n: nat)
    requires x < Shifted(1, n) && y < Shifted(1, n)
    ensures Xor(Shifted(a, n) + x, Shifted(b, n) + y) == Shifted(Xor(a, b), n) + Xor(x, y)
  {
    if n > 0 {
      XorDoubled(Shifted(a, n - 1), x, Shifted(b, n - 1), y);
      XorByParts(a, x / 2, b, y / 2, n - 1);
      XorHalves(x, y);
    }
  }

  /** Bits 27 and up from 45; every bit in between and below is zero. */
  const UNLUCKY_ID: ScheduleId := (53_556 * 0x4_0000 + 1) * 0x800_0000

  /** 06:59:38 UTC on 1 February 2026, less than two seconds before a multiple of 2^27 ms. */
  const UNLUCKY_SECOND: nat := 1_769_929_178
  const UNLUCKY_NOW := UNLUCKY_SECOND * SECOND

  /** The blocks of 2^27 ms before and after that multiple. */
  const BLOCK: nat := 13_186
  const NEXT_BLOCK: nat := 13_187

  lemma {:induction false} ShiftedTwice(a: nat, m: nat, n: nat)
    ensures Shifted(a, m + n) == Shifted(Shifted(a, m), n)
  {
    if n > 0 {
      ShiftedTwice(a, m, n - 1);
    }
  }

  lemma Shifted3(a: nat)
    ensures Shifted(a, 3) == 8 * a
  {
    assert Shifted(a, 1) == 2 * Shifted(a, 0);
    assert Shifted(a, 2) == 2 * Shifted(a, 1);
  }

  lemma Shifted9(a: nat)
    ensures Shifted(a, 9) == 512 * a
  {
    Shifted3(a);
    Shifted3(8 * a);
    Shifted3(64 * a);
    ShiftedTwice(a, 3, 3);
    ShiftedTwice(a, 6, 3);
  }

  lemma Shifted18(a: nat)
    ensures Shifted(a, 18) == 0x4_0000 * a
  {
    Shifted9(a);
    Shifted9(512 * a);
    ShiftedTwice(a, 9, 9);
  }

  lemma Shifted27(a: nat)
    ensures Shifted(a, 27) == 0x800_0000 * a
  {
    Shifted18(a);
    Shifted9(0x4_0000 * a);
    ShiftedTwice(a, 18, 9);
  }

  /** The id turns each block number into its neighbour. */
  function Neighbour(block: nat): nat { if block % 2 == 0 then block + 1 else block - 1 }

  lemma UnluckyXor(block: nat, low: nat)
    requires block < 0x4_0000 && low < 0x800_0000
    ensures Xor(UNLUCKY_ID, block * 0x800_0000 + low)
            == (53_556 * 0x4_0000 + Neighbour(block)) * 0x800_0000 + low
  {
    var high := 53_556 * 0x4_0000 + 1;
    XorHigh(block);
    Shifted27(1);
    Shifted27(block);
    Shifted27(high);
    Shifted27(Xor(high, block));
    XorByParts(high, 0, block, low, 27);
  }

  lemma XorHigh(block: nat)
    requires block < 0x4_0000
    ensures Xor(53_556 * 0x4_0000 + 1, block) == 53_556 * 0x4_0000 + Neighbour(block)
  {
    Shifted18(0);
    Shifted18(1);
    Shifted18(53_556);
    XorByParts(53_556, 1, 0, block, 18);
    XorHalves(1, block);
  }

  lemma JitterInBlock(second: nat, block: nat, low: nat)
    requires 1000 * second == block * 0x800_0000 + low && low < 0x800_0000
    requires second < 0x1_0000_0000 && block < 0x4_0000
    ensures JitterSeconds(UNLUCKY_ID, second * SECOND, MAX_JITTER_SECONDS)
            == ((53_556 * 0x4_0000 + Neighbour(block)) * 0x800_0000 + low) % 86_401
  {
    MillisOfSecond(second);
    UnluckyXor(block, low);
  }

  /** Within one block of the millisecond clock the jitter is linear in the second. */
  lemma UnluckyJitter(second: nat)
    requires UNLUCKY_SECOND - MAX_JITTER_SECONDS <= second <= UNLUCKY_SECOND + 1
    ensures JitterSeconds(UNLUCKY_ID, second * SECOND, MAX_JITTER_SECONDS)
            == (UNLUCKY_ID + 1000 * second) % 86_401
  {
    JitterInBlock(second, BLOCK, 1000 * second - BLOCK * 0x800_0000);
  }

  lemma UnseenBaseDoesNotWait(second: nat)
    requires second == UNLUCKY_SECOND + 2
    ensures JitterSeconds(UNLUCKY_ID, second * SECOND, MAX_JITTER_SECONDS) == 0
  {
    JitterInBlock(second, NEXT_BLOCK, 864);
  }

  /** 86401 = 7 * 12343 and 1001 = 7 * 143, so every jittered candidate has one residue mod 7. */
  lemma UnluckyResidue(second: nat)
    ensures (second + (UNLUCKY_ID + 1000 * second) % 86_401) % 7 == 0
  {
    var total := UNLUCKY_ID + 1000 * second;
    var q, j := total / 86_401, total % 86_401;
    assert total == 86_401 * q + j;
    var k := UNLUCKY_ID / 7 + 143 * second - 12_343 * q;
    assert second + j == 7 * k;
  }

  lemma UnluckyCandidate(second: nat)
    requires UNLUCKY_SECOND - MAX_JITTER_SECONDS <= second <= UNLUCKY_SECOND + 1
    ensures var t := Adjusted(JitterOf(UNLUCKY_ID, MAX_JITTER_SECONDS), second * SECOND);
            t > UNLUCKY_NOW ==> t > UNLUCKY_NOW + 2 * SECOND
  {
    UnluckyJitter(second);
    UnluckyResidue(second);
    var s := second + (UNLUCKY_ID + 1000 * second) % 86_401;
    assert Adjusted(JitterOf(UNLUCKY_ID, MAX_JITTER_SECONDS), second * SECOND) == s * SECOND;
    assert s != UNLUCKY_SECOND + 1 && s != UNLUCKY_SECOND + 2;
  }

  /**
   * With the scheduler's own jitter at the largest bound a schedule may have, an every-second
   * schedule with this id coalesces to a later fire than its first one after `now`.
   */
  lemma RealJitterCanMiss()
    ensures var fires := WholeSeconds();
            var jitter := JitterOf(UNLUCKY_ID, MAX_JITTER_SECONDS);
            && Enumerates(EverySecond(), fires)
            && Adjusted(jitter, UNLUCKY_NOW + 2 * SECOND) == UNLUCKY_NOW + 2 * SECOND
            && var found := CoalescedNextFire(EverySecond(), UNLUCKY_NOW, jitter, MAX_JITTER_SECONDS);
               found.Some? && found.value > UNLUCKY_NOW + 2 * SECOND
  {
    var fires := WholeSeconds();
    var jitter := JitterOf(UNLUCKY_ID, MAX_JITTER_SECONDS);
    var next := (UNLUCKY_SECOND + 1) * SECOND;
    EverySecondEnumerates();
    JitterIsBounded(UNLUCKY_ID, MAX_JITTER_SECONDS);
    UnseenBaseDoesNotWait(UNLUCKY_SECOND + 2);
    assert IsNextFire(fires, UNLUCKY_NOW, next);
    SearchLimitSuffices(EverySecond(), fires, UNLUCKY_NOW, jitter, MAX_JITTER_SECONDS, next);
    UnluckySearch();
  }

  lemma UnluckySearch()
    ensures var jitter := JitterOf(UNLUCKY_ID, MAX_JITTER_SECONDS);
            var found := Search(EverySecond(), UNLUCKY_NOW, jitter, MAX_JITTER_SECONDS);
            found.Some? ==> found.value > UNLUCKY_NOW + 2 * SECOND
  {
    var jitter := JitterOf(UNLUCKY_ID, MAX_JITTER_SECONDS);
    var c := EverySecond().after(WindowStart(UNLUCKY_NOW, MAX_JITTER_SECONDS), SEARCH_LIMIT);
    EarliestAfterIsEarliest(c, UNLUCKY_NOW, jitter);
    forall i | 0 <= i < |c| && Adjusted(jitter, c[i]) > UNLUCKY_NOW
      ensures Adjusted(jitter, c[i]) > UNLUCKY_NOW + 2 * SECOND
    {
      UnluckyCandidateAt(i);
    }
  }

  lemma UnluckyCandidateAt(i: nat)
    requires i < SEARCH_LIMIT
    ensures var start := WindowStart(UNLUCKY_NOW, MAX_JITTER_SECONDS);
            var t := Adjusted(JitterOf(UNLUCKY_ID, MAX_JITTER_SECONDS),
                              EverySecond().after(start, SEARCH_LIMIT)[i]);
            t > UNLUCKY_NOW ==> t > UNLUCKY_NOW + 2 * SECOND
  {
    var start := WindowStart(UNLUCKY_NOW, MAX_JITTER_SECONDS);
    var first := UNLUCKY_SECOND - MAX_JITTER_SECONDS;
    assert start == (first - 1) * SECOND;
    assert EverySecond().after(start, SEARCH_LIMIT)[i] == (first + i) * SECOND;
    UnluckyCandidate(first + i);
  }
}
