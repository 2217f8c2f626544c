/**
 * Next-fire arithmetic of the scheduler: deterministic jitter, the bounded search for the first
 * jittered fire after `now`, and the coalescing of missed fires.
 *
 * An instant is a number of nanoseconds since the epoch. A cron expression is the stream it
 * enumerates: whole-second instants in strictly increasing order.
 */
module CronCatchUp {
  import opened Wrappers

  const SECOND := 1_000_000_000
  const MILLISECOND := 1_000_000
  const MAX_JITTER_SECONDS := 86_400
  const SEARCH_LIMIT := MAX_JITTER_SECONDS + 2
  /** 1 January of year -262143, the earliest instant; a checked subtraction past it yields none. */
  const EARLIEST := -8_334_601_315_200 * SECOND
  const RETRY_DELAY_SECONDS := 30

  const U128_LIMIT: nat := 0x1_0000_0000_0000_0000_0000_0000_0000_0000

  type ScheduleId = n: nat | n < 0x1_0000_0000_0000_0000_0000_0000_0000_0000

  // ---- jitter -----------------------------------------------------------------------------

  function Xor(a: nat, b: nat): nat
    decreases a + b
  {
    if a == 0 then b
    else if b == 0 then a
    else (a + b) % 2 + 2 * Xor(a / 2, b / 2)
  }

  /** The millisecond timestamp, reinterpreted as an unsigned 128-bit number. */
  function MillisAsU128(t: int): nat { (t / MILLISECOND) % U128_LIMIT }

  function JitterSeconds(id: ScheduleId, t: int, maxJitter: int): int {
    if maxJitter <= 0 then 0 else Xor(id, MillisAsU128(t)) % (maxJitter + 1)
  }

  type Jitter = int -> int

  function JitterOf(id: ScheduleId, maxJitter: int): Jitter {
    t => JitterSeconds(id, t, maxJitter)
  }

  ghost predicate Bounded(jitter: Jitter, maxJitter: nat) {
    forall t :: 0 <= jitter(t) <= maxJitter
  }

  function Adjusted(jitter: Jitter, t: int): int { t + jitter(t) * SECOND }

  /** Jitter never moves a fire earlier and never by more than its bound. */
  lemma JitterIsBounded(id: ScheduleId, maxJitter: int)
    ensures Bounded(JitterOf(id, maxJitter), if maxJitter <= 0 then 0 else maxJitter)
  {
    forall t ensures 0 <= JitterOf(id, maxJitter)(t) <= (if maxJitter <= 0 then 0 else maxJitter) {
      var x := Xor(id, MillisAsU128(t));
      if maxJitter > 0 {
        assert 0 <= x % (maxJitter + 1) < maxJitter + 1;
      }
    }
  }

  /** Bit `n` of a number. */
  function Bit(a: nat, n: nat): nat { if n == 0 then a % 2 else Bit(a / 2, n - 1) }

  lemma {:induction false} XorHalves(x: nat, y: nat)
    ensures Xor(x, y) == (x + y) % 2 + 2 * Xor(x / 2, y / 2)
  {
  }

  /** Exclusive or is what it is on every bit. */
  lemma {:induction false} XorIsBitwise(a: nat, b: nat, n: nat)
    ensures Bit(Xor(a, b), n) == if Bit(a, n) == Bit(b, n) then 0 else 1
    decreases n
  {
    XorParts(a, b);
    if n > 0 {
      XorIsBitwise(a / 2, b / 2, n - 1);
    }
  }

  lemma XorParts(a: nat, b: nat)
    ensures Xor(a, b) / 2 == Xor(a / 2, b / 2)
    ensures Xor(a, b) % 2 == if a % 2 == b % 2 then 0 else 1
  {
    XorHalves(a, b);
    LowBit((a + b) % 2, Xor(a / 2, b / 2));
    SumParity(a, b);
  }

  lemma SumParity(a: nat, b: nat)
    ensures (a + b) % 2 == if a % 2 == b % 2 then 0 else 1
  {
    assert a + b == 2 * (a / 2 + b / 2) + (a % 2 + b % 2);
  }

  lemma LowBit(bit: nat, rest: nat)
    requires bit < 2
    ensures (bit + 2 * rest) / 2 == rest && (bit + 2 * rest) % 2 == bit
  {
  }

  /** The jitter of a whole second is its milliseconds xor the id, modulo one more than the bound. */
  lemma JitterIsXorResidue(id: ScheduleId, second: nat, maxJitter: nat)
    requires 0 < maxJitter && second < 0x1_0000_0000_0000_0000
    ensures var j := JitterSeconds(id, second * SECOND, maxJitter);
            && 0 <= j <= maxJitter
            && IsMultiple(Xor(id, 1000 * second) - j, maxJitter + 1)
  {
    MillisOfSecond(second);
    var x, n := Xor(id, 1000 * second), maxJitter + 1;
    assert x - x % n == Times(x / n, n);
  }

  function Times(q: int, n: nat): int { q * n }

  ghost predicate IsMultiple(x: int, n: nat) { exists q :: x == Times(q, n) }

  lemma MillisOfSecond(second: nat)
    requires second < 0x1_0000_0000_0000_0000
    ensures MillisAsU128(second * SECOND) == 1000 * second
  {
    assert second * SECOND / MILLISECOND == 1000 * second;
  }

  // ---- cron streams -----------------------------------------------------------------------

  ghost predicate Increasing(c: seq<int>) {
    forall i, j :: 0 <= i < j < |c| ==> c[i] < c[j]
  }

  /** `c` is the first `limit` fires after `from`, or all of them when there are fewer. */
  ghost predicate Taken(fires: iset<int>, from: int, limit: nat, c: seq<int>) {
    && |c| <= limit
    && Increasing(c)
    && (forall f :: f in c ==> f in fires && f > from)
    && (forall f :: f in fires && f > from && f !in c ==>
          |c| == limit && forall i :: 0 <= i < |c| ==> c[i] < f)
  }

  /** `after(from, limit)` is what the cron iterator started at `from` yields within `limit`. */
  datatype Cron = Cron(after: (int, nat) -> seq<int>)

  ghost predicate Enumerates(cron: Cron, fires: iset<int>) {
    && (forall f :: f in fires ==> f % SECOND == 0)
    && (forall from: int, limit: nat :: Taken(fires, from, limit, cron.after(from, limit)))
  }

  ghost predicate IsNextFire(fires: iset<int>, from: int, f: int) {
    f in fires && f > from && forall g :: g in fires && g > from ==> f <= g
  }

  // ---- the search -------------------------------------------------------------------------

  /** Exhaustive search: the least adjusted fire strictly after `after`, if any. */
  function EarliestAfter(c: seq<int>, after: int, jitter: Jitter): Option<int> {
    if c == [] then None
    else
      var best := EarliestAfter(c[..|c| - 1], after, jitter);
      var t := Adjusted(jitter, c[|c| - 1]);
      if t > after && (best.None? || t < best.value) then Some(t) else best
  }

  /** `best` is the least adjusted fire of `fires` strictly after `after`, or there is none. */
  ghost predicate IsEarliest(fires: iset<int>, after: int, jitter: Jitter, best: Option<int>) {
    match best
    case None => forall f :: f in fires ==> Adjusted(jitter, f) <= after
    case Some(v) =>
      && v > after
      && (exists f :: f in fires && Adjusted(jitter, f) == v)
      && (forall f :: f in fires && Adjusted(jitter, f) > after ==> v <= Adjusted(jitter, f))
  }

  lemma {:induction false} EarliestAfterIsEarliest(c: seq<int>, after: int, jitter: Jitter)
    ensures IsEarliest((iset f | f in c), after, jitter, EarliestAfter(c, after, jitter))
  {
    if c != [] {
      var init, last := c[..|c| - 1], c[|c| - 1];
      EarliestAfterIsEarliest(init, after, jitter);
      assert forall f :: f in c <==> f in init || f == last;
      var best := EarliestAfter(c, after, jitter);
      if best.Some? {
        if best.value == Adjusted(jitter, last) {
          assert last in c;
        } else {
          var f :| f in init && Adjusted(jitter, f) == best.value;
          assert f in c;
        }
      }
    }
  }

  /** Once a base reaches the best adjusted fire, nothing later improves on it. */
  lemma {:induction false} LaterBasesDoNotImprove(
      c: seq<int>, k: nat, after: int, jitter: Jitter, maxJitter: nat)
    requires k <= |c| && Increasing(c) && Bounded(jitter, maxJitter)
    requires var best := EarliestAfter(c[..k], after, jitter);
             best.Some? && k < |c| && c[k] >= best.value
    ensures EarliestAfter(c, after, jitter) == EarliestAfter(c[..k], after, jitter)
    decreases |c|
  {
    var init, last := c[..|c| - 1], c[|c| - 1];
    assert jitter(last) >= 0;
    if k == |c| - 1 {
      assert c[..k] == init;
    } else {
      assert init[..k] == c[..k];
      LaterBasesDoNotImprove(init, k, after, jitter, maxJitter);
    }
  }

  /** `first_jittered_fire_after_candidates_utc`: with its early exit, still the exhaustive search. */
  method FirstJitteredFireAfterCandidates(
      candidates: seq<int>, after: int, id: ScheduleId, maxJitter: int)
    returns (best: Option<int>)
    requires Increasing(candidates)
    ensures best == EarliestAfter(candidates, after, JitterOf(id, maxJitter))
  {
    ghost var jitter := JitterOf(id, maxJitter);
    JitterIsBounded(id, maxJitter);
    best := None;
    for k := 0 to |candidates|
      invariant best == EarliestAfter(candidates[..k], after, jitter)
    {
      var base := candidates[k];
      if best.Some? && base >= best.value {
        LaterBasesDoNotImprove(candidates, k, after, jitter, if maxJitter <= 0 then 0 else maxJitter);
        return;
      }
      assert candidates[..k + 1][..k] == candidates[..k];
      var jittered := base + JitterSeconds(id, base, maxJitter) * SECOND;
      if jittered > after && (best.None? || jittered < best.value) {
        best := Some(jittered);
      }
    }
    assert candidates[..|candidates|] == candidates;
  }

  // ---- next fires -------------------------------------------------------------------------

  function NextJitteredFire(cron: Cron, from: int, jitter: Jitter): Option<int> {
    var c := cron.after(from, 1);
    if c == [] then None else Some(Adjusted(jitter, c[0]))
  }

  function WindowStart(now: int, maxJitter: int): int {
    var start := now - (maxJitter + 1) * SECOND;
    if start < EARLIEST then now else start
  }

  function Search(cron: Cron, now: int, jitter: Jitter, maxJitter: int): Option<int> {
    EarliestAfter(cron.after(WindowStart(now, maxJitter), SEARCH_LIMIT), now, jitter)
  }

  function CoalescedNextFire(cron: Cron, now: int, jitter: Jitter, maxJitter: int): Option<int> {
    if maxJitter <= 0 then NextJitteredFire(cron, now, jitter)
    else
      var found := Search(cron, now, jitter, maxJitter);
      if found.Some? then found else NextJitteredFire(cron, now, jitter)
  }

  /** `cron` is none when the expression does not parse. */
  function NextFire(
      cron: Option<Cron>, scheduledFor: int, now: int, jitter: Jitter, maxJitter: int): Option<int>
  {
    if cron.None? then None
    else
      var next := NextJitteredFire(cron.value, scheduledFor, jitter);
      if next.None? then None
      else if next.value <= now then CoalescedNextFire(cron.value, now, jitter, maxJitter)
      else next
  }

  // ---- the search limit -------------------------------------------------------------------

  /** Strictly increasing whole seconds are at least a second apart. */
  lemma {:induction false} WholeSecondsSpread(c: seq<int>, i: nat, j: nat)
    requires Increasing(c) && i <= j < |c|
    requires forall f :: f in c ==> f % SECOND == 0
    ensures c[j] - c[i] >= (j - i) * SECOND
    decreases j - i
  {
    if i < j {
      WholeSecondsSpread(c, i, j - 1);
      assert c[j] in c && c[j - 1] in c;
    }
  }

  /** The candidates beyond an unseen base are full, and they reach `limit` seconds far. */
  lemma UnseenBaseIsFar(
      cron: Cron, fires: iset<int>, start: int, limit: nat, f: int)
    requires Enumerates(cron, fires) && f in fires && f > start && limit > 0
    ensures var c := cron.after(start, limit);
            f in c || (|c| == limit && c[limit - 1] < f && start + limit * SECOND < f)
  {
    var c := cron.after(start, limit);
    assert Taken(fires, start, limit, c);
    if f !in c {
      assert forall g :: g in c ==> g % SECOND == 0;
      WholeSecondsSpread(c, 0, limit - 1);
      assert c[0] in c && c[limit - 1] in c;
    }
  }

  /** A full candidate list reaches past `now`. */
  lemma FullCandidatesReachNow(cron: Cron, fires: iset<int>, now: int, maxJitter: nat)
    requires Enumerates(cron, fires) && maxJitter <= MAX_JITTER_SECONDS
    ensures var c := cron.after(WindowStart(now, maxJitter), SEARCH_LIMIT);
            |c| == SEARCH_LIMIT ==> c[SEARCH_LIMIT - 1] in fires && c[SEARCH_LIMIT - 1] > now
  {
    var c := cron.after(WindowStart(now, maxJitter), SEARCH_LIMIT);
    assert Taken(fires, WindowStart(now, maxJitter), SEARCH_LIMIT, c);
    if |c| == SEARCH_LIMIT {
      assert forall g :: g in c ==> g % SECOND == 0;
      WholeSecondsSpread(c, 0, SEARCH_LIMIT - 1);
      assert c[0] in c && c[SEARCH_LIMIT - 1] in c;
    }
  }

  /**
   * The limit is large enough: whenever the stream has a fire after `now`, the first one is a
   * candidate, so the search succeeds, after `now` and no later than that fire with its jitter.
   */
  lemma SearchLimitSuffices(
      cron: Cron, fires: iset<int>, now: int, jitter: Jitter, maxJitter: nat, next: int)
    requires Enumerates(cron, fires) && Bounded(jitter, maxJitter)
    requires 0 < maxJitter <= MAX_JITTER_SECONDS
    requires IsNextFire(fires, now, next)
    ensures next in cron.after(WindowStart(now, maxJitter), SEARCH_LIMIT)
    ensures var found := Search(cron, now, jitter, maxJitter);
            found.Some? && now < found.value <= Adjusted(jitter, next) <= next + maxJitter * SECOND
  {
    var start := WindowStart(now, maxJitter);
    var c := cron.after(start, SEARCH_LIMIT);
    FullCandidatesReachNow(cron, fires, now, maxJitter);
    UnseenBaseIsFar(cron, fires, start, SEARCH_LIMIT, next);
    EarliestAfterIsEarliest(c, now, jitter);
    assert 0 <= jitter(next) <= maxJitter;
  }

  /**
   * Whether the window before `now` starts at an instant; where it does not, the search starts at
   * `now` instead.
   */
  predicate HasWindow(now: int, maxJitter: int) { now - (maxJitter + 1) * SECOND >= EARLIEST }

  /** The bases from the start of the window on. */
  ghost function InWindow(fires: iset<int>, now: int, maxJitter: nat): iset<int> {
    iset f | f in fires && f > WindowStart(now, maxJitter)
  }

  /** A base before the window cannot reach past `now`. */
  lemma WindowIsWideEnough(fires: iset<int>, now: int, jitter: Jitter, maxJitter: nat)
    requires Bounded(jitter, maxJitter) && HasWindow(now, maxJitter)
    ensures forall f :: f in fires && Adjusted(jitter, f) > now ==> f in InWindow(fires, now, maxJitter)
  {
    forall f | f in fires && f <= WindowStart(now, maxJitter) ensures Adjusted(jitter, f) <= now {
      assert jitter(f) <= maxJitter;
    }
  }

  /** As long as the candidates run out before the limit, the search is exhaustive. */
  lemma FewCandidatesAreExact(
      cron: Cron, fires: iset<int>, now: int, jitter: Jitter, maxJitter: nat)
    requires Enumerates(cron, fires)
    requires |cron.after(WindowStart(now, maxJitter), SEARCH_LIMIT)| < SEARCH_LIMIT
    ensures IsEarliest(
              InWindow(fires, now, maxJitter), now, jitter, Search(cron, now, jitter, maxJitter))
  {
    var start := WindowStart(now, maxJitter);
    var c := cron.after(start, SEARCH_LIMIT);
    assert Taken(fires, start, SEARCH_LIMIT, c);
    EarliestAfterIsEarliest(c, now, jitter);
    assert forall f :: f in InWindow(fires, now, maxJitter) <==> f in c;
  }

  // ---- bounded catch-up -------------------------------------------------------------------

  /** In every branch the cursor moves strictly past `now`. */
  lemma NextFireIsAfterNow(
      cron: Option<Cron>, fires: iset<int>, scheduledFor: int, now: int, id: ScheduleId, maxJitter: int)
    requires cron.Some? ==> Enumerates(cron.value, fires)
    ensures var next := NextFire(cron, scheduledFor, now, JitterOf(id, maxJitter), maxJitter);
            next.Some? ==> next.value > now
  {
    var jitter := JitterOf(id, maxJitter);
    JitterIsBounded(id, maxJitter);
    if cron.Some? {
      var c := cron.value.after(now, 1);
      assert Taken(fires, now, 1, c);
      if c != [] {
        assert c[0] in c && jitter(c[0]) >= 0;
      }
      if maxJitter > 0 {
        EarliestAfterIsEarliest(
          cron.value.after(WindowStart(now, maxJitter), SEARCH_LIMIT), now, jitter);
      }
    }
  }

  /** No base the search can look at reaches past `now`. */
  ghost predicate NothingAhead(fires: iset<int>, now: int, jitter: Jitter, maxJitter: nat) {
    forall f :: f in InWindow(fires, now, maxJitter) ==> Adjusted(jitter, f) <= now
  }

  /** The first base after the missed fire does not reach past `now`. */
  ghost predicate IsStale(fires: iset<int>, scheduledFor: int, now: int, jitter: Jitter) {
    exists f :: IsNextFire(fires, scheduledFor, f) && Adjusted(jitter, f) <= now
  }

  /**
   * A parsed schedule has no next fire exactly when its stream has no base after the missed
   * fire, or when the next base is stale and nothing lies ahead.
   */
  lemma NextFireIsNoneIff(
      cron: Cron, fires: iset<int>, scheduledFor: int, now: int, id: ScheduleId, maxJitter: nat)
    requires Enumerates(cron, fires) && maxJitter <= MAX_JITTER_SECONDS
    ensures var jitter := JitterOf(id, maxJitter);
            NextFire(Some(cron), scheduledFor, now, jitter, maxJitter).None? <==>
            || (forall f :: f in fires ==> f <= scheduledFor)
            || (IsStale(fires, scheduledFor, now, jitter)
                && NothingAhead(fires, now, jitter, maxJitter))
  {
    var jitter := JitterOf(id, maxJitter);
    JitterIsBounded(id, maxJitter);
    var c := cron.after(scheduledFor, 1);
    assert Taken(fires, scheduledFor, 1, c);
    if c != [] {
      assert c[0] in c;
      assert IsNextFire(fires, scheduledFor, c[0]);
      assert forall f :: IsNextFire(fires, scheduledFor, f) ==> f == c[0];
      if Adjusted(jitter, c[0]) <= now {
        CoalescingFindsAFire(cron, fires, now, jitter, maxJitter);
      }
    }
  }

  /**
   * Coalescing finds nothing exactly when nothing lies ahead, its fallback adding nothing to the
   * search. With a window that is when no jittered fire of the whole stream lies after `now`.
   */
  lemma CoalescingFindsAFire(
      cron: Cron, fires: iset<int>, now: int, jitter: Jitter, maxJitter: nat)
    requires Enumerates(cron, fires) && Bounded(jitter, maxJitter)
    requires maxJitter <= MAX_JITTER_SECONDS
    ensures CoalescedNextFire(cron, now, jitter, maxJitter).None?
            <==> NothingAhead(fires, now, jitter, maxJitter)
    ensures HasWindow(now, maxJitter) ==>
              (NothingAhead(fires, now, jitter, maxJitter)
               <==> forall f :: f in fires ==> Adjusted(jitter, f) <= now)
    ensures maxJitter > 0 ==>
              CoalescedNextFire(cron, now, jitter, maxJitter) == Search(cron, now, jitter, maxJitter)
  {
    if HasWindow(now, maxJitter) {
      WindowIsWideEnough(fires, now, jitter, maxJitter);
    }
    var n := cron.after(now, 1);
    assert Taken(fires, now, 1, n);
    if n != [] {
      assert n[0] in n && IsNextFire(fires, now, n[0]) && jitter(n[0]) >= 0;
      assert n[0] in InWindow(fires, now, maxJitter) && Adjusted(jitter, n[0]) > now;
      if maxJitter > 0 {
        SearchLimitSuffices(cron, fires, now, jitter, maxJitter, n[0]);
      }
    } else if maxJitter == 0 {
      forall f | f in fires ensures Adjusted(jitter, f) <= now {
        assert jitter(f) == 0;
      }
    } else {
      FullCandidatesReachNow(cron, fires, now, maxJitter);
      FewCandidatesAreExact(cron, fires, now, jitter, maxJitter);
    }
  }
}
