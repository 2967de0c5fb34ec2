/**
 * Logging a drink: the running total rounded to whole centilitres and the
 * newest-first log capped at fifty entries.
 */
module Intake {
  import opened Types

  /** The most entries the day's log keeps. */
  const HISTORY_LIMIT: nat := 50

  /** Rounding to the nearest integer with halves going up, as `Math.round` does. */
  function RoundHalfUp(x: real): (n: int)
    ensures n as real - 0.5 <= x < n as real + 0.5
  {
    (x + 0.5).Floor
  }

  /** `x` litres is a whole number of centilitres. */
  predicate OnGrid(x: real) {
    (x * 100.0).Floor as real == x * 100.0
  }

  /** `x` litres rounded to two decimals. */
  function RoundCentilitres(x: real): (r: real)
    ensures OnGrid(r)
    ensures r - 0.005 <= x < r + 0.005
  {
    var n := RoundHalfUp(x * 100.0);
    assert (n as real / 100.0) * 100.0 == n as real;
    n as real / 100.0
  }

  /** The running total in litres after drinking `amountMl` millilitres more. */
  function NewAmount(current: real, amountMl: real): (r: real)
    ensures OnGrid(r)
    ensures r - 0.005 <= current + amountMl / 1000.0 < r + 0.005
  {
    RoundCentilitres(current + amountMl / 1000.0)
  }

  /** The first `n` entries of `s`, or all of them when there are fewer. */
  function Take<T>(s: seq<T>, n: nat): (t: seq<T>)
    ensures |t| == Min(|s|, n)
    ensures t == s[..|t|]
  {
    if |s| <= n then s else s[..n]
  }

  /**
   * The log after a new sip: the sip first, then the previous entries in
   * their order, the oldest falling off once there are fifty.
   */
  function LogSip(sip: SipRecord, history: seq<SipRecord>): (h: seq<SipRecord>)
    ensures |h| == Min(|history| + 1, HISTORY_LIMIT)
    ensures h[0] == sip
    ensures forall i :: 1 <= i < |h| ==> h[i] == history[i - 1]
  {
    Take([sip] + history, HISTORY_LIMIT)
  }

  /** The state after a sip is accepted: new total, new log, nothing else touched. */
  function Drink(prev: AppState, sip: SipRecord): (next: AppState)
    ensures next.currentAmount == NewAmount(prev.currentAmount, sip.amount)
    ensures next.history == LogSip(sip, prev.history)
    ensures next.(currentAmount := prev.currentAmount, history := prev.history) == prev
  {
    prev.(currentAmount := NewAmount(prev.currentAmount, sip.amount),
          history := LogSip(sip, prev.history))
  }

  /** A whole number of centilitres is left as it is by the rounding. */
  lemma RoundingKeepsWholeCentilitres(x: real)
    requires OnGrid(x)
    ensures RoundCentilitres(x) == x
  {
    var k := (x * 100.0).Floor;
    assert RoundHalfUp(x * 100.0) == k;
  }

  /** Drinking a non-negative amount from a non-negative total leaves a non-negative total. */
  lemma NewAmountNonNegative(current: real, amountMl: real)
    requires current >= 0.0 && amountMl >= 0.0
    ensures NewAmount(current, amountMl) >= 0.0
  {
  }

  /**
   * From a whole number of centilitres the total never goes down. (From an
   * arbitrary cached total it can: 0.123 L plus nothing rounds to 0.12 L.)
   */
  lemma NewAmountNeverDecreases(current: real, amountMl: real)
    requires OnGrid(current) && amountMl >= 0.0
    ensures NewAmount(current, amountMl) >= current
  {
    var k := (current * 100.0).Floor;
    var x := (current + amountMl / 1000.0) * 100.0;
    assert x == k as real + amountMl / 10.0;
    assert RoundHalfUp(x) >= k;
  }

  /** Rounding the total down from an off-grid cached value is possible. */
  lemma OffGridTotalCanDrop()
    ensures NewAmount(0.123, 0.0) == 0.12
  {
    assert RoundHalfUp(12.3) == 12;
  }

  /** Sips of whole centilitres are added without any rounding error. */
  lemma NoDriftForWholeCentilitres(current: real, amountMl: real)
    requires OnGrid(current) && OnGrid(amountMl / 1000.0)
    ensures NewAmount(current, amountMl) == current + amountMl / 1000.0
  {
    var a := (current * 100.0).Floor;
    var b := (amountMl / 1000.0 * 100.0).Floor;
    assert (current + amountMl / 1000.0) * 100.0 == (a + b) as real;
    RoundingKeepsWholeCentilitres(current + amountMl / 1000.0);
  }

  /** The total after drinking each amount of `amountsMl` in turn. */
  function DrinkAll(current: real, amountsMl: seq<real>): real
    decreases |amountsMl|
  {
    if amountsMl == [] then current
    else DrinkAll(NewAmount(current, amountsMl[0]), amountsMl[1..])
  }

  /** The sum of `xs`, added from the back. */
  function Sum(xs: seq<real>): real
    decreases |xs|
  {
    if xs == [] then 0.0 else xs[0] + Sum(xs[1..])
  }

  /** Any number of whole-centilitre sips adds up exactly: rounding never accumulates drift. */
  lemma {:induction false} DrinkAllIsExactSum(current: real, amountsMl: seq<real>)
    requires OnGrid(current)
    requires forall i :: 0 <= i < |amountsMl| ==> OnGrid(amountsMl[i] / 1000.0)
    ensures DrinkAll(current, amountsMl) == current + Sum(amountsMl) / 1000.0
    decreases |amountsMl|
  {
    if amountsMl != [] {
      NoDriftForWholeCentilitres(current, amountsMl[0]);
      var next := NewAmount(current, amountsMl[0]);
      assert forall i :: 0 <= i < |amountsMl[1..]| ==> OnGrid(amountsMl[1..][i] / 1000.0) by {
        forall i | 0 <= i < |amountsMl[1..]|
          ensures OnGrid(amountsMl[1..][i] / 1000.0)
        {
          assert amountsMl[1..][i] == amountsMl[i + 1];
        }
      }
      DrinkAllIsExactSum(next, amountsMl[1..]);
    }
  }

  /** Seven 150 ml cups from an empty day make exactly 1.05 L. */
  lemma SevenCups()
    ensures DrinkAll(0.0, [150.0, 150.0, 150.0, 150.0, 150.0, 150.0, 150.0]) == 1.05
  {
    var cups := [150.0, 150.0, 150.0, 150.0, 150.0, 150.0, 150.0];
    assert OnGrid(0.15) by {
      assert (0.15 * 100.0).Floor == 15;
    }
    assert OnGrid(0.0) by {
      assert (0.0 * 100.0).Floor == 0;
    }
    assert Sum(cups) == 1050.0 by {
      assert cups[1..] == [150.0, 150.0, 150.0, 150.0, 150.0, 150.0];
      assert cups[1..][1..] == [150.0, 150.0, 150.0, 150.0, 150.0];
      assert cups[1..][1..][1..] == [150.0, 150.0, 150.0, 150.0];
      assert cups[1..][1..][1..][1..] == [150.0, 150.0, 150.0];
      assert cups[1..][1..][1..][1..][1..] == [150.0, 150.0];
      assert cups[1..][1..][1..][1..][1..][1..] == [150.0];
    }
    DrinkAllIsExactSum(0.0, cups);
  }

  /** A full log loses exactly its oldest entry when a sip is logged. */
  lemma FullLogDropsOldest(sip: SipRecord, history: seq<SipRecord>)
    requires |history| == HISTORY_LIMIT
    ensures LogSip(sip, history) == [sip] + history[..HISTORY_LIMIT - 1]
  {
  }

  /** The log after logging each sip of `sips` in turn. */
  function LogAll(history: seq<SipRecord>, sips: seq<SipRecord>): seq<SipRecord>
    decreases |sips|
  {
    if sips == [] then history
    else LogAll(LogSip(sips[0], history), sips[1..])
  }

  /** `s` in the opposite order: the oldest sip of a run last, as a newest-first log holds it. */
  function Reverse<T>(s: seq<T>): (r: seq<T>)
    ensures |r| == |s|
    ensures forall i :: 0 <= i < |s| ==> r[i] == s[|s| - 1 - i]
    decreases |s|
  {
    if s == [] then [] else Reverse(s[1..]) + [s[0]]
  }

  /** Cutting the tail of a sequence to `n` before cutting the whole to `n` makes no difference. */
  lemma TakeOfTake<T>(a: seq<T>, b: seq<T>, n: nat)
    ensures Take(a + Take(b, n), n) == Take(a + b, n)
  {
    if |b| > n {
      assert (a + b)[..n] == (a + b[..n])[..n];
    }
  }

  /**
   * However many sips are logged, the log is the newest fifty entries of
   * all sips so far, newest first: the new sips in reverse order of
   * logging, then the previous log. (A cached log longer than fifty is
   * only cut back by the first sip.)
   */
  lemma {:induction false} LogAllKeepsNewest(history: seq<SipRecord>, sips: seq<SipRecord>)
    requires sips != [] || |history| <= HISTORY_LIMIT
    ensures LogAll(history, sips) == Take(Reverse(sips) + history, HISTORY_LIMIT)
    decreases |sips|
  {
    if sips != [] {
      var h1 := LogSip(sips[0], history);
      LogAllKeepsNewest(h1, sips[1..]);
      assert LogAll(history, sips) == LogAll(h1, sips[1..]);
      assert h1 == Take([sips[0]] + history, HISTORY_LIMIT);
      assert LogAll(history, sips) == Take(Reverse(sips[1..]) + h1, HISTORY_LIMIT);
      TakeOfTake(Reverse(sips[1..]), [sips[0]] + history, HISTORY_LIMIT);
      assert Reverse(sips) == Reverse(sips[1..]) + [sips[0]];
      assert Reverse(sips[1..]) + ([sips[0]] + history) == Reverse(sips) + history;
    }
  }

  /** After any run of sips the log holds min(previous + new, 50) entries. */
  lemma LogAllLength(history: seq<SipRecord>, sips: seq<SipRecord>)
    requires sips != [] || |history| <= HISTORY_LIMIT
    ensures |LogAll(history, sips)| == Min(|history| + |sips|, HISTORY_LIMIT)
  {
    LogAllKeepsNewest(history, sips);
  }
}
