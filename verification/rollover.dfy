/**
 * Start-up of the tracker: reading the cached record, the daily reset with
 * its streak rule, and the record that is written back after every change.
 *
 * The clock and the calendar are parameters: `now` is an epoch time in
 * milliseconds and `dayOf` maps an epoch time to the local calendar day it
 * falls on. Nothing is assumed about `dayOf` except where a lemma says so.
 */
module Rollover {
  import opened Types

  /** Milliseconds in one day, the unit of the elapsed-days count. */
  const MS_PER_DAY: int := 1000 * 60 * 60 * 24

  /** The built-in state: nothing drunk, a 2 L goal, a one-day streak. */
  const INITIAL_STATE: AppState := AppState(0.0, 2.0, 1, "Glowing!", [], None)

  /** The state used when the cache holds nothing usable. */
  function InitialState(now: int): AppState {
    INITIAL_STATE.(lastUpdate := Some(now))
  }

  /** When a record was last written; a record without a time reads as written at epoch 0. */
  function LastWrite(r: AppState): int {
    r.lastUpdate.GetOr(0)
  }

  /** Whole days elapsed from `last` to `now`, rounded towards minus infinity. */
  function DiffDays(now: int, last: int): (d: int)
    ensures d * MS_PER_DAY <= now - last < (d + 1) * MS_PER_DAY
  {
    (now - last) / MS_PER_DAY
  }

  /** The streak after a day change: one more when at most one whole day passed, else back to 1. */
  function NextStreak(streak: int, diffDays: int): (n: int)
    ensures diffDays <= 1 ==> n == streak + 1
    ensures diffDays >= 2 ==> n == 1
    ensures streak >= 1 ==> n >= 1
  {
    if diffDays <= 1 then streak + 1 else 1
  }

  /** The cached record was last written on another calendar day than `now`. */
  predicate IsNewDay(r: AppState, now: int, dayOf: int -> int) {
    dayOf(LastWrite(r)) != dayOf(now)
  }

  /** The daily reset: today's total and log are cleared, the streak moves on and the record is restamped. */
  function Rollover(r: AppState, now: int): (t: AppState)
    ensures t.currentAmount == 0.0 && t.history == [] && t.lastUpdate == Some(now)
    ensures now - LastWrite(r) < 2 * MS_PER_DAY ==> t.streak == r.streak + 1
    ensures now - LastWrite(r) >= 2 * MS_PER_DAY ==> t.streak == 1
    ensures t.(currentAmount := r.currentAmount, history := r.history, streak := r.streak,
               lastUpdate := r.lastUpdate) == r
  {
    r.(currentAmount := 0.0,
       history := [],
       streak := NextStreak(r.streak, DiffDays(now, LastWrite(r))),
       lastUpdate := Some(now))
  }

  /** The state the page starts from, given what the cache held. */
  function Load(saved: Saved, now: int, dayOf: int -> int): (s: AppState)
    ensures saved.Parsed? ==> s.goal == saved.record.goal && s.mood == saved.record.mood
    ensures saved.Parsed? && s.lastUpdate != saved.record.lastUpdate ==> s.lastUpdate == Some(now)
  {
    match saved
    case Parsed(r) => if IsNewDay(r, now, dayOf) then Rollover(r, now) else r
    case _ => InitialState(now)
  }

  /** The record written to the cache: the state stamped with the time of writing. */
  function Persist(s: AppState, now: int): (w: AppState)
    ensures w.lastUpdate == Some(now)
    ensures w.(lastUpdate := s.lastUpdate) == s
  {
    s.(lastUpdate := Some(now))
  }

  /** The calendar day of a clock that is `offset` milliseconds ahead of UTC. */
  function LocalDay(offset: int): int -> int {
    t => (t + offset) / MS_PER_DAY
  }

  /** Without a usable record the page starts from the built-in state stamped with `now`. */
  lemma LoadWithoutRecord(saved: Saved, now: int, dayOf: int -> int)
    requires !saved.Parsed?
    ensures var s := Load(saved, now, dayOf);
      && s.currentAmount == 0.0 && s.goal == 2.0 && s.streak == 1
      && s.mood == "Glowing!" && s.history == [] && s.lastUpdate == Some(now)
  {
  }

  /** A record last written today is used exactly as it was read. */
  lemma LoadSameDay(r: AppState, now: int, dayOf: int -> int)
    requires dayOf(LastWrite(r)) == dayOf(now)
    ensures Load(Parsed(r), now, dayOf) == r
  {
  }

  /**
   * A record from another day is reset: today's total and log are emptied,
   * the goal and mood survive, the record is restamped with `now`, and the
   * streak continues when less than two whole days have passed since the
   * last write (a missing write time counting as epoch 0) and restarts at 1
   * otherwise.
   */
  lemma LoadNewDay(r: AppState, now: int, dayOf: int -> int)
    requires dayOf(LastWrite(r)) != dayOf(now)
    ensures var s := Load(Parsed(r), now, dayOf);
      && s.currentAmount == 0.0 && s.history == [] && s.lastUpdate == Some(now)
      && s.goal == r.goal && s.mood == r.mood
      && (now - r.lastUpdate.GetOr(0) < 2 * MS_PER_DAY ==> s.streak == r.streak + 1)
      && (now - r.lastUpdate.GetOr(0) >= 2 * MS_PER_DAY ==> s.streak == 1)
  {
    var d := DiffDays(now, LastWrite(r));
    if now - LastWrite(r) < 2 * MS_PER_DAY {
      assert d <= 1;
    } else {
      assert d >= 2;
    }
  }

  /** Loading is idempotent: reading back what a load produced, at the same instant, changes nothing. */
  lemma LoadIdempotent(saved: Saved, now: int, dayOf: int -> int)
    ensures Load(Parsed(Load(saved, now, dayOf)), now, dayOf) == Load(saved, now, dayOf)
  {
  }

  /** A record written today comes back on a reload today with only the write time changed. */
  lemma ReloadAfterPersist(s: AppState, written: int, now: int, dayOf: int -> int)
    requires dayOf(written) == dayOf(now)
    ensures Load(Parsed(Persist(s, written)), now, dayOf).(lastUpdate := s.lastUpdate) == s
  {
  }

  /** On a fixed-offset clock, coming back on the next calendar day always continues the streak. */
  lemma {:induction false} NextCalendarDayContinuesStreak(r: AppState, last: int, now: int, offset: int)
    requires r.lastUpdate == Some(last)
    requires LocalDay(offset)(now) == LocalDay(offset)(last) + 1
    ensures Load(Parsed(r), now, LocalDay(offset)).streak == r.streak + 1
  {
    var dl := (last + offset) / MS_PER_DAY;
    var dn := (now + offset) / MS_PER_DAY;
    assert dl * MS_PER_DAY <= last + offset;
    assert now + offset < (dn + 1) * MS_PER_DAY;
    assert now - last < 2 * MS_PER_DAY;
    LoadNewDay(r, now, LocalDay(offset));
  }

  /** On a fixed-offset clock, coming back after two or more blank calendar days restarts the streak. */
  lemma {:induction false} BlankDaysRestartStreak(r: AppState, last: int, now: int, offset: int)
    requires r.lastUpdate == Some(last)
    requires LocalDay(offset)(now) >= LocalDay(offset)(last) + 3
    ensures Load(Parsed(r), now, LocalDay(offset)).streak == 1
  {
    var dl := (last + offset) / MS_PER_DAY;
    var dn := (now + offset) / MS_PER_DAY;
    assert last + offset < (dl + 1) * MS_PER_DAY;
    assert dn * MS_PER_DAY <= now + offset;
    assert now - last >= 2 * MS_PER_DAY;
    LoadNewDay(r, now, LocalDay(offset));
  }

  /**
   * The streak counts elapsed 24-hour periods, not calendar days: a record
   * written at 23:00 and reopened at 01:00 two calendar days later (one
   * whole calendar day without a visit, 26 hours elapsed) still continues
   * the streak.
   */
  lemma OneBlankDayCanContinueStreak(r: AppState)
    requires r.lastUpdate == Some(23 * 3_600_000)
    ensures var now := 2 * MS_PER_DAY + 3_600_000;
      && LocalDay(0)(now) == LocalDay(0)(23 * 3_600_000) + 2
      && Load(Parsed(r), now, LocalDay(0)).streak == r.streak + 1
  {
    var now := 2 * MS_PER_DAY + 3_600_000;
    assert LocalDay(0)(now) == 2;
    assert LocalDay(0)(23 * 3_600_000) == 0;
    LoadNewDay(r, now, LocalDay(0));
  }
}
