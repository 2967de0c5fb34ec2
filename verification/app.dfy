/**
 * The page as a state machine: the application state, the logging guard,
 * the bottle's floating hearts and the record last written to the local
 * cache. Every input carries the wall-clock time at which it happens; the
 * 700 ms guard release and the 800 ms heart expiry arrive as inputs of
 * their own.
 */
module App {
  import opened Types
  import Rollover
  import Intake
  import WaterBottle

  /** The goals the goal dialog offers, in litres. */
  const GOAL_OPTIONS: seq<real> := [1.5, 2.0, 2.5, 3.0]

  /** The sip a click on the bottle logs. */
  const QUICK_ADD_ML: real := 250.0
  const QUICK_ADD_LABEL: string := "Pure Sip"
  const QUICK_ADD_ICON: string := "water_full"
  const QUICK_ADD_CATEGORY: string := "Quick Add"

  datatype Session = Session(
    state: AppState,
    isLogging: bool,
    isSplashing: bool,
    hearts: seq<WaterBottle.Heart>,
    storage: Saved)

  /**
   * What can happen on the page. `sipId` and `clock` are the id and the
   * display time the wall clock gives a new sip; `heartId` is the creation
   * time of a heart.
   */
  datatype Event =
    | Add(amountMl: real, caption: string, icon: string, category: string, sipId: string, clock: string)
    | GuardTimeout
    | PickGoal(goal: real)
    | BottleClick(heartId: int, x: real, sipId: string, clock: string)
    | HeartExpired(heartId: int)

  datatype Input = Input(event: Event, now: int)

  /** Replaces the application state; the persistence effect writes it to the cache at once. */
  function Commit(s: Session, next: AppState, now: int): (t: Session)
    ensures t.state == next && t.storage == Parsed(Rollover.Persist(next, now))
    ensures t.(state := s.state, storage := s.storage) == s
  {
    s.(state := next, storage := Parsed(Rollover.Persist(next, now)))
  }

  /** The page after loading the cache and the first run of the persistence effect. */
  function Boot(saved: Saved, now: int, dayOf: int -> int): (s: Session)
    ensures s.state == Rollover.Load(saved, now, dayOf)
    ensures !s.isLogging && !s.isSplashing && s.hearts == []
    ensures s.storage == Parsed(s.state.(lastUpdate := Some(now)))
  {
    var loaded := Rollover.Load(saved, now, dayOf);
    Session(loaded, false, false, [], Parsed(Rollover.Persist(loaded, now)))
  }

  /** Logging a sip: ignored while the guard is up, otherwise applied with the guard raised. */
  function AddWater(s: Session, sip: SipRecord, now: int): (t: Session)
    ensures s.isLogging ==> t == s
    ensures !s.isLogging ==> t.isLogging && t.isSplashing && t.state == Intake.Drink(s.state, sip)
    ensures !s.isLogging ==> t.storage == Parsed(Rollover.Persist(t.state, now))
  {
    if s.isLogging then s
    else Commit(s.(isLogging := true, isSplashing := true), Intake.Drink(s.state, sip), now)
  }

  /**
   * The page after one event at time `now`. The timeout lowers the guard and
   * the splash and touches nothing else; no other event lowers the guard;
   * every event that replaces the state writes it to the cache stamped with
   * the event's time; neither the timeout nor an expiry touches the state or
   * the cache; and no event changes the streak or the mood.
   */
  function Step(s: Session, e: Event, now: int): (t: Session)
    ensures e.GuardTimeout? ==>
      !t.isLogging && !t.isSplashing && t.(isLogging := s.isLogging, isSplashing := s.isSplashing) == s
    ensures s.isLogging && !e.GuardTimeout? ==> t.isLogging
    ensures e.GuardTimeout? || e.HeartExpired? ==> t.state == s.state && t.storage == s.storage
    ensures e.PickGoal? || ((e.Add? || e.BottleClick?) && !s.isLogging) ==>
      t.storage == Parsed(Rollover.Persist(t.state, now))
    ensures t.state.streak == s.state.streak && t.state.mood == s.state.mood
  {
    match e
    case Add(ml, caption, icon, category, sipId, clock) =>
      AddWater(s, SipRecord(sipId, ml, clock, caption, icon, category), now)
    case GuardTimeout =>
      s.(isLogging := false, isSplashing := false)
    case PickGoal(g) =>
      Commit(s, s.state.(goal := g), now)
    case BottleClick(heartId, x, sipId, clock) =>
      var clicked := s.(hearts := WaterBottle.AddHeart(s.hearts, WaterBottle.Heart(heartId, x)));
      AddWater(clicked, SipRecord(sipId, QUICK_ADD_ML, clock, QUICK_ADD_LABEL, QUICK_ADD_ICON, QUICK_ADD_CATEGORY), now)
    case HeartExpired(heartId) =>
      s.(hearts := WaterBottle.RemoveHeart(s.hearts, heartId))
  }

  /** The page after a run of events, in order. */
  function Replay(s: Session, inputs: seq<Input>): Session
    decreases |inputs|
  {
    if inputs == [] then s
    else Replay(Step(s, inputs[0].event, inputs[0].now), inputs[1..])
  }

  /** While the guard is up, a request to log a sip changes nothing at all. */
  lemma GuardRejectsAdds(s: Session, e: Event, now: int)
    requires s.isLogging && e.Add?
    ensures Step(s, e, now) == s
  {
  }

  /** An accepted sip raises the guard and changes the state by exactly that sip. */
  lemma AcceptedAddRaisesGuard(s: Session, e: Event, now: int)
    requires !s.isLogging && e.Add?
    ensures var t := Step(s, e, now);
      && t.isLogging
      && t.state == Intake.Drink(s.state, SipRecord(e.sipId, e.amountMl, e.clock, e.caption, e.icon, e.category))
      && t.hearts == s.hearts
  {
  }

  /** The timeout lowers the guard and the splash, and changes nothing else. */
  lemma TimeoutLowersGuard(s: Session, now: int)
    ensures var t := Step(s, GuardTimeout, now);
      && !t.isLogging && !t.isSplashing
      && t.(isLogging := s.isLogging, isSplashing := s.isSplashing) == s
  {
  }

  /** Only the timeout lowers the guard. */
  lemma OnlyTimeoutLowersGuard(s: Session, e: Event, now: int)
    requires s.isLogging && !Step(s, e, now).isLogging
    ensures e.GuardTimeout?
  {
  }

  /** Two requests back to back, with no timeout between them, log exactly one sip: the first. */
  lemma DoubleSubmitLogsOnce(s: Session, first: Event, second: Event, t1: int, t2: int)
    requires !s.isLogging && first.Add? && second.Add?
    ensures Step(Step(s, first, t1), second, t2) == Step(s, first, t1)
  {
  }

  /** A goal choice changes the goal and nothing else in the state, and leaves the guard and hearts alone. */
  lemma PickGoalChangesOnlyGoal(s: Session, g: real, now: int)
    ensures var t := Step(s, PickGoal(g), now);
      && t.state == s.state.(goal := g)
      && t.isLogging == s.isLogging && t.hearts == s.hearts
  {
  }

  /**
   * A click on the bottle adds exactly one heart, after the others, and
   * makes exactly one quick-add request of 250 ml.
   */
  lemma BottleClickIsHeartPlusQuickAdd(s: Session, heartId: int, x: real, sipId: string, clock: string, now: int)
    ensures var t := Step(s, BottleClick(heartId, x, sipId, clock), now);
      && t.hearts == s.hearts + [WaterBottle.Heart(heartId, x)]
      && t == Step(s.(hearts := t.hearts),
                   Add(QUICK_ADD_ML, QUICK_ADD_LABEL, QUICK_ADD_ICON, QUICK_ADD_CATEGORY, sipId, clock), now)
  {
  }

  /** A heart's expiry touches only the hearts. */
  lemma HeartExpiryTouchesOnlyHearts(s: Session, heartId: int, now: int)
    ensures var t := Step(s, HeartExpired(heartId), now);
      t.(hearts := s.hearts) == s && t.hearts == WaterBottle.RemoveHeart(s.hearts, heartId)
  {
  }

  /** The cache holds the in-memory state, up to the time it was written. */
  predicate Durable(s: Session) {
    s.storage.Parsed? && s.storage.record.(lastUpdate := s.state.lastUpdate) == s.state
  }

  /** After start-up the cache already holds the loaded state. */
  lemma BootIsDurable(saved: Saved, now: int, dayOf: int -> int)
    ensures Durable(Boot(saved, now, dayOf))
  {
  }

  /** Every event keeps the cache in step with the in-memory state. */
  lemma StepKeepsDurable(s: Session, e: Event, now: int)
    requires Durable(s)
    ensures Durable(Step(s, e, now))
  {
  }

  /** Any run of events keeps the cache in step with the in-memory state. */
  lemma {:induction false} ReplayKeepsDurable(s: Session, inputs: seq<Input>)
    requires Durable(s)
    ensures Durable(Replay(s, inputs))
    decreases |inputs|
  {
    if inputs != [] {
      StepKeepsDurable(s, inputs[0].event, inputs[0].now);
      ReplayKeepsDurable(Step(s, inputs[0].event, inputs[0].now), inputs[1..]);
    }
  }

  /**
   * Reopening the page on the day of the last write restores the state the
   * page last held, only restamped.
   */
  lemma ReopenSameDayRestores(s: Session, now: int, dayOf: int -> int)
    requires Durable(s)
    requires dayOf(Rollover.LastWrite(s.storage.record)) == dayOf(now)
    ensures Boot(s.storage, now, dayOf).state.(lastUpdate := s.state.lastUpdate) == s.state
  {
  }

  /** The guard and the splash animation are raised and lowered together. */
  predicate GuardInStep(s: Session) {
    s.isLogging == s.isSplashing
  }

  /** The facts about a state the page relies on: non-negative total, positive goal, streak of at least one, bounded log. */
  predicate Healthy(st: AppState) {
    && st.currentAmount >= 0.0
    && st.goal > 0.0
    && st.streak >= 1
    && |st.history| <= Intake.HISTORY_LIMIT
  }

  /** The events the page's controls can produce: non-negative sips and goals from the dialog. */
  predicate Valid(e: Event) {
    match e
    case Add(ml, _, _, _, _, _) => ml >= 0.0
    case PickGoal(g) => g in GOAL_OPTIONS
    case _ => true
  }

  /** Starting from no record, or from a healthy one, the page starts healthy with guard and splash down. */
  lemma BootHealthy(saved: Saved, now: int, dayOf: int -> int)
    requires saved.Parsed? ==> Healthy(saved.record)
    ensures Healthy(Boot(saved, now, dayOf).state) && GuardInStep(Boot(saved, now, dayOf))
  {
  }

  /** Every valid event keeps the state healthy and the guard in step with the splash. */
  lemma StepKeepsHealthy(s: Session, e: Event, now: int)
    requires Healthy(s.state) && GuardInStep(s) && Valid(e)
    ensures Healthy(Step(s, e, now).state) && GuardInStep(Step(s, e, now))
  {
    if e.Add? && !s.isLogging {
      Intake.NewAmountNonNegative(s.state.currentAmount, e.amountMl);
    } else if e.BottleClick? && !s.isLogging {
      Intake.NewAmountNonNegative(s.state.currentAmount, QUICK_ADD_ML);
    }
  }

  /** Any run of valid events keeps the state healthy. */
  lemma {:induction false} ReplayKeepsHealthy(s: Session, inputs: seq<Input>)
    requires Healthy(s.state) && GuardInStep(s)
    requires forall i :: 0 <= i < |inputs| ==> Valid(inputs[i].event)
    ensures Healthy(Replay(s, inputs).state) && GuardInStep(Replay(s, inputs))
    decreases |inputs|
  {
    if inputs != [] {
      StepKeepsHealthy(s, inputs[0].event, inputs[0].now);
      assert forall i :: 0 <= i < |inputs[1..]| ==> Valid(inputs[1..][i].event) by {
        forall i | 0 <= i < |inputs[1..]|
          ensures Valid(inputs[1..][i].event)
        {
          assert inputs[1..][i] == inputs[i + 1];
        }
      }
      ReplayKeepsHealthy(Step(s, inputs[0].event, inputs[0].now), inputs[1..]);
    }
  }

  /** The daily reset happens only at start-up: no event changes the streak or the mood. */
  lemma {:induction false} NoRolloverMidSession(s: Session, inputs: seq<Input>)
    ensures Replay(s, inputs).state.streak == s.state.streak
    ensures Replay(s, inputs).state.mood == s.state.mood
    decreases |inputs|
  {
    if inputs != [] {
      StepKeepsStreak(s, inputs[0].event, inputs[0].now);
      NoRolloverMidSession(Step(s, inputs[0].event, inputs[0].now), inputs[1..]);
    }
  }

  /** No single event changes the streak or the mood. */
  lemma StepKeepsStreak(s: Session, e: Event, now: int)
    ensures Step(s, e, now).state.streak == s.state.streak
    ensures Step(s, e, now).state.mood == s.state.mood
  {
  }

  /**
   * Within a session the day's total never goes down once it is a whole
   * number of centilitres, and it stays one.
   */
  lemma {:induction false} TotalNeverDecreases(s: Session, inputs: seq<Input>)
    requires Intake.OnGrid(s.state.currentAmount)
    requires forall i :: 0 <= i < |inputs| ==> Valid(inputs[i].event)
    ensures Intake.OnGrid(Replay(s, inputs).state.currentAmount)
    ensures Replay(s, inputs).state.currentAmount >= s.state.currentAmount
    decreases |inputs|
  {
    if inputs != [] {
      var e := inputs[0].event;
      var t := Step(s, e, inputs[0].now);
      if e.Add? && !s.isLogging {
        Intake.NewAmountNeverDecreases(s.state.currentAmount, e.amountMl);
      } else if e.BottleClick? && !s.isLogging {
        Intake.NewAmountNeverDecreases(s.state.currentAmount, QUICK_ADD_ML);
      }
      assert t.state.currentAmount >= s.state.currentAmount;
      assert forall i :: 0 <= i < |inputs[1..]| ==> Valid(inputs[1..][i].event) by {
        forall i | 0 <= i < |inputs[1..]|
          ensures Valid(inputs[1..][i].event)
        {
          assert inputs[1..][i] == inputs[i + 1];
        }
      }
      TotalNeverDecreases(t, inputs[1..]);
    }
  }
}
