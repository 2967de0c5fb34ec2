/**
 * Choosing the coaching line shown beside the bottle. Three progress
 * messages take priority; otherwise a line is drawn from a pool that depends
 * on the hour of the day. The hour and the random draw are parameters.
 */
module Tips {

  /** Lines suitable at any hour. */
  const TIPS: seq<string> := [
    "You're doing amazing, starshine! Keep sipping! \U{2728}",
    "Your skin is going to be so glowy today! \U{1F338}",
    "Hydroy thinks you're the best for drinking water! \U{1F4A7}",
    "One sip at a time, you're becoming a hydration queen! \U{1F451}",
    "Don't forget to blink and take a sip! Pinky promise? \U{1F337}",
    "Every drop is a hug for your cells! \U{1F496}",
    "Stay hydrated, stay cute, stay you! \U{1F380}",
    "Nature called, it said you need a refill! \U{1F343}",
    "Sparkle from the inside out with more water! \U{2728}",
    "You're basically a plant with more complicated emotions. Water yourself! \U{1F33F}",
    "A sip a day keeps the thirsties away! \U{1F36D}",
    "Drink water like it's your job (the cute kind of job)! \U{1F4BC}\U{1F495}",
    "Hydroy is cheering for you! Go go go! \U{1F4E3}",
    "Water is your secret weapon for a magic day! \U{1FA84}",
    "Stay juicy, sunshine! \U{1F34A}",
    "Your brain loves water almost as much as I love you! \U{1F9E0}\U{1F495}",
    "Sip sip hooray! You're crushing it! \U{1F942}",
    "Refresh your soul with a little splash! \U{1F30A}",
    "The water bottle misses you when you're gone! \U{1F97A}",
    "Hydration is the best accessory! \U{1F48E}"
  ]

  /** Extra lines before 11:00. */
  const MORNING_TIPS: seq<string> := [
    "Wakey wakey! Start your day with a big splash! \U{2600}\U{FE0F}",
    "Morning dew for a morning star! Drink up! \U{1F305}",
    "Good morning! Your body is thirsty for a new day! \U{2615}\U{1F4A7}"
  ]

  /** Extra lines from 20:00. */
  const EVENING_TIPS: seq<string> := [
    "Wind down with some cozy hydration! \U{1F319}",
    "Sweet dreams start with a hydrated body! \U{2601}\U{FE0F}",
    "Evening sips for a peaceful sleep! \U{2728}"
  ]

  const GOAL_REACHED: string := "Goal reached! You're a hydration LEGEND! \U{1F3C6}\U{2728}"
  const ALMOST_THERE: string := "Almost there! You're radiating health! \U{1F31F}"
  const START_THE_FLOW: string := "Let's start the flow! First sip is the best! \U{1F4A7}\U{2728}"

  /** The pool random lines are drawn from at a given hour (0 to 23). */
  function Pool(hour: int): (pool: seq<string>)
    ensures |TIPS| == 20 && |pool| == if 11 <= hour <= 19 then 20 else 23
    ensures pool[..|TIPS|] == TIPS
    ensures hour < 11 ==> pool[|TIPS|..] == MORNING_TIPS
    ensures hour > 19 ==> pool[|TIPS|..] == EVENING_TIPS
  {
    if hour < 11 then TIPS + MORNING_TIPS
    else if hour > 19 then TIPS + EVENING_TIPS
    else TIPS
  }

  /** What the progress alone says, before any random line is drawn. */
  datatype Advice = GoalReached | AlmostThere | StartTheFlow | Encourage

  /** The priority chain: goal met, then within the last fifth, then nothing drunk yet. */
  function Classify(currentAmount: real, goal: real): (a: Advice)
    ensures a == GoalReached <==> currentAmount >= goal
    ensures a == AlmostThere <==> goal * 0.8 < currentAmount < goal
    ensures a == StartTheFlow <==> currentAmount == 0.0 && goal > 0.0
    ensures a == Encourage <==> currentAmount != 0.0 && currentAmount < goal && currentAmount <= goal * 0.8
  {
    if currentAmount >= goal then GoalReached
    else if currentAmount > goal * 0.8 then AlmostThere
    else if currentAmount == 0.0 then StartTheFlow
    else Encourage
  }

  /** The fixed line for each progress message. */
  function Message(a: Advice): string
    requires !a.Encourage?
  {
    match a
    case GoalReached => GOAL_REACHED
    case AlmostThere => ALMOST_THERE
    case StartTheFlow => START_THE_FLOW
  }

  /** `Math.floor(r * n)` for a draw `r` in [0, 1): an index into a list of `n` entries. */
  function PickIndex(r: real, n: nat): (i: nat)
    requires 0.0 <= r < 1.0 && n > 0
    ensures i < n
    ensures i as real <= r * n as real < i as real + 1.0
  {
    assert 0.0 <= r * n as real < n as real by {
      assert r * n as real < 1.0 * n as real;
    }
    (r * n as real).Floor
  }

  /**
   * The line shown for an intake and goal in litres, at `hour`, with random
   * draw `r`. Every input in range yields a line.
   */
  function HydrationTip(currentAmount: real, goal: real, hour: int, r: real): (tip: string)
    requires 0.0 <= r < 1.0
    ensures currentAmount >= goal ==> tip == GOAL_REACHED
    ensures goal * 0.8 < currentAmount < goal ==> tip == ALMOST_THERE
    ensures goal > 0.0 && currentAmount == 0.0 ==> tip == START_THE_FLOW
    ensures Classify(currentAmount, goal).Encourage? ==> tip in Pool(hour)
  {
    var advice := Classify(currentAmount, goal);
    if !advice.Encourage? then Message(advice)
    else
      var pool := Pool(hour);
      pool[PickIndex(r, |pool|)]
  }

  /**
   * With a positive goal the message is decided by the intake alone: goal
   * reached from the goal up, almost there strictly between 80% of the goal
   * and the goal, start the flow at exactly zero, and a random line
   * otherwise.
   */
  lemma ClassifyBands(currentAmount: real, goal: real)
    requires goal > 0.0
    ensures Classify(currentAmount, goal) == GoalReached <==> currentAmount >= goal
    ensures Classify(currentAmount, goal) == AlmostThere <==> goal * 0.8 < currentAmount < goal
    ensures Classify(currentAmount, goal) == StartTheFlow <==> currentAmount == 0.0
    ensures Classify(currentAmount, goal) == Encourage
      <==> currentAmount != 0.0 && currentAmount <= goal * 0.8
  {
  }

  /** Exactly 80% of a positive goal is not yet "almost there". */
  lemma EightyPercentIsNotAlmost(goal: real)
    requires goal > 0.0
    ensures Classify(goal * 0.8, goal) == Encourage
  {
  }

  /** The progress messages do not depend on the hour or the draw. */
  lemma MessageIgnoresHourAndDraw(currentAmount: real, goal: real, h1: int, r1: real, h2: int, r2: real)
    requires 0.0 <= r1 < 1.0 && 0.0 <= r2 < 1.0
    requires !Classify(currentAmount, goal).Encourage?
    ensures HydrationTip(currentAmount, goal, h1, r1) == HydrationTip(currentAmount, goal, h2, r2)
      == Message(Classify(currentAmount, goal))
  {
  }

  /**
   * Every line of the hour's pool can be drawn, the morning and evening
   * lines included: draw `i / |pool|` picks line `i`.
   */
  lemma EveryPoolTipReachable(currentAmount: real, goal: real, hour: int, i: nat)
    requires Classify(currentAmount, goal).Encourage?
    requires i < |Pool(hour)|
    ensures var n := |Pool(hour)|;
      HydrationTip(currentAmount, goal, hour, i as real / n as real) == Pool(hour)[i]
  {
    var n := |Pool(hour)|;
    var r := i as real / n as real;
    assert r * n as real == i as real;
    assert PickIndex(r, n) == i;
  }

  /** In particular every general line can be drawn at every hour. */
  lemma EveryGeneralTipReachable(currentAmount: real, goal: real, hour: int, i: nat)
    requires Classify(currentAmount, goal).Encourage?
    requires i < |TIPS|
    ensures var n := |Pool(hour)|;
      HydrationTip(currentAmount, goal, hour, i as real / n as real) == TIPS[i]
  {
    EveryPoolTipReachable(currentAmount, goal, hour, i);
    assert Pool(hour)[i] == Pool(hour)[..|TIPS|][i];
  }
}
