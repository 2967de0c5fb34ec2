/**
 * The bottle widget: how full it is drawn, where the mascot card sits, which
 * evolution stage the mascot shows, and the hearts that float up on a click.
 * Percentages are reals; the widget's easing of the displayed percentage
 * towards the target is not modelled, so a percentage argument stands for
 * the displayed one once it has caught up.
 */
module WaterBottle {

  /** How full the bottle is drawn, in percent of the goal, never above 100. */
  function TargetPercentage(current: real, goal: real): (p: real)
    requires goal != 0.0
    ensures p <= 100.0 && p <= current / goal * 100.0
    ensures p == 100.0 || p == current / goal * 100.0
    ensures current >= 0.0 && goal > 0.0 ==> p >= 0.0
  {
    var raw := current / goal * 100.0;
    if raw < 100.0 then raw else 100.0
  }

  /** With a positive goal the bottle is drawn full exactly when the goal is met. */
  lemma FullExactlyAtGoal(current: real, goal: real)
    requires goal > 0.0
    ensures TargetPercentage(current, goal) == 100.0 <==> current >= goal
  {
    var q := current / goal;
    assert q * goal == current;
    if current >= goal {
      assert q >= 1.0;
    } else {
      assert q < 1.0;
    }
  }

  /** Height of the mascot card above the bottom of the glass, in percent. */
  function ConstrainedBottom(pct: real): (b: real)
    ensures 0.0 <= pct <= 100.0 ==> 22.0 <= b <= 74.0
    ensures pct == 0.0 ==> b == 22.0
    ensures pct == 100.0 ==> b == 74.0
  {
    22.0 + pct * 0.52
  }

  /** The card rises with the water: a fuller bottle never puts it lower. */
  lemma BottomMonotone(p: real, q: real)
    requires p <= q
    ensures ConstrainedBottom(p) <= ConstrainedBottom(q)
  {
  }

  /** For any non-negative intake against a positive goal, the card stays inside the glass. */
  lemma BottomStaysInGlass(current: real, goal: real)
    requires current >= 0.0 && goal > 0.0
    ensures 22.0 <= ConstrainedBottom(TargetPercentage(current, goal)) <= 74.0
  {
  }

  /** The mascot's stages, from emptiest to fullest. */
  datatype Stage = Thirsty | Waking | Sweetie | Honey | Beautiful | Queen {

    /** Position in the order of stages. */
    function Rank(): nat {
      match this
      case Thirsty => 0
      case Waking => 1
      case Sweetie => 2
      case Honey => 3
      case Beautiful => 4
      case Queen => 5
    }

    function Mood(): string {
      match this
      case Thirsty => "Thirsty"
      case Waking => "Waking"
      case Sweetie => "Sweetie"
      case Honey => "Honey"
      case Beautiful => "Beautiful"
      case Queen => "Queen"
    }

    function Emoji(): string {
      match this
      case Thirsty => "\U{1F940}"
      case Waking => "\U{1F337}"
      case Sweetie => "\U{1F380}"
      case Honey => "\U{1F338}"
      case Beautiful => "\U{1F496}"
      case Queen => "\U{1F451}"
    }

    function Color(): string {
      match this
      case Thirsty => "text-pink-200"
      case Waking => "text-[#ffccd5]"
      case Sweetie => "text-[#ffb3c1]"
      case Honey => "text-[#ff8fa3]"
      case Beautiful => "text-[#ff758f]"
      case Queen => "text-[#ff4d6d]"
    }
  }

  /** The band of percentages each stage covers: below 20, then steps of 20, then 100 and up. */
  predicate InBand(st: Stage, pct: real) {
    match st
    case Thirsty => pct < 20.0
    case Waking => 20.0 <= pct < 40.0
    case Sweetie => 40.0 <= pct < 60.0
    case Honey => 60.0 <= pct < 80.0
    case Beautiful => 80.0 <= pct < 100.0
    case Queen => 100.0 <= pct
  }

  /** The stage the mascot shows at a fill percentage. */
  function Evolution(pct: real): (st: Stage)
    ensures InBand(st, pct)
  {
    if pct >= 100.0 then Queen
    else if pct >= 80.0 then Beautiful
    else if pct >= 60.0 then Honey
    else if pct >= 40.0 then Sweetie
    else if pct >= 20.0 then Waking
    else Thirsty
  }

  /** Every percentage lies in exactly one band, and that band's stage is the one shown. */
  lemma EvolutionIsTheBand(pct: real, st: Stage)
    ensures Evolution(pct) == st <==> InBand(st, pct)
  {
  }

  /** A fuller bottle never shows an earlier stage. */
  lemma EvolutionMonotone(p: real, q: real)
    requires p <= q
    ensures Evolution(p).Rank() <= Evolution(q).Rank()
  {
  }

  /** With a positive goal the mascot is Queen exactly when the goal is met. */
  lemma QueenExactlyAtGoal(current: real, goal: real)
    requires goal > 0.0
    ensures Evolution(TargetPercentage(current, goal)) == Queen <==> current >= goal
  {
    FullExactlyAtGoal(current, goal);
  }

  /** A heart floating up from a click: its creation time and its horizontal position in percent. */
  datatype Heart = Heart(id: int, x: real)

  /** No heart in `hearts` carries `id`. */
  predicate Fresh(hearts: seq<Heart>, id: int) {
    forall k :: 0 <= k < |hearts| ==> hearts[k].id != id
  }

  /** No two hearts in `hearts` carry the same id. */
  predicate DistinctIds(hearts: seq<Heart>) {
    forall j, k :: 0 <= j < k < |hearts| ==> hearts[j].id != hearts[k].id
  }

  /** A click adds its heart after the ones already floating. */
  function AddHeart(hearts: seq<Heart>, h: Heart): (r: seq<Heart>)
    ensures |r| == |hearts| + 1 && r[|hearts|] == h && r[..|hearts|] == hearts
  {
    hearts + [h]
  }

  /** A heart's expiry removes every heart with its id and keeps the rest in order. */
  function RemoveHeart(hearts: seq<Heart>, id: int): (r: seq<Heart>)
    ensures forall h :: h in r <==> h in hearts && h.id != id
    ensures |r| <= |hearts|
    ensures Fresh(r, id)
    decreases |hearts|
  {
    if hearts == [] then []
    else if hearts[0].id == id then RemoveHeart(hearts[1..], id)
    else [hearts[0]] + RemoveHeart(hearts[1..], id)
  }

  /** An expiry for an id no heart carries changes nothing. */
  lemma {:induction false} RemoveAbsentHeart(hearts: seq<Heart>, id: int)
    requires Fresh(hearts, id)
    ensures RemoveHeart(hearts, id) == hearts
    decreases |hearts|
  {
    if hearts != [] {
      RemoveAbsentHeart(hearts[1..], id);
    }
  }

  /**
   * When ids are distinct, an expiry removes exactly the one heart with that
   * id and leaves the others where they were.
   */
  lemma {:induction false} RemoveOneHeart(hearts: seq<Heart>, k: nat)
    requires k < |hearts| && DistinctIds(hearts)
    ensures RemoveHeart(hearts, hearts[k].id) == hearts[..k] + hearts[k + 1..]
    decreases k
  {
    var id := hearts[k].id;
    if k == 0 {
      RemoveAbsentHeart(hearts[1..], id);
    } else {
      RemoveOneHeart(hearts[1..], k - 1);
      assert hearts[1..][k - 1] == hearts[k];
      assert hearts[..k] == [hearts[0]] + hearts[1..][..k - 1];
      assert hearts[k + 1..] == hearts[1..][k..];
    }
  }

  /** A heart added with a fresh id and then expired leaves the hearts as they were. */
  lemma AddThenExpire(hearts: seq<Heart>, h: Heart)
    requires Fresh(hearts, h.id)
    ensures RemoveHeart(AddHeart(hearts, h), h.id) == hearts
  {
    RemoveSplit(hearts, [h], h.id);
    RemoveAbsentHeart(hearts, h.id);
  }

  /** Removal works piecewise on a concatenation. */
  lemma {:induction false} RemoveSplit(a: seq<Heart>, b: seq<Heart>, id: int)
    ensures RemoveHeart(a + b, id) == RemoveHeart(a, id) + RemoveHeart(b, id)
    decreases |a|
  {
    if a != [] {
      assert (a + b)[1..] == a[1..] + b;
      RemoveSplit(a[1..], b, id);
    } else {
      assert a + b == b;
    }
  }
}
