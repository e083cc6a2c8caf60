/** The browser's authentication context: the badge ladder, the badge and
    progress a user's points give, and the mock login state. */
module AuthContext {
  import opened Wrappers
  import opened Seqs
  import opened Text
  import opened Rounding
  import opened UiTypes

  /** The badge ladder, from Newbie at 20 points to Master at 120. */
  const Badges: seq<Badge> := [
    Badge("1", "Newbie", 1, 20, "\U{1F331}", "badge-newbie"),
    Badge("2", "Explorer", 2, 40, "\U{1F50D}", "badge-explorer"),
    Badge("3", "Achiever", 3, 60, "\U{2B50}", "badge-achiever"),
    Badge("4", "Specialist", 4, 80, "\U{1F3AF}", "badge-specialist"),
    Badge("5", "Expert", 5, 100, "\U{1F48E}", "badge-expert"),
    Badge("6", "Master", 6, 120, "\U{1F451}", "badge-master")
  ]

  /** The thresholds go up by 20 from 20, so they are strictly increasing. */
  lemma BadgeThresholds()
    ensures |Badges| == 6
    ensures forall i :: 0 <= i < |Badges| ==> Badges[i].requiredPoints == 20 * (i + 1)
    ensures forall i, j :: 0 <= i < j < |Badges| ==> Badges[i].requiredPoints < Badges[j].requiredPoints
  {
  }

  /** The last entry of `bs` whose threshold `points` reaches: what
      `[...bs].reverse().find(b => points >= b.requiredPoints)` finds. */
  function LastReached(bs: seq<Badge>, points: int): (r: Option<nat>)
    ensures r.None? <==> forall i :: 0 <= i < |bs| ==> points < bs[i].requiredPoints
    ensures r.Some? ==> r.value < |bs| && bs[r.value].requiredPoints <= points
    ensures r.Some? ==> forall j :: r.value < j < |bs| ==> points < bs[j].requiredPoints
  {
    if bs == [] then None
    else if points >= bs[|bs| - 1].requiredPoints then Some(|bs| - 1)
    else LastReached(bs[..|bs| - 1], points)
  }

  /** `getCurrentBadge`: the last badge reached, or Newbie when none is. */
  function CurrentBadge(points: int): Badge
  {
    match LastReached(Badges, points)
    case Some(k) => Badges[k]
    case None => Badges[0]
  }

  function Above(points: int): Badge -> bool
  {
    (b: Badge) => b.requiredPoints > points
  }

  /** `getNextBadge`: the first badge whose threshold lies above `points`. */
  function NextBadge(points: int): Option<Badge>
  {
    First(Badges, Above(points))
  }

  /** The current badge is the highest badge reached, and Newbie below 20. */
  lemma CurrentBadgeIsHighestReached(points: int)
    ensures points < 20 ==> CurrentBadge(points) == Badges[0]
    ensures points >= 20 ==> CurrentBadge(points) in Badges && CurrentBadge(points).requiredPoints <= points
    ensures points >= 20 ==> forall b :: b in Badges && b.requiredPoints <= points ==> b.requiredPoints <= CurrentBadge(points).requiredPoints
    ensures points >= 20 ==> CurrentBadge(points) == Badges[(if points >= 120 then 6 else points / 20) - 1]
  {
    BadgeThresholds();
    var r := LastReached(Badges, points);
    if points >= 20 {
      assert Badges[0].requiredPoints <= points;
      var k := r.value;
      var n := if points >= 120 then 6 else points / 20;
      assert Badges[n - 1].requiredPoints <= points;
      assert Badges[k].requiredPoints == 20 * (k + 1);
    }
  }

  /** The next badge is the lowest badge not yet reached, and there is none
      from 120 points on. */
  lemma NextBadgeIsLowestUnreached(points: int)
    ensures NextBadge(points).None? <==> points >= 120
    ensures NextBadge(points).Some? ==> NextBadge(points).value.requiredPoints > points
    ensures NextBadge(points).Some? ==> forall b :: b in Badges && b.requiredPoints > points ==> NextBadge(points).value.requiredPoints <= b.requiredPoints
    ensures points < 120 ==> NextBadge(points) == Some(Badges[if points < 20 then 0 else points / 20])
  {
    BadgeThresholds();
    var r := FirstIndex(Badges, Above(points));
    if points < 120 {
      var n := if points < 20 then 0 else points / 20;
      assert Above(points)(Badges[n]);
      forall j | 0 <= j < n ensures !Above(points)(Badges[j]) {
        assert Badges[j].requiredPoints == 20 * (j + 1);
      }
      FirstIndexIs(Badges, Above(points), n);
    } else {
      assert forall i :: 0 <= i < |Badges| ==> !Above(points)(Badges[i]);
    }
  }

  /** A JavaScript number as far as the progress computation can reach. */
  datatype JsNumber = Finite(value: int) | PositiveInfinity | NegativeInfinity | NotANumber

  /** `x / 0` in JavaScript, signed by `x`. */
  function DivideByZero(x: int): JsNumber
  {
    if x < 0 then NegativeInfinity else if x > 0 then PositiveInfinity else NotANumber
  }

  /** `getProgressToNextBadge` as written: below 20 points the current and
      the next badge are both Newbie, and the range it divides by is 0. */
  function ProgressToNextBadgeAsWritten(points: int): JsNumber
  {
    var current := CurrentBadge(points);
    match NextBadge(points)
    case None => Finite(100)
    case Some(next) =>
      var range := next.requiredPoints - current.requiredPoints;
      var progress := points - current.requiredPoints;
      if range == 0 then DivideByZero(progress)
      else Finite(Ratio(progress, range))
  }

  /** Below the first threshold the code computes `-Infinity`. */
  lemma ProgressAsWrittenBelowNewbie(points: int)
    requires points < 20
    ensures ProgressToNextBadgeAsWritten(points) == NegativeInfinity
  {
    CurrentBadgeIsHighestReached(points);
    NextBadgeIsLowestUnreached(points);
  }

  /** `getProgressToNextBadge` with the start of the ladder taken as 0 points
      below the first badge; elsewhere it is the code's value. */
  function ProgressToNextBadge(points: int): int
  {
    match NextBadge(points)
    case None => 100
    case Some(next) =>
      var base := if points < 20 then 0 else CurrentBadge(points).requiredPoints;
      Ratio(points - base, next.requiredPoints - base)
  }

  /** `Math.round((progress / range) * 100)`. */
  function Ratio(progress: int, range: int): int
    requires range != 0
  {
    RoundHalfUp(progress as real / range as real * 100.0)
  }

  lemma FivePerPoint(progress: int)
    ensures Ratio(progress, 20) == 5 * progress
  {
    assert progress as real / 20.0 * 100.0 == (5 * progress) as real;
    RoundHalfUpOfInt(5 * progress);
  }

  /** Below 20 points the corrected progress is five per point. */
  lemma ProgressBelowNewbie(points: int)
    requires points < 20
    ensures ProgressToNextBadge(points) == 5 * points
  {
    NextBadgeIsLowestUnreached(points);
    assert NextBadge(points).value.requiredPoints == 20;
    FivePerPoint(points);
  }

  /** On the ladder, the current and the next badge are the thresholds
      just below and just above `points`, 20 apart. */
  lemma LadderStep(points: int)
    requires 20 <= points < 120
    ensures CurrentBadge(points).requiredPoints == 20 * (points / 20)
    ensures NextBadge(points).Some?
    ensures NextBadge(points).value.requiredPoints == CurrentBadge(points).requiredPoints + 20
  {
    CurrentBadgeIsHighestReached(points);
    NextBadgeIsLowestUnreached(points);
    BadgeThresholds();
  }

  /** Between the first and the last threshold: five per point past the
      current threshold. */
  lemma ProgressOnLadder(points: int)
    requires 20 <= points < 120
    ensures ProgressToNextBadge(points) == 5 * (points - CurrentBadge(points).requiredPoints)
    ensures 0 <= ProgressToNextBadge(points) <= 95
  {
    LadderStep(points);
    var c := CurrentBadge(points).requiredPoints;
    assert 0 <= points - c < 20;
    assert ProgressToNextBadge(points) == Ratio(points - c, 20);
    FivePerPoint(points - c);
  }

  /** From the first threshold on, the code computes the same value. */
  lemma ProgressAsWrittenOnLadder(points: int)
    requires 20 <= points < 120
    ensures ProgressToNextBadgeAsWritten(points) == Finite(ProgressToNextBadge(points))
  {
    LadderStep(points);
    var c := CurrentBadge(points).requiredPoints;
    assert ProgressToNextBadge(points) == Ratio(points - c, 20);
    assert ProgressToNextBadgeAsWritten(points) == Finite(Ratio(points - c, 20));
  }

  /** The progress towards the next badge: 100 at the top of the ladder, five
      per point past the current threshold otherwise, so within [0, 100] for
      any non-negative points; from 20 points on it agrees with the code. */
  lemma ProgressToNextBadgeValue(points: int)
    ensures points >= 120 ==> ProgressToNextBadge(points) == 100
    ensures points >= 120 ==> ProgressToNextBadgeAsWritten(points) == Finite(100)
    ensures 0 <= points ==> 0 <= ProgressToNextBadge(points) <= 100
  {
    NextBadgeIsLowestUnreached(points);
    if points < 20 {
      ProgressBelowNewbie(points);
    } else if points < 120 {
      ProgressOnLadder(points);
    }
  }

  /** The mock login state of the provider. */
  class AuthState {
    var user: Option<UiUser>

    constructor ()
      ensures user == None
    {
      user := None;
    }

    /** `isAuthenticated`: `!!user`. */
    predicate IsAuthenticated()
      reads this
    {
      user.Some?
    }

    /** `login`: a mock user with the given email and role (learner when none
        is given), named by the text before the first `@`, with 45 points;
        the password is not looked at. */
    method Login(email: string, password: string, role: Option<Role>, now: string)
      modifies this
      ensures user == Some(UiUser("1", email, BeforeFirst(email, '@'), if role.Some? then role.value else Learner, 45, now))
      ensures IsAuthenticated()
    {
      var r := if role.Some? then role.value else Learner;
      user := Some(UiUser("1", email, BeforeFirst(email, '@'), r, 45, now));
    }

    /** `logout` clears the user. */
    method Logout()
      modifies this
      ensures user == None
      ensures !IsAuthenticated()
    {
      user := None;
    }

    /** `switchRole` replaces the role of a logged-in user and does nothing
        when nobody is logged in. */
    method SwitchRole(role: Role)
      modifies this
      ensures old(user).None? ==> user == None
      ensures old(user).Some? ==> user == Some(old(user).value.(role := role))
    {
      if user.Some? {
        user := Some(user.value.(role := role));
      }
    }

    /** `currentBadge`: null when logged out. */
    function CurrentBadgeShown(): (b: Option<Badge>)
      reads this
      ensures b.Some? <==> user.Some?
    {
      if user.Some? then Some(CurrentBadge(user.value.totalPoints)) else None
    }

    /** `progressToNextBadge`: 0 when logged out. The context computes it
        with the helper as written; this is the corrected helper, which
        agrees with it from 20 points on, and so on every user `Login`
        and `SwitchRole` produce (45 points). */
    function ProgressShown(): (p: int)
      reads this
      ensures user.None? ==> p == 0
      ensures user.Some? && user.value.totalPoints >= 0 ==> 0 <= p <= 100
      ensures user.Some? && user.value.totalPoints >= 20 ==>
        ProgressToNextBadgeAsWritten(user.value.totalPoints) == Finite(p)
    {
      if user.Some? then
        var points := user.value.totalPoints;
        ProgressToNextBadgeValue(points);
        if 20 <= points < 120 then
          ProgressAsWrittenOnLadder(points);
          ProgressToNextBadge(points)
        else ProgressToNextBadge(points)
      else 0
    }
  }
}
