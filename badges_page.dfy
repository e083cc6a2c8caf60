/** The achievements page: fifteen badges, each unlocked by a condition on
    the learner's activity figures, and the earned and to-unlock counters. */
module BadgesPage {
  import opened Seqs

  /** The activity figures the conditions read. */
  datatype UserStats = UserStats(loginCount: int, coursesStarted: int, coursesCompleted: int, streak: int, studiedAtNight: bool)

  /** The page's fixed figures. */
  const FixedStats := UserStats(3, 2, 1, 9, true)

  /** The shapes of the badge conditions. */
  datatype Condition =
    | LoginsAtLeast(n: int)
    | StartedAtLeast(n: int)
    | CompletedAtLeast(n: int)
    | StreakAtLeast(n: int)
    | StudiedAtNight
    | Always

  function Holds(c: Condition, st: UserStats): bool
  {
    match c
    case LoginsAtLeast(n) => st.loginCount >= n
    case StartedAtLeast(n) => st.coursesStarted >= n
    case CompletedAtLeast(n) => st.coursesCompleted >= n
    case StreakAtLeast(n) => st.streak >= n
    case StudiedAtNight => st.studiedAtNight
    case Always => true
  }

  datatype BadgeDef = BadgeDef(id: string, name: string, condition: Condition)

  const Badges: seq<BadgeDef> := [
    BadgeDef("first-login", "First Launch", LoginsAtLeast(1)),
    BadgeDef("course-starter", "Course Starter", StartedAtLeast(1)),
    BadgeDef("consistent-learner", "Consistency King", StreakAtLeast(7)),
    BadgeDef("night-owl", "Night Owl", StudiedAtNight),
    BadgeDef("course-finisher", "Finisher", CompletedAtLeast(1)),
    BadgeDef("five-courses", "Course Explorer", StartedAtLeast(5)),
    BadgeDef("daily-grinder", "Daily Grinder", StreakAtLeast(3)),
    BadgeDef("knowledge-seeker", "Knowledge Seeker", StartedAtLeast(3)),
    BadgeDef("halfway-hero", "Halfway Hero", CompletedAtLeast(1)),
    BadgeDef("streak-master", "Streak Master", StreakAtLeast(14)),
    BadgeDef("early-bird", "Early Bird", Always),
    BadgeDef("marathon-learner", "Marathon Learner", LoginsAtLeast(5)),
    BadgeDef("curious-mind", "Curious Mind", StartedAtLeast(2)),
    BadgeDef("focused-student", "Focused Student", CompletedAtLeast(1)),
    BadgeDef("legendary-learner", "Legendary Learner", StreakAtLeast(30))
  ]

  datatype BadgeStatus = BadgeStatus(badge: BadgeDef, unlocked: bool)

  /** `badgesWithStatus`: each badge with its condition applied to the figures. */
  function WithStatus(st: UserStats): (r: seq<BadgeStatus>)
    ensures |r| == |Badges|
    ensures forall i :: 0 <= i < |r| ==> r[i].badge == Badges[i] && (r[i].unlocked <==> Holds(Badges[i].condition, st))
  {
    seq(|Badges|, (i: int) requires 0 <= i < |Badges| => BadgeStatus(Badges[i], Holds(Badges[i].condition, st)))
  }

  predicate IsUnlocked(b: BadgeStatus)
  {
    b.unlocked
  }

  predicate IsLocked(b: BadgeStatus)
  {
    !b.unlocked
  }

  /** "Badges Earned". */
  function UnlockedCount(st: UserStats): nat
  {
    Count(WithStatus(st), IsUnlocked)
  }

  /** "To Unlock": `BADGES.length - unlockedCount`. */
  function ToUnlockCount(st: UserStats): int
  {
    |Badges| - UnlockedCount(st)
  }

  /** The two counters split the fifteen badges: "To Unlock" counts exactly
      the locked ones. */
  lemma CountersSplitBadges(st: UserStats)
    ensures UnlockedCount(st) + Count(WithStatus(st), IsLocked) == |Badges| == 15
    ensures ToUnlockCount(st) == Count(WithStatus(st), IsLocked) >= 0
  {
    CountComplement(WithStatus(st), IsUnlocked, IsLocked);
  }

  /** Early Bird is unlocked whatever the figures. */
  lemma EarlyBirdAlwaysUnlocked(st: UserStats)
    ensures Badges[10].id == "early-bird" && WithStatus(st)[10].unlocked
    ensures UnlockedCount(st) >= 1
  {
    var r := WithStatus(st);
    FilterMembers(r, IsUnlocked);
    assert r[10] in Filter(r, IsUnlocked);
  }

  /** The streak badges are nested: a 30-day streak unlocks all four. */
  lemma StreakBadgesNested(st: UserStats)
    ensures st.streak >= 30 ==> WithStatus(st)[14].unlocked
    ensures st.streak >= 14 ==> WithStatus(st)[9].unlocked
    ensures st.streak >= 7 ==> WithStatus(st)[2].unlocked
    ensures st.streak >= 3 ==> WithStatus(st)[6].unlocked
    ensures WithStatus(st)[14].unlocked ==> WithStatus(st)[9].unlocked
    ensures WithStatus(st)[9].unlocked ==> WithStatus(st)[2].unlocked && WithStatus(st)[6].unlocked
  {
  }

  /** Figures at least as high unlock every badge the lower ones do, so the
      earned count never falls as a learner progresses. */
  predicate AtMost(a: UserStats, b: UserStats)
  {
    a.loginCount <= b.loginCount && a.coursesStarted <= b.coursesStarted && a.coursesCompleted <= b.coursesCompleted
    && a.streak <= b.streak && (a.studiedAtNight ==> b.studiedAtNight)
  }

  lemma UnlockedCountMonotone(a: UserStats, b: UserStats)
    requires AtMost(a, b)
    ensures UnlockedCount(a) <= UnlockedCount(b)
  {
    var ra, rb := WithStatus(a), WithStatus(b);
    CountBySameBadges(ra, rb, 0);
  }

  /** Counting unlocked badges along two status lists of the same badges,
      from index `k`, where the second unlocks whatever the first does. */
  lemma {:induction false} CountBySameBadges(ra: seq<BadgeStatus>, rb: seq<BadgeStatus>, k: nat)
    requires |ra| == |rb| && k <= |ra|
    requires forall i :: 0 <= i < |ra| ==> (ra[i].unlocked ==> rb[i].unlocked)
    ensures Count(ra[k..], IsUnlocked) <= Count(rb[k..], IsUnlocked)
    decreases |ra| - k
  {
    if k < |ra| {
      CountBySameBadges(ra, rb, k + 1);
      assert ra[k..][1..] == ra[k + 1..];
      assert rb[k..][1..] == rb[k + 1..];
    }
  }

  /** With the page's fixed figures ten of the fifteen badges are earned. */
  lemma FixedStatsUnlockTen()
    ensures UnlockedCount(FixedStats) == 10 && ToUnlockCount(FixedStats) == 5
  {
    var r := WithStatus(FixedStats);
    var expected := [true, true, true, true, true, false, true, false, true, false, true, false, true, true, false];
    forall i | 0 <= i < 15 ensures r[i].unlocked == expected[i] {
      assert Holds(Badges[i].condition, FixedStats) == expected[i];
    }
    assert UnlockedIn(r, 1) == 1;
    assert UnlockedIn(r, 2) == 2;
    assert UnlockedIn(r, 3) == 3;
    assert UnlockedIn(r, 4) == 4;
    assert UnlockedIn(r, 5) == 5;
    assert UnlockedIn(r, 6) == 5;
    assert UnlockedIn(r, 7) == 6;
    assert UnlockedIn(r, 8) == 6;
    assert UnlockedIn(r, 9) == 7;
    assert UnlockedIn(r, 10) == 7;
    assert UnlockedIn(r, 11) == 8;
    assert UnlockedIn(r, 12) == 8;
    assert UnlockedIn(r, 13) == 9;
    assert UnlockedIn(r, 14) == 10;
    assert UnlockedIn(r, 15) == 10;
    CountPrefix(r, 15);
    assert r[..15] == r;
  }

  /** The unlocked count of a prefix, one badge at a time. */
  function UnlockedIn(r: seq<BadgeStatus>, n: nat): nat
    requires n <= |r|
  {
    if n == 0 then 0 else UnlockedIn(r, n - 1) + (if r[n - 1].unlocked then 1 else 0)
  }

  lemma {:induction false} CountPrefix(r: seq<BadgeStatus>, n: nat)
    requires n <= |r|
    ensures Count(r[..n], IsUnlocked) == UnlockedIn(r, n)
  {
    if n > 0 {
      CountPrefix(r, n - 1);
      FilterSnoc(r, n - 1, IsUnlocked);
    }
  }
}
