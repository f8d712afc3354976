/** The blog's growth mechanics, kept in the browser's storage: referral
    rewards, the daily reading streak, the knowledge score and its levels,
    one-off achievements, share tracking and the mock leaderboard. Days are
    calendar-day numbers and clock readings are parameters. */
module ViralGrowth {
  import opened Wrappers
  import opened Collections
  import opened Text

  // ---------------------------------------------------------------- referrals

  datatype RewardType = PremiumAccess | ExclusiveContent | Badge | Points

  datatype Reward = Reward(kind: RewardType, value: int, description: string)

  const FirstFriend := Reward(Points, 100, "100 punktów za pierwszego znajomego")
  const Exclusive := Reward(ExclusiveContent, 1, "Dostęp do ekskluzywnych artykułów")
  const Premium := Reward(PremiumAccess, 30, "30 dni Premium za 5 znajomych")
  const Ambassador := Reward(Badge, 1, "Odznaka \"Ambasador Wiedzy\"")

  /** Every reward, in the order of the referral counts 1, 3, 5 and 10 that unlock them. */
  const AllRewards: seq<Reward> := [FirstFriend, Exclusive, Premium, Ambassador]

  /** `referralSystem.getRewards(referralCount)`: the rewards whose threshold
      the count reaches, which are always the first ones of the ladder. */
  function Rewards(referralCount: int): (r: seq<Reward>)
    ensures |r| == (if referralCount >= 1 then 1 else 0) + (if referralCount >= 3 then 1 else 0)
                   + (if referralCount >= 5 then 1 else 0) + (if referralCount >= 10 then 1 else 0)
    ensures r == AllRewards[..|r|]
  {
    var r := if referralCount >= 1 then [FirstFriend] else [];
    var r := if referralCount >= 3 then r + [Exclusive] else r;
    var r := if referralCount >= 5 then r + [Premium] else r;
    if referralCount >= 10 then r + [Ambassador] else r
  }

  /** Rewards are cumulative: a higher count keeps every earlier reward, in order. */
  lemma RewardsCumulative(m: int, n: int)
    requires m <= n
    ensures Rewards(m) == Rewards(n)[..|Rewards(m)|]
    ensures |Rewards(m)| <= |Rewards(n)|
  {
  }

  datatype Referral = Referral(code: string, newUserId: string, timestamp: string, rewardClaimed: bool)

  // ---------------------------------------------------------------- streaks

  datatype ReadingStreak = ReadingStreak(current: int, longest: int, lastReadDay: int, totalDaysRead: int)

  /** `getStreak()`: the stored record, or a zero streak last read today. */
  function LoadStreak(stored: Option<ReadingStreak>, today: int): (s: ReadingStreak)
    ensures stored.None? ==> s == ReadingStreak(0, 0, today, 0)
  {
    stored.GetOr(ReadingStreak(0, 0, today, 0))
  }

  /** The branches of `updateStreak` on a loaded record. */
  function NextStreak(s: ReadingStreak, today: int): (r: ReadingStreak)
    ensures s.lastReadDay == today ==> r == s
    ensures s.lastReadDay == today - 1 ==>
      r == ReadingStreak(s.current + 1, Max(s.longest, s.current + 1), today, s.totalDaysRead + 1)
    ensures s.lastReadDay != today && s.lastReadDay != today - 1 ==>
      r == ReadingStreak(1, s.longest, today, s.totalDaysRead + 1)
  {
    if s.lastReadDay == today then s
    else
      var current := if s.lastReadDay == today - 1 then s.current + 1 else 1;
      var longest := if s.lastReadDay == today - 1 then Max(s.longest, current) else s.longest;
      ReadingStreak(current, longest, today, s.totalDaysRead + 1)
  }

  /** `updateStreak()` as written: the new stored value and the returned record.
      A same-day call returns the loaded record without saving it. */
  function UpdateStreakAsWritten(stored: Option<ReadingStreak>, today: int): (r: (Option<ReadingStreak>, ReadingStreak))
    ensures var s := LoadStreak(stored, today);
      r == if s.lastReadDay == today then (stored, s) else (Some(NextStreak(s, today)), NextStreak(s, today))
  {
    var s := LoadStreak(stored, today);
    if s.lastReadDay == today then (stored, s) else (Some(NextStreak(s, today)), NextStreak(s, today))
  }

  /** The stored streak after calling the as-written update on each of `days`. */
  function StreakAfterDaysAsWritten(stored: Option<ReadingStreak>, days: seq<int>): Option<ReadingStreak>
    decreases |days|
  {
    if days == [] then stored
    else StreakAfterDaysAsWritten(UpdateStreakAsWritten(stored, days[0]).0, days[1..])
  }

  /** A reader without a stored streak never gets one: the default record says
      "last read today", so the update returns it unchanged and saves nothing,
      on every day. */
  lemma {:induction false} FreshStreakNeverStarts(days: seq<int>)
    ensures StreakAfterDaysAsWritten(None, days) == None
    ensures forall d :: UpdateStreakAsWritten(None, d).1.current == 0
    decreases |days|
  {
    if days != [] {
      assert UpdateStreakAsWritten(None, days[0]).0 == None;
      FreshStreakNeverStarts(days[1..]);
    }
  }

  /** The update with a missing record read as the first day of a streak. */
  function UpdateStreak(stored: Option<ReadingStreak>, today: int): (r: (Option<ReadingStreak>, ReadingStreak))
    ensures stored.None? ==> r == (Some(ReadingStreak(1, 1, today, 1)), ReadingStreak(1, 1, today, 1))
    ensures stored.Some? ==> r == UpdateStreakAsWritten(stored, today)
  {
    if stored.None? then
      (Some(ReadingStreak(1, 1, today, 1)), ReadingStreak(1, 1, today, 1))
    else UpdateStreakAsWritten(stored, today)
  }

  /** A consistent streak: at least one day, never longer than the longest,
      which never exceeds the days read. */
  predicate Consistent(s: ReadingStreak) {
    1 <= s.current <= s.longest <= s.totalDaysRead
  }

  /** The corrected update starts a streak on the first read and keeps every
      stored record consistent; the returned record is the stored one. */
  lemma UpdateStreakConsistent(stored: Option<ReadingStreak>, today: int)
    requires stored.Some? ==> Consistent(stored.value)
    ensures var (st, s) := UpdateStreak(stored, today);
      st == Some(s) && Consistent(s) && s.lastReadDay == today
  {
    if stored.Some? && stored.value.lastReadDay != today {
      assert UpdateStreak(stored, today).1 == NextStreak(stored.value, today);
    }
  }

  /** `getStreakMotivation(streak)`. */
  function StreakMotivation(streak: int): (m: string)
    ensures streak == 0 ==> m == "Zacznij swoją passę czytania!"
    ensures streak != 0 && streak < 3 ==> m == IntToString(streak) + " dni z rzędu! Kontynuuj!"
    ensures 3 <= streak < 7 ==> m == IntToString(streak) + " dni! Jesteś na dobrej drodze! 🔥"
    ensures 7 <= streak < 30 ==> m == IntToString(streak) + " dni! Niesamowite! 🚀"
    ensures 30 <= streak ==> m == IntToString(streak) + " dni! Jesteś legendą! 👑"
  {
    if streak == 0 then "Zacznij swoją passę czytania!"
    else if streak < 3 then IntToString(streak) + " dni z rzędu! Kontynuuj!"
    else if streak < 7 then IntToString(streak) + " dni! Jesteś na dobrej drodze! 🔥"
    else if streak < 30 then IntToString(streak) + " dni! Niesamowite! 🚀"
    else IntToString(streak) + " dni! Jesteś legendą! 👑"
  }

  // ---------------------------------------------------------------- knowledge score

  datatype Action = Read | Share | Highlight | Comment | ReferralAction

  datatype KnowledgeScore = KnowledgeScore(
    totalPoints: int, level: int, articlesRead: int, articlesShared: int,
    highlightsCreated: int, commentsPosted: int, referralsSuccessful: int)

  const InitialScore := KnowledgeScore(0, 1, 0, 0, 0, 0, 0)

  const PointsPerLevel := 500

  /** `pointsMap[action]`. */
  function PointsFor(a: Action): (p: int)
    ensures p > 0
  {
    match a
    case Read => 10
    case Share => 25
    case Highlight => 5
    case Comment => 15
    case ReferralAction => 100
  }

  /** The counter an action feeds. */
  function Counter(s: KnowledgeScore, a: Action): int {
    match a
    case Read => s.articlesRead
    case Share => s.articlesShared
    case Highlight => s.highlightsCreated
    case Comment => s.commentsPosted
    case ReferralAction => s.referralsSuccessful
  }

  /** `Math.floor(points / 500) + 1`. */
  function LevelOf(points: int): int {
    points / PointsPerLevel + 1
  }

  /** The score after `addPoints(action, amount)`. */
  function AddPoints(s: KnowledgeScore, a: Action, amount: int): (r: KnowledgeScore)
    ensures r.totalPoints == s.totalPoints + PointsFor(a) * amount
    ensures Counter(r, a) == Counter(s, a) + amount
    ensures forall b :: b != a ==> Counter(r, b) == Counter(s, b)
    ensures r.level == LevelOf(r.totalPoints)
  {
    var total := s.totalPoints + PointsFor(a) * amount;
    var s := s.(totalPoints := total);
    var s := match a
      case Read => s.(articlesRead := s.articlesRead + amount)
      case Share => s.(articlesShared := s.articlesShared + amount)
      case Highlight => s.(highlightsCreated := s.highlightsCreated + amount)
      case Comment => s.(commentsPosted := s.commentsPosted + amount)
      case ReferralAction => s.(referralsSuccessful := s.referralsSuccessful + amount);
    s.(level := LevelOf(total))
  }

  /** The level is the number of whole 500-point steps plus one: 1 below 500
      points, and one more for each further 500. */
  lemma LevelSteps(points: int)
    requires points >= 0
    ensures (LevelOf(points) - 1) * PointsPerLevel <= points < LevelOf(points) * PointsPerLevel
  {
  }

  /** `getLevelTitle(level)`. */
  function LevelTitle(level: int): (t: string)
    ensures level < 5 ==> t == "Początkujący"
    ensures 5 <= level < 10 ==> t == "Entuzjasta"
    ensures 10 <= level < 20 ==> t == "Ekspert"
    ensures 20 <= level < 50 ==> t == "Mistrz"
    ensures 50 <= level ==> t == "Legenda"
  {
    if level < 5 then "Początkujący"
    else if level < 10 then "Entuzjasta"
    else if level < 20 then "Ekspert"
    else if level < 50 then "Mistrz"
    else "Legenda"
  }

  /** `getNextLevelPoints(points)`: the smallest multiple of 500 above the points. */
  function NextLevelPoints(points: int): (r: int)
    ensures r % PointsPerLevel == 0 && points < r <= points + PointsPerLevel
  {
    LevelOf(points) * PointsPerLevel
  }

  /** No multiple of 500 lies strictly between the points and the next level. */
  lemma NextLevelPointsSmallest(points: int, m: int)
    requires m % PointsPerLevel == 0 && points < m
    ensures NextLevelPoints(points) <= m
  {
    var k := m / PointsPerLevel;
    assert m == k * PointsPerLevel;
  }

  // ---------------------------------------------------------------- achievements

  datatype Rarity = Common | Rare | Epic | Legendary

  datatype Achievement = Achievement(
    id: string, title: string, description: string, icon: string, unlockedAt: string, rarity: Rarity)

  /** A catalogue entry: the achievement, the least value that unlocks it, and
      the kind of action its value counts. */
  datatype Goal = Goal(achievement: Achievement, threshold: int, counts: string)

  const Goals: seq<Goal> := [
    Goal(Achievement("first_read", "Pierwszy Krok", "Przeczytaj pierwszy artykuł", "📖", "", Common), 1, "read"),
    Goal(Achievement("read_10", "Czytelnik", "Przeczytaj 10 artykułów", "📚", "", Common), 10, "read"),
    Goal(Achievement("read_50", "Bibliotekarz", "Przeczytaj 50 artykułów", "🏛️", "", Rare), 50, "read"),
    Goal(Achievement("streak_7", "Tydzień Mocy", "Czytaj 7 dni z rzędu", "🔥", "", Rare), 7, "streak"),
    Goal(Achievement("streak_30", "Miesiąc Wiedzy", "Czytaj 30 dni z rzędu", "💎", "", Epic), 30, "streak"),
    Goal(Achievement("share_10", "Ambasador", "Udostępnij 10 artykułów", "🌟", "", Rare), 10, "share"),
    Goal(Achievement("referral_5", "Influencer", "Zaproś 5 znajomych", "👥", "", Epic), 5, "referral"),
    Goal(Achievement("level_10", "Ekspert KSeF", "Osiągnij poziom 10", "🎓", "", Epic), 10, "level"),
    Goal(Achievement("complete_category", "Specjalista", "Przeczytaj wszystkie artykuły z kategorii", "🏆", "", Legendary), 1, "complete_category")]

  /** The ids of the unlocked achievements. */
  function Ids(unlocked: seq<Achievement>): (ids: seq<string>)
    ensures |ids| == |unlocked| && forall i :: 0 <= i < |unlocked| ==> ids[i] == unlocked[i].id
  {
    if unlocked == [] then [] else Ids(unlocked[..|unlocked| - 1]) + [unlocked[|unlocked| - 1].id]
  }

  /** `checkAndUnlock` as written: the condition looks only at the value, so
      `action` plays no part. */
  predicate QualifiesAsWritten(g: Goal, unlockedIds: seq<string>, action: string, value: int) {
    g.achievement.id !in unlockedIds && value >= g.threshold
  }

  /** The condition with the value read as a count of `action`. */
  predicate Qualifies(g: Goal, unlockedIds: seq<string>, action: string, value: int) {
    g.achievement.id !in unlockedIds && g.counts == action && value >= g.threshold
  }

  /** The first goal, in catalogue order, that the as-written condition accepts. */
  function FirstQualifyingAsWritten(goals: seq<Goal>, unlockedIds: seq<string>, action: string, value: int): (r: Option<nat>)
    ensures r.Some? ==> r.value < |goals| && QualifiesAsWritten(goals[r.value], unlockedIds, action, value)
    ensures r.Some? ==> forall i :: 0 <= i < r.value ==> !QualifiesAsWritten(goals[i], unlockedIds, action, value)
    ensures r.None? ==> forall i :: 0 <= i < |goals| ==> !QualifiesAsWritten(goals[i], unlockedIds, action, value)
  {
    if goals == [] then None
    else if QualifiesAsWritten(goals[0], unlockedIds, action, value) then Some(0)
    else
      var k := FirstQualifyingAsWritten(goals[1..], unlockedIds, action, value);
      if k.Some? then Some(k.value + 1) else None
  }

  /** As written, the second to fourth article read (`checkAndUnlock("read", n)`
      with n in 2..4, once "first_read" is unlocked) unlocks
      "complete_category", the award for reading every article of a category. */
  lemma SecondReadCompletesCategory(ids: seq<string>, value: int)
    requires ids == ["first_read"] && 2 <= value < 5
    ensures FirstQualifyingAsWritten(Goals, ids, "read", value) == Some(8)
    ensures Goals[8].achievement.id == "complete_category"
  {
    forall i | 0 <= i < 8 ensures !QualifiesAsWritten(Goals[i], ids, "read", value) {
      if i == 0 {
        assert Goals[0].achievement.id == ids[0];
      } else {
        assert Goals[i].threshold >= 5;
      }
    }
    assert QualifiesAsWritten(Goals[8], ids, "read", value);
    var r := FirstQualifyingAsWritten(Goals, ids, "read", value);
    assert r.Some? && r.value >= 8;
  }

  /** The first goal, in catalogue order, that the value of this action unlocks. */
  function FirstQualifying(goals: seq<Goal>, unlockedIds: seq<string>, action: string, value: int): (r: Option<nat>)
    ensures r.Some? ==> r.value < |goals| && Qualifies(goals[r.value], unlockedIds, action, value)
    ensures r.Some? ==> forall i :: 0 <= i < r.value ==> !Qualifies(goals[i], unlockedIds, action, value)
    ensures r.None? ==> forall i :: 0 <= i < |goals| ==> !Qualifies(goals[i], unlockedIds, action, value)
  {
    if goals == [] then None
    else if Qualifies(goals[0], unlockedIds, action, value) then Some(0)
    else
      var k := FirstQualifying(goals[1..], unlockedIds, action, value);
      if k.Some? then Some(k.value + 1) else None
  }

  /** Only goals counting the action can unlock: the reading count unlocks
      only reading goals, whatever its size. */
  lemma ReadsUnlockOnlyReadGoals(unlockedIds: seq<string>, value: int)
    ensures var r := FirstQualifying(Goals, unlockedIds, "read", value);
      r.Some? ==> r.value <= 2
  {
    var r := FirstQualifying(Goals, unlockedIds, "read", value);
    if r.Some? {
      assert Goals[r.value].counts == "read";
    }
  }

  /** The loop of `checkAndUnlock`: the index of the first goal the value
      unlocks, scanning the catalogue in order. */
  method FindGoal(goals: seq<Goal>, unlockedIds: seq<string>, action: string, value: int) returns (k: Option<nat>)
    ensures k == FirstQualifying(goals, unlockedIds, action, value)
  {
    var i := 0;
    while i < |goals|
      invariant 0 <= i <= |goals|
      invariant forall j :: 0 <= j < i ==> !Qualifies(goals[j], unlockedIds, action, value)
    {
      var g := goals[i];
      if g.achievement.id !in unlockedIds && g.counts == action && value >= g.threshold {
        return Some(i);
      }
      i := i + 1;
    }
    return None;
  }

  datatype Platform = Twitter | LinkedIn | Facebook | Email | Copy

  datatype ShareEvent = ShareEvent(articleSlug: string, platform: Platform, timestamp: string, referralCode: string)

  // ---------------------------------------------------------------- leaderboard

  /** The points of the mock leaderboard, best first. */
  const LeaderPoints: seq<int> := [5420, 4890, 4320, 3850, 3420]

  /** `getUserRank()`: one past the number of leaders the user does not beat,
      counted up to the first one with fewer points. */
  function UserRank(points: int, leaders: seq<int>): (rank: int)
    ensures 1 <= rank <= |leaders| + 1
    ensures forall i :: 0 <= i < rank - 1 ==> leaders[i] >= points
    ensures rank <= |leaders| ==> leaders[rank - 1] < points
  {
    var k := FindIndex(leaders, (p: int) => p < points);
    if k == -1 then |leaders| + 1 else k + 1
  }

  /** Against the mock board: more than 5420 points rank first, 3420 or fewer last. */
  lemma MockRanks(points: int)
    ensures points > 5420 ==> UserRank(points, LeaderPoints) == 1
    ensures points <= 3420 ==> UserRank(points, LeaderPoints) == 6
  {
  }

  /** The growth data in the browser's storage. */
  class GrowthStore {
    var referrals: seq<Referral>
    var streak: Option<ReadingStreak>
    var score: Option<KnowledgeScore>
    var achievements: seq<Achievement>
    var shares: seq<ShareEvent>

    constructor()
      ensures referrals == [] && streak.None? && score.None? && achievements == [] && shares == []
    {
      referrals, streak, score, achievements, shares := [], None, None, [], [];
    }

    /** `trackReferral(code, newUserId)` at the clock reading `now`. */
    method TrackReferral(code: string, newUserId: string, now: string)
      modifies this
      ensures referrals == old(referrals) + [Referral(code, newUserId, now, false)]
      ensures streak == old(streak) && score == old(score) && achievements == old(achievements) && shares == old(shares)
    {
      referrals := referrals + [Referral(code, newUserId, now, false)];
    }

    /** `updateStreak()` on calendar day `today`, with a missing record
        starting a streak. */
    method UpdateStreakOn(today: int) returns (s: ReadingStreak)
      modifies this
      ensures (streak, s) == UpdateStreak(old(streak), today)
      ensures referrals == old(referrals) && score == old(score) && achievements == old(achievements) && shares == old(shares)
    {
      if streak.None? {
        s := ReadingStreak(1, 1, today, 1);
        streak := Some(s);
        return;
      }
      s := streak.value;
      if s.lastReadDay == today {
        return;
      }
      if s.lastReadDay == today - 1 {
        s := s.(current := s.current + 1);
        s := s.(longest := Max(s.longest, s.current));
      } else {
        s := s.(current := 1);
      }
      s := s.(lastReadDay := today, totalDaysRead := s.totalDaysRead + 1);
      streak := Some(s);
    }

    /** `addPoints(action, amount)`. */
    method AddPointsFor(a: Action, amount: int) returns (s: KnowledgeScore)
      modifies this
      ensures s == AddPoints(old(score).GetOr(InitialScore), a, amount) && score == Some(s)
      ensures referrals == old(referrals) && streak == old(streak) && achievements == old(achievements) && shares == old(shares)
    {
      s := score.GetOr(InitialScore);
      s := AddPoints(s, a, amount);
      score := Some(s);
    }

    /** `checkAndUnlock(action, value)` at the clock reading `now`, with the
        value counted for `action`: at most one achievement is unlocked, the
        first in catalogue order, and never one already unlocked. */
    method CheckAndUnlock(action: string, value: int, now: string) returns (r: Option<Achievement>)
      modifies this
      ensures var k := FirstQualifying(Goals, Ids(old(achievements)), action, value);
        && (k.None? ==> r.None? && achievements == old(achievements))
        && (k.Some? ==> r == Some(Goals[k.value].achievement.(unlockedAt := now))
                        && achievements == old(achievements) + [r.value])
      ensures r.Some? ==> r.value.id !in Ids(old(achievements))
      ensures referrals == old(referrals) && streak == old(streak) && score == old(score) && shares == old(shares)
    {
      var k := FindGoal(Goals, Ids(achievements), action, value);
      if k.Some? {
        r := Some(Goals[k.value].achievement.(unlockedAt := now));
        achievements := achievements + [r.value];
      } else {
        r := None;
      }
    }

    /** `trackShare(articleSlug, platform)` with the code and clock reading given. */
    method TrackShare(articleSlug: string, platform: Platform, now: string, code: string)
      modifies this
      ensures shares == old(shares) + [ShareEvent(articleSlug, platform, now, code)]
      ensures referrals == old(referrals) && streak == old(streak) && score == old(score) && achievements == old(achievements)
    {
      shares := shares + [ShareEvent(articleSlug, platform, now, code)];
    }

    /** `getShareCount(articleSlug)`: the number of recorded shares of the article. */
    method ShareCount(articleSlug: string) returns (n: nat)
      ensures n == |Filter(shares, (e: ShareEvent) => e.articleSlug == articleSlug)|
    {
      n := |Filter(shares, (e: ShareEvent) => e.articleSlug == articleSlug)|;
    }
  }

  /** A share adds one to the article's count and leaves every other article's. */
  lemma ShareCounted(shares: seq<ShareEvent>, e: ShareEvent, slug: string)
    ensures |Filter(shares + [e], (x: ShareEvent) => x.articleSlug == slug)|
            == |Filter(shares, (x: ShareEvent) => x.articleSlug == slug)| + (if e.articleSlug == slug then 1 else 0)
  {
    FilterAppend(shares, [e], (x: ShareEvent) => x.articleSlug == slug);
  }
}
