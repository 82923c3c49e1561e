/**
 * The User model's gamification ledger: StackPoints, the level derived from
 * them, the statistics counters and the achievements list.
 */
module UserModel {
  import opened Common

  /** The `level` enumeration, lowest first. */
  datatype Level = Beginner | Intermediate | Advanced | Expert | Master

  /** Position of a level in the order Beginner < ... < Master. */
  function Rank(l: Level): nat
  {
    match l
    case Beginner => 0
    case Intermediate => 1
    case Advanced => 2
    case Expert => 3
    case Master => 4
  }

  /** The stored spelling of a level. */
  function LevelName(l: Level): string
  {
    match l
    case Beginner => "Beginner"
    case Intermediate => "Intermediate"
    case Advanced => "Advanced"
    case Expert => "Expert"
    case Master => "Master"
  }

  /** The points needed to pass the k-th level boundary. */
  function Threshold(k: nat): int
    requires k < 4
  {
    [500, 2000, 5000, 10000][k]
  }

  /** `calculateLevel`: the highest level whose threshold the points reach.
      Equivalently, the rank of the level is the number of thresholds reached. */
  function CalculateLevel(points: int): (l: Level)
    ensures forall k :: 0 <= k < 4 ==> (Rank(l) > k <==> points >= Threshold(k))
  {
    if points >= 10000 then Master
    else if points >= 5000 then Expert
    else if points >= 2000 then Advanced
    else if points >= 500 then Intermediate
    else Beginner
  }

  /** More points never give a lower level. */
  lemma LevelMonotone(p: int, q: int)
    requires p <= q
    ensures Rank(CalculateLevel(p)) <= Rank(CalculateLevel(q))
  {
    var lp, lq := CalculateLevel(p), CalculateLevel(q);
    if Rank(lp) > 0 {
      assert p >= Threshold(Rank(lp) - 1);
      assert Rank(lq) > Rank(lp) - 1;
    }
  }

  /** The `stats` sub-document. */
  datatype Stats = Stats(
    questionsAsked: int,
    answersGiven: int,
    acceptedAnswers: int,
    totalUpvotes: int,
    totalDownvotes: int,
    answerStreak: int,
    lastAnswerDate: Option<Time>,
    totalViews: int)

  /** The schema defaults of a new account. */
  const InitialStats := Stats(0, 0, 0, 0, 0, 0, None, 0)

  /** One entry of the `achievements` array. */
  datatype Achievement = Achievement(name: string, description: string, icon: string, earnedAt: Time)

  /** The five achievements `checkAchievements` knows. */
  datatype Badge = AnswerStreak | ProblemSolver | FirstQuestion | Helper | ConfidenceBooster

  /** The order in which `checkAchievements` tests its rules. */
  const RuleOrder: seq<Badge> := [AnswerStreak, ProblemSolver, FirstQuestion, Helper, ConfidenceBooster]

  function BadgeName(b: Badge): string
  {
    match b
    case AnswerStreak => "Answer Streak \U{1F525}"
    case ProblemSolver => "Problem Solver \U{1F9E0}"
    case FirstQuestion => "First Question \U{1F4DD}"
    case Helper => "Helper \U{1F198}"
    case ConfidenceBooster => "Confidence Booster \U{1F31F}"
  }

  function BadgeDescription(b: Badge): string
  {
    match b
    case AnswerStreak => "Answered questions for 7 consecutive days"
    case ProblemSolver => "Had 10 answers accepted"
    case FirstQuestion => "Asked your first question"
    case Helper => "Helped 5 people with answers"
    case ConfidenceBooster => "Had an anonymous answer accepted"
  }

  function BadgeIcon(b: Badge): string
  {
    match b
    case AnswerStreak => "\U{1F525}"
    case ProblemSolver => "\U{1F9E0}"
    case FirstQuestion => "\U{1F4DD}"
    case Helper => "\U{1F198}"
    case ConfidenceBooster => "\U{1F31F}"
  }

  /** The threshold of each rule. */
  predicate Qualifies(b: Badge, s: Stats, boosters: int)
  {
    match b
    case AnswerStreak => s.answerStreak >= 7
    case ProblemSolver => s.acceptedAnswers >= 10
    case FirstQuestion => s.questionsAsked >= 1
    case Helper => s.answersGiven >= 5
    case ConfidenceBooster => boosters >= 1
  }

  /** `achievements.find(a => a.name === name)` finds an entry. */
  predicate HasAchievement(held: seq<Achievement>, name: string)
  {
    exists a | a in held :: a.name == name
  }

  /** The entry pushed for a badge. */
  function Award(b: Badge, now: Time): Achievement
  {
    Achievement(BadgeName(b), BadgeDescription(b), BadgeIcon(b), now)
  }

  /** The entry one rule contributes: its award when its threshold holds and
      its name is not yet held, nothing otherwise. */
  function RuleAward(b: Badge, s: Stats, boosters: int, held: seq<Achievement>, now: Time): seq<Achievement>
  {
    if Qualifies(b, s, boosters) && !HasAchievement(held, BadgeName(b)) then [Award(b, now)] else []
  }

  /** The awards of the rules in `rules`, in that order, whose threshold holds
      and whose name is not yet held. */
  function Qualifying(rules: seq<Badge>, s: Stats, boosters: int, held: seq<Achievement>, now: Time): seq<Achievement>
  {
    if rules == [] then []
    else RuleAward(rules[0], s, boosters, held, now) + Qualifying(rules[1..], s, boosters, held, now)
  }

  /** What one `checkAchievements` call pushes: the qualifying rules, tested in
      the fixed rule order. */
  function NewAchievements(s: Stats, boosters: int, held: seq<Achievement>, now: Time): seq<Achievement>
  {
    Qualifying(RuleOrder, s, boosters, held, now)
  }

  /** Different badges have different names. */
  lemma BadgeNameInjective(b: Badge, c: Badge)
    requires b != c
    ensures BadgeName(b) != BadgeName(c)
  {
    var nb, nc := BadgeName(b), BadgeName(c);
    assert nb[0] != nc[0];
  }

  /** The awards of a rule list are awards of its rules that qualify and are not held. */
  lemma {:induction false} QualifyingMembers(rules: seq<Badge>, s: Stats, boosters: int, held: seq<Achievement>, now: Time, b: Badge)
    ensures Award(b, now) in Qualifying(rules, s, boosters, held, now)
      <==> b in rules && Qualifies(b, s, boosters) && !HasAchievement(held, BadgeName(b))
  {
    if rules != [] {
      QualifyingMembers(rules[1..], s, boosters, held, now, b);
      if rules[0] != b {
        BadgeNameInjective(rules[0], b);
        assert Award(rules[0], now) != Award(b, now);
      }
    }
  }

  /** An achievement is earned by a `checkAchievements` call exactly when its
      threshold holds and no entry of that name exists yet. */
  lemma EarnedIff(b: Badge, s: Stats, boosters: int, held: seq<Achievement>, now: Time)
    ensures Award(b, now) in NewAchievements(s, boosters, held, now)
      <==> Qualifies(b, s, boosters) && !HasAchievement(held, BadgeName(b))
  {
    QualifyingMembers(RuleOrder, s, boosters, held, now, b);
  }

  /** Rules whose achievements are all held already award nothing. */
  lemma {:induction false} QualifyingNothingNew(rules: seq<Badge>, s: Stats, boosters: int, held: seq<Achievement>, now: Time)
    requires forall b :: b in rules && Qualifies(b, s, boosters) ==> HasAchievement(held, BadgeName(b))
    ensures Qualifying(rules, s, boosters, held, now) == []
  {
    if rules != [] {
      QualifyingNothingNew(rules[1..], s, boosters, held, now);
    }
  }

  /** No two entries share a name. */
  predicate DistinctNames(held: seq<Achievement>)
  {
    forall i, j :: 0 <= i < j < |held| ==> held[i].name != held[j].name
  }

  /** Each award of a rule list comes from one of its rules, qualifies and is not held. */
  lemma {:induction false} QualifyingFrom(rules: seq<Badge>, s: Stats, boosters: int, held: seq<Achievement>, now: Time, a: Achievement)
    requires a in Qualifying(rules, s, boosters, held, now)
    ensures exists b :: b in rules && a == Award(b, now) && !HasAchievement(held, BadgeName(b))
  {
    if a !in Qualifying(rules[1..], s, boosters, held, now) {
      assert a == Award(rules[0], now);
    } else {
      QualifyingFrom(rules[1..], s, boosters, held, now, a);
    }
  }

  /** No award of a rule list is already held. */
  lemma QualifyingNotHeld(rules: seq<Badge>, s: Stats, boosters: int, held: seq<Achievement>, now: Time)
    ensures forall a :: a in Qualifying(rules, s, boosters, held, now) ==> !HasAchievement(held, a.name)
  {
    forall a | a in Qualifying(rules, s, boosters, held, now) ensures !HasAchievement(held, a.name) {
      QualifyingFrom(rules, s, boosters, held, now, a);
    }
  }

  /** The awards of a rule list without repeated rules have distinct names. */
  lemma {:induction false} QualifyingDistinct(rules: seq<Badge>, s: Stats, boosters: int, held: seq<Achievement>, now: Time)
    requires NoDuplicates(rules)
    ensures DistinctNames(Qualifying(rules, s, boosters, held, now))
  {
    if rules != [] {
      var awarded := Qualifying(rules, s, boosters, held, now);
      var rest := Qualifying(rules[1..], s, boosters, held, now);
      QualifyingDistinct(rules[1..], s, boosters, held, now);
      if awarded != rest {
        var head := Award(rules[0], now);
        assert awarded == [head] + rest;
        forall a | a in rest ensures a.name != head.name {
          QualifyingFrom(rules[1..], s, boosters, held, now, a);
          var b :| b in rules[1..] && a == Award(b, now);
          BadgeNameInjective(rules[0], b);
        }
        forall i, j | 0 <= i < j < |awarded| ensures awarded[i].name != awarded[j].name {
          assert awarded[j] == rest[j - 1];
          if i == 0 { assert awarded[i] == head; }
          else { assert awarded[i] == rest[i - 1]; }
        }
      }
    }
  }

  /** The names pushed by one check are pairwise distinct and none is already held. */
  lemma NewAchievementsFresh(s: Stats, boosters: int, held: seq<Achievement>, now: Time)
    ensures var awarded := NewAchievements(s, boosters, held, now);
      && DistinctNames(awarded)
      && forall a :: a in awarded ==> !HasAchievement(held, a.name)
  {
    QualifyingNotHeld(RuleOrder, s, boosters, held, now);
    QualifyingDistinct(RuleOrder, s, boosters, held, now);
  }

  /** `checkAchievements` keeps the names distinct. */
  lemma {:induction false} CheckKeepsNamesDistinct(s: Stats, boosters: int, held: seq<Achievement>, now: Time)
    requires DistinctNames(held)
    ensures DistinctNames(held + NewAchievements(s, boosters, held, now))
  {
    var awarded := NewAchievements(s, boosters, held, now);
    NewAchievementsFresh(s, boosters, held, now);
    var all := held + awarded;
    forall i, j | 0 <= i < j < |all| ensures all[i].name != all[j].name {
      if j >= |held| && i < |held| {
        assert all[j] in awarded;
        assert all[i] in held;
      }
    }
  }

  /** A second check with unchanged statistics awards nothing. */
  lemma {:induction false} CheckTwiceAwardsNothing(s: Stats, boosters: int, held: seq<Achievement>, now: Time, later: Time)
    ensures var once := held + NewAchievements(s, boosters, held, now);
      NewAchievements(s, boosters, once, later) == []
  {
    var once := held + NewAchievements(s, boosters, held, now);
    forall b: Badge | Qualifies(b, s, boosters) ensures HasAchievement(once, BadgeName(b)) {
      if !HasAchievement(held, BadgeName(b)) {
        EarnedIff(b, s, boosters, held, now);
        assert Award(b, now) in once;
      } else {
        var a :| a in held && a.name == BadgeName(b);
        assert a in once;
      }
    }
    QualifyingNothingNew(RuleOrder, s, boosters, once, later);
  }

  /** One entry of `anonymousPosts`: exactly one of the two ids is set. */
  datatype AnonymousPost = AnonymousPost(questionId: Option<QuestionId>, answerId: Option<AnswerId>, postedAt: Time)

  /** A user document, with the fields the core reads or updates. */
  class User {
    const id: UserId
    var role: Role
    var isBanned: bool
    var banReason: Option<string>
    var allowAnonymous: bool
    var stackPoints: int
    var level: Level
    var achievements: seq<Achievement>
    var stats: Stats
    var confidenceBoosterBadges: int
    var anonymousPosts: seq<AnonymousPost>

    /** The ledger invariant: the level matches the points and no achievement
        is held twice. */
    ghost predicate Valid()
      reads this
    {
      level == CalculateLevel(stackPoints) && DistinctNames(achievements)
    }

    /** A freshly registered account, with the schema defaults. */
    constructor (id: UserId, role: Role)
      ensures Valid()
      ensures this.id == id && this.role == role && !isBanned && banReason == None
      ensures allowAnonymous && stackPoints == 0 && level == Beginner
      ensures achievements == [] && stats == InitialStats
      ensures confidenceBoosterBadges == 0 && anonymousPosts == []
    {
      this.id := id;
      this.role := role;
      isBanned := false;
      banReason := None;
      allowAnonymous := true;
      stackPoints := 0;
      level := Beginner;
      achievements := [];
      stats := InitialStats;
      confidenceBoosterBadges := 0;
      anonymousPosts := [];
    }

    /** `checkAchievements`: collect the entries of every rule whose threshold
        holds and whose name is not yet held, in rule order, then push them all. */
    method CheckAchievements(now: Time)
      modifies this`achievements
      ensures achievements == old(achievements) + NewAchievements(stats, confidenceBoosterBadges, old(achievements), now)
      ensures old(DistinctNames(achievements)) ==> DistinctNames(achievements)
    {
      var earned := NewAchievements(stats, confidenceBoosterBadges, achievements, now);
      if DistinctNames(achievements) {
        CheckKeepsNamesDistinct(stats, confidenceBoosterBadges, achievements, now);
      }
      achievements := achievements + earned;
    }

    /** `addStackPoints`: add the points (no floor, no cap), recompute the level,
        then check achievements against the statistics as they stand. */
    method AddStackPoints(points: int, reason: string, now: Time)
      modifies this`stackPoints, this`level, this`achievements
      ensures stackPoints == old(stackPoints) + points
      ensures level == CalculateLevel(stackPoints)
      ensures achievements == old(achievements) + NewAchievements(stats, confidenceBoosterBadges, old(achievements), now)
      ensures stats == old(stats) && confidenceBoosterBadges == old(confidenceBoosterBadges)
      ensures old(DistinctNames(achievements)) ==> Valid()
    {
      stackPoints := stackPoints + points;
      level := CalculateLevel(stackPoints);
      CheckAchievements(now);
    }
  }
}
