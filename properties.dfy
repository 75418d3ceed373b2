/** What the classification chain guarantees: it is the first-match reading
    of its ordered rule table, each outcome holds on an exactly described
    region of the inputs, the major award overrides everything, adding an
    EB-1A criterion never weakens the EB-1A band, and the merge makes the
    two channels of a shared fact interchangeable. */
module EngineProperties {
  import opened Criteria
  import opened Decimal
  import opened Engine

  // ---------------------------------------------------------------------
  // Priority: the chain is the first-match reading of RULE_ORDER
  // ---------------------------------------------------------------------

  lemma PriorityOfRuleOrder(j: nat)
    requires j < |RULE_ORDER|
    ensures Priority(RULE_ORDER[j]) == j
  {
  }

  /** No rule that fires comes before the branch the chain takes. */
  lemma NoFiringRuleBefore(p: Profile, r: Rule)
    ensures Guard(r, p) ==> Priority(Decide(p).rule) <= Priority(r)
  {
  }

  /** The branch taken fires, and every branch listed before it does not. */
  lemma DecideFollowsRuleOrder(p: Profile)
    ensures Guard(Decide(p).rule, p)
    ensures forall j :: 0 <= j < Priority(Decide(p).rule) ==> !Guard(RULE_ORDER[j], p)
  {
    forall j | 0 <= j < Priority(Decide(p).rule)
      ensures !Guard(RULE_ORDER[j], p)
    {
      PriorityOfRuleOrder(j);
      NoFiringRuleBefore(p, RULE_ORDER[j]);
    }
  }

  /** Exactly one outcome is produced for every input, and it is the one of
      the first rule in RULE_ORDER whose guard holds. */
  lemma ClassifyIsFirstMatch(x: Answers)
    ensures FirstMatch(RULE_ORDER, ProfileOf(x)) < |RULE_ORDER|
    ensures Classify(x).rule == RULE_ORDER[FirstMatch(RULE_ORDER, ProfileOf(x))]
  {
    var p := ProfileOf(x);
    DecideFollowsRuleOrder(p);
    var m := FirstMatch(RULE_ORDER, p);
    assert m <= Priority(Decide(p).rule);
    PriorityOfRuleOrder(m);
    NoFiringRuleBefore(p, RULE_ORDER[m]);
  }

  /** When two rules both fire, the later one is never the outcome. */
  lemma EarlierRuleShadowsLater(x: Answers, i: nat, j: nat)
    requires i < j < |RULE_ORDER|
    requires Guard(RULE_ORDER[i], ProfileOf(x))
    ensures Classify(x).rule != RULE_ORDER[j]
  {
    PriorityOfRuleOrder(i);
    PriorityOfRuleOrder(j);
    NoFiringRuleBefore(ProfileOf(x), RULE_ORDER[i]);
  }

  // ---------------------------------------------------------------------
  // Major award and the EB-1A bands
  // ---------------------------------------------------------------------

  lemma MajorAwardOverride(p: Profile)
    requires p.majorAward
    ensures Decide(p).category == EB1A
    ensures Decide(p).score == OutOf(10, 10)
    ensures Decide(p).strength == Strength.Exceptional
    ensures Decide(p).status == Status.HighlyLikely
  {
  }

  /** The EB-1A band a count of at least 3 falls into. */
  function ABandStrength(n: nat): Strength {
    if n >= 7 then Strength.Exceptional
    else if n >= 5 then Strength.VeryStrong
    else Strength.Qualified
  }

  /** Without a major award, three or more EB-1A criteria decide the outcome
      whatever else holds (EB-1B or EB-1C eligibility included), with the
      score "{count}/10"; an EB-1A outcome with fewer than three is the
      one-criterion-short case with exactly two. */
  lemma EB1ABands(p: Profile)
    requires !p.majorAward
    ensures p.countA >= 3 <==> Decide(p).category == EB1A && Decide(p).strength != Strength.Borderline
    ensures p.countA >= 3 ==> Decide(p).score == OutOf(p.countA, 10)
    ensures p.countA >= 3 ==> Decide(p).strength == ABandStrength(p.countA)
    ensures p.countA >= 3 ==>
              Decide(p).status ==
                (if p.countA >= 7 then Status.Exceptional
                 else if p.countA >= 5 then Status.VeryStrong else Status.Qualified)
    ensures Decide(p).category == EB1A ==> p.countA >= 2
  {
  }

  /** `y` ticks every EB-1A criterion that `x` ticks and agrees with `x` on
      every key outside the nine EB-1A criteria. */
  predicate MoreACriteria(x: Answers, y: Answers) {
    (forall i :: 0 <= i < 9 ==> AFlags(x)[i] ==> AFlags(y)[i])
    && x.majorAward == y.majorAward
    && x.experience == y.experience && x.offer == y.offer && x.tenure == y.tenure
    && x.publishedArticles == y.publishedArticles && x.judgingResearch == y.judgingResearch
    && x.originalContributionsResearch == y.originalContributionsResearch
    && x.lesserAwardsB == y.lesserAwardsB && x.membershipB == y.membershipB
    && x.oneYearExp == y.oneYearExp && x.transfer == y.transfer
    && x.managerialRole == y.managerialRole
  }

  /** Ticking more entries never lowers the count, and keeps it only when
      nothing new was ticked. */
  lemma {:induction false} CountTrueMonotone(s: seq<bool>, t: seq<bool>)
    requires |s| == |t|
    requires forall i :: 0 <= i < |s| ==> s[i] ==> t[i]
    ensures CountTrue(s) <= CountTrue(t)
    ensures CountTrue(s) == CountTrue(t) ==> s == t
  {
    if s != [] {
      CountTrueMonotone(s[1..], t[1..]);
      if CountTrue(s) == CountTrue(t) {
        assert s == [s[0]] + s[1..];
        assert t == [t[0]] + t[1..];
      }
    }
  }

  /** The rank of an outcome on the EB-1A ladder: 0 when it is not an EB-1A
      outcome, then one-criterion-short, qualified, very strong, exceptional. */
  function ABand(o: Outcome): nat {
    if o.category != EB1A then 0
    else match o.strength
      case Exceptional => 4
      case VeryStrong => 3
      case Qualified => 2
      case Borderline => 1
      case _ => 0
  }

  lemma ABandOfCount(p: Profile)
    requires !p.majorAward
    ensures p.countA >= 7 ==> ABand(Decide(p)) == 4
    ensures 5 <= p.countA < 7 ==> ABand(Decide(p)) == 3
    ensures 3 <= p.countA < 5 ==> ABand(Decide(p)) == 2
    ensures p.countA == 2 ==> ABand(Decide(p)) <= 1
    ensures p.countA <= 1 ==> ABand(Decide(p)) == 0
  {
  }

  /** With the same EB-1A count, ticking "more" criteria ticked nothing new,
      so the engine sees the same profile. */
  lemma SameACountSameProfile(x: Answers, y: Answers)
    requires MoreACriteria(x, y)
    requires CountA(x) == CountA(y)
    ensures ProfileOf(x) == ProfileOf(y)
  {
    CountTrueMonotone(AFlags(x), AFlags(y));
    assert AFlags(x)[0] == AFlags(y)[0] && AFlags(x)[1] == AFlags(y)[1];
    assert BFlags(x) == BFlags(y);
  }

  /** Ticking more EB-1A criteria never moves the outcome down the EB-1A
      ladder. */
  lemma MoreACriteriaNeverLowerBand(x: Answers, y: Answers)
    requires MoreACriteria(x, y)
    ensures ABand(Classify(y)) >= ABand(Classify(x))
  {
    if x.majorAward {
      MajorAwardOverride(ProfileOf(x));
      MajorAwardOverride(ProfileOf(y));
    } else {
      CountTrueMonotone(AFlags(x), AFlags(y));
      if CountA(x) == CountA(y) {
        SameACountSameProfile(x, y);
      } else {
        ABandOfCount(ProfileOf(x));
        ABandOfCount(ProfileOf(y));
      }
    }
  }

  // ---------------------------------------------------------------------
  // EB-1B and EB-1C
  // ---------------------------------------------------------------------

  /** The EB-1B band a count of at least 2 falls into. */
  function BBandStrength(n: nat): Strength {
    if n >= 5 then Strength.Exceptional
    else if n >= 3 then Strength.VeryStrong
    else Strength.Qualified
  }

  predicate QualifiedForEB1B(o: Outcome) {
    o.category == EB1B
    && (o.strength == Strength.Exceptional || o.strength == Strength.VeryStrong || o.strength == Strength.Qualified)
  }

  /** A qualified EB-1B outcome needs three years, an offer, two EB-1B
      criteria and at most two EB-1A criteria; its band follows the EB-1B
      count and its score is "{count}/6". */
  lemma EB1BGate(p: Profile)
    ensures QualifiedForEB1B(Decide(p)) <==>
              !p.majorAward && p.countA <= 2 && p.experience == ThreeYears && p.offer == Yes && p.countB >= 2
    ensures QualifiedForEB1B(Decide(p)) ==>
              Decide(p).score == OutOf(p.countB, 6) && Decide(p).strength == BBandStrength(p.countB)
    ensures QualifiedForEB1B(Decide(p)) ==>
              Decide(p).status ==
                (if p.countB >= 5 then Status.Exceptional
                 else if p.countB >= 3 then Status.VeryStrong else Status.Qualified)
  {
  }

  /** Full EB-1C eligibility wins over every near miss, but not over an
      EB-1A or qualified EB-1B outcome. */
  lemma EB1CQualified(p: Profile)
    ensures Decide(p).category == EB1C && Decide(p).score == Met <==>
              !p.majorAward && p.countA <= 2 && !EligibleB(p) && p.eb1cEligible
    ensures Decide(p).category == EB1C && Decide(p).score == Met ==>
              Decide(p).status == Status.Qualified && Decide(p).strength == Strength.Qualified
  {
  }

  /** The near misses for EB-1B: they are tried after full EB-1C eligibility
      and before either one-criterion-short outcome, so an EB-1A count of 2
      does not hide them. */
  lemma EB1BNearMisses(p: Profile)
    ensures Decide(p).strength == Strength.NeedsExperience <==>
              !p.majorAward && p.countA <= 2 && !p.eb1cEligible
              && p.countB >= 2 && p.offer == Yes && p.experience != ThreeYears
    ensures Decide(p).strength == Strength.NeedsJobOffer <==>
              !p.majorAward && p.countA <= 2 && !p.eb1cEligible
              && p.countB >= 2 && p.experience == ThreeYears && p.offer != Yes
    ensures Decide(p).category == EB1B && Decide(p).strength == Strength.Borderline <==>
              !p.majorAward && p.countA <= 2 && !p.eb1cEligible && Basics(p) && p.countB == 1
    ensures Decide(p).category == EB1B ==> Decide(p).score == OutOf(p.countB, 6)
    ensures Decide(p).strength == Strength.NeedsExperience ==>
              Decide(p).category == EB1B && Decide(p).status == Status.NeedsExperience
              && Decide(p).score == OutOf(p.countB, 6)
    ensures Decide(p).strength == Strength.NeedsJobOffer ==>
              Decide(p).category == EB1B && Decide(p).status == Status.NeedsJobOffer
              && Decide(p).score == OutOf(p.countB, 6)
    ensures Decide(p).category == EB1B && Decide(p).strength == Strength.Borderline ==>
              Decide(p).status == Status.OneCriterionShort
  {
  }

  // ---------------------------------------------------------------------
  // The weak end of the chain
  // ---------------------------------------------------------------------

  /** None of the EB-1B outcomes (qualified or near miss) fires. */
  predicate NoEB1BOutcome(p: Profile) {
    (p.countB >= 2 ==> p.offer != Yes && p.experience != ThreeYears)
    && (p.countB == 1 ==> !Basics(p))
  }

  lemma EB1AOneShort(p: Profile)
    ensures Decide(p).category == EB1A && Decide(p).strength == Strength.Borderline <==>
              !p.majorAward && p.countA == 2 && !p.eb1cEligible && NoEB1BOutcome(p)
    ensures Decide(p).category == EB1A && Decide(p).strength == Strength.Borderline ==>
              Decide(p).score == OutOf(2, 10) && Decide(p).status == Status.OneCriterionShort
  {
  }

  /** The dual-potential outcome: exactly one EB-1A criterion and at least one
      EB-1B criterion with nothing stronger firing; it reports the larger
      count and lists both pathways. */
  lemma DualPotentialOutcome(p: Profile)
    ensures Decide(p).category == EB1AOrEB1B <==>
              !p.majorAward && p.countA == 1 && p.countB >= 1 && !p.eb1cEligible && NoEB1BOutcome(p)
    ensures Decide(p).category == EB1AOrEB1B ==>
              Decide(p).score == CriteriaCount(p.countB)
              && Decide(p).status == Status.Potential && Decide(p).strength == Strength.Developing
              && ScoreText(Decide(p).score) == DecimalString(p.countB) + " criteria"
              && Decide(p).paths == ["EB-1A (1/10)", "EB-1B (" + DecimalString(p.countB) + "/6)"]
  {
    assert DecimalString(1) == "1";
    assert "EB-1A (" + "1" + "/10)" == "EB-1A (1/10)";
  }

  /** On real answers the dual outcome never sees all six EB-1B criteria:
      one EB-1A criterion leaves room for at most one shared fact. */
  lemma DualPotentialBCountRange(x: Answers)
    ensures Classify(x).category == EB1AOrEB1B ==> 1 <= CountB(x) <= 5
  {
    SharedFactsCountInBoth(x);
    CountTruePair(x.lesserAwards, x.membership);
    DualPotentialOutcome(ProfileOf(x));
  }

  /** The weak outcome is reached only when one counter is 1 and the other 0. */
  lemma WeakProfileOutcome(p: Profile)
    ensures Decide(p).strength == Strength.Weak <==>
              !p.majorAward && !p.eb1cEligible && NoEB1BOutcome(p)
              && ((p.countA == 1 && p.countB == 0) || (p.countA == 0 && p.countB == 1))
    ensures Decide(p).strength == Strength.Weak ==>
              Decide(p).category == EB1 && Decide(p).status == Status.WeakProfile
              && Decide(p).score == OneCriterionMet
  {
  }

  /** Partial EB-1C: no criterion at all, some but not all EB-1C answers yes. */
  lemma PartialEB1COutcome(p: Profile)
    ensures Decide(p).rule == PartialC <==>
              !p.majorAward && p.countA == 0 && p.countB == 0 && p.eb1cPartial && !p.eb1cEligible
    ensures Decide(p).rule == PartialC ==>
              Decide(p).category == EB1C && Decide(p).score == Score.Incomplete
              && Decide(p).status == Status.PartialEB1C && Decide(p).strength == Strength.Incomplete
  {
  }

  /** The default outcome: no EB-1A criterion, no EB-1C eligibility and no
      other rule firing. This includes two or more EB-1B criteria with
      neither the offer nor three years, still labelled "0 criteria". */
  lemma NotEligibleOutcome(p: Profile)
    ensures Decide(p).rule == Fallback <==>
              !p.majorAward && p.countA == 0 && !p.eb1cEligible && NoEB1BOutcome(p)
              && p.countB != 1 && (p.countB == 0 ==> !p.eb1cPartial)
    ensures Decide(p).rule == Fallback ==>
              Decide(p).category == EB1 && Decide(p).status == Status.NotEligible
              && Decide(p).strength == Strength.NotEligible && Decide(p).score == CriteriaCount(0)
              && ScoreText(Decide(p).score) == "0 criteria"
  {
    assert DecimalString(0) == "0";
  }

  lemma DefaultIsNotEligible()
    ensures Classify(Default()).rule == Fallback
    ensures Classify(Default()).category == EB1
    ensures Classify(Default()).status == Status.NotEligible
  {
    var d := Default();
    SharedFactsCountInBoth(d);
    CountTrueNone(SharedFlags(d));
    CountTrueNone(AOnlyFlags(d));
    CountTrueNone(BOnlyFlags(d));
    assert ProfileOf(d).countA == 0 && ProfileOf(d).countB == 0;
  }

  /** Two EB-1B criteria without the offer and without three years of
      experience fall through to the default outcome, whose label still
      reads "0 criteria". */
  lemma NotEligibleWithTwoEB1BCriteria()
    ensures var x := Answers(false, false, false, false, false, false, false, false, false, false,
                             LessThanThreeYears, No, No, true, true, false, false, false,
                             No, No, No);
            CountB(x) == 2 && Classify(x).rule == Fallback && Classify(x).score == CriteriaCount(0)
  {
    var x := Answers(false, false, false, false, false, false, false, false, false, false,
                     LessThanThreeYears, No, No, true, true, false, false, false,
                     No, No, No);
    SharedFactsCountInBoth(x);
    CountTrueNone(SharedFlags(x));
    CountTrueNone(AOnlyFlags(x));
    assert BOnlyFlags(x) == [true, true] + [false, false];
    CountTrueAppend([true, true], [false, false]);
    CountTruePair(true, true);
    CountTruePair(false, false);
    assert ProfileOf(x).countA == 0 && ProfileOf(x).countB == 2;
  }

  // ---------------------------------------------------------------------
  // The score label
  // ---------------------------------------------------------------------

  /** Distinct scores render to distinct labels, so the label carries the
      whole score. */
  lemma ScoreTextInjective(s: Score, t: Score)
    ensures ScoreText(s) == ScoreText(t) ==> s == t
  {
    if ScoreText(s) == ScoreText(t) {
      ScoreTextShape(s);
      ScoreTextShape(t);
      match s {
        case OutOf(m, n) =>
          match t {
            case OutOf(m', n') =>
              DigitRunSplit(DecimalString(m), "/" + DecimalString(n), DecimalString(m'), "/" + DecimalString(n'));
              assert DecimalString(n) == ("/" + DecimalString(n))[1..];
              assert DecimalString(n') == ("/" + DecimalString(n'))[1..];
              DecimalStringInjective(m, m');
              DecimalStringInjective(n, n');
            case CriteriaCount(k) =>
              DigitRunSplit(DecimalString(m), "/" + DecimalString(n), DecimalString(k), " criteria");
            case OneCriterionMet =>
              DigitRunSplit(DecimalString(m), "/" + DecimalString(n), "1", " criterion met");
            case _ =>
          }
        case CriteriaCount(k) =>
          match t {
            case OutOf(m', n') =>
              DigitRunSplit(DecimalString(k), " criteria", DecimalString(m'), "/" + DecimalString(n'));
            case CriteriaCount(k') =>
              DigitRunSplit(DecimalString(k), " criteria", DecimalString(k'), " criteria");
              DecimalStringInjective(k, k');
            case OneCriterionMet =>
              DigitRunSplit(DecimalString(k), " criteria", "1", " criterion met");
            case _ =>
          }
        case OneCriterionMet =>
          match t {
            case OutOf(m', n') =>
              DigitRunSplit("1", " criterion met", DecimalString(m'), "/" + DecimalString(n'));
            case CriteriaCount(k') =>
              DigitRunSplit("1", " criterion met", DecimalString(k'), " criteria");
            case _ =>
          }
        case _ =>
      }
    }
  }

  /** Labels that start with a digit are exactly the ones built from a
      decimal count. */
  lemma ScoreTextShape(s: Score)
    ensures s.OutOf? ==> ScoreText(s) == DecimalString(s.met) + ("/" + DecimalString(s.total))
    ensures s.CriteriaCount? ==> ScoreText(s) == DecimalString(s.n) + " criteria"
    ensures s.OneCriterionMet? ==> ScoreText(s) == "1" + " criterion met"
    ensures s.Met? || s.Incomplete? ==> |ScoreText(s)| > 0 && !IsDigit(ScoreText(s)[0])
  {
  }

  // ---------------------------------------------------------------------
  // The merge
  // ---------------------------------------------------------------------

  /** The engine never reads the two channel keys. */
  lemma EngineIgnoresChannelKeys(x: Answers, y: Answers)
    requires AgreeOutsideChannels(x, y)
    requires x.lesserAwards == y.lesserAwards && x.membership == y.membership
    ensures CountA(x) == CountA(y) && CountB(x) == CountB(y)
    ensures Classify(x) == Classify(y)
  {
    assert AFlags(x) == AFlags(y);
    assert BFlags(x) == BFlags(y);
    assert ProfileOf(x) == ProfileOf(y);
  }

  /** Entering a shared fact through the EB-1A key, the EB-1B key or both
      gives the same counts and the same outcome in a run of the screener. */
  lemma ChannelsInterchangeable(y: Answers, z: Answers)
    requires AgreeOutsideChannels(y, z)
    requires (y.lesserAwards || y.lesserAwardsB) == (z.lesserAwards || z.lesserAwardsB)
    requires (y.membership || y.membershipB) == (z.membership || z.membershipB)
    ensures CountA(Merge(y)) == CountA(Merge(z)) && CountB(Merge(y)) == CountB(Merge(z))
    ensures Screen(y) == Screen(z)
  {
    var my, mz := Merge(y), Merge(z);
    assert AgreeOutsideChannels(my, mz);
    assert my.lesserAwards == mz.lesserAwards && my.membership == mz.membership;
    EngineIgnoresChannelKeys(my, mz);
  }

  /** A list with no `True` entry sums to 0. */
  lemma {:induction false} CountTrueNone(s: seq<bool>)
    requires forall i :: 0 <= i < |s| ==> !s[i]
    ensures CountTrue(s) == 0
  {
    if s != [] {
      CountTrueNone(s[1..]);
    }
  }

  /** Counting distributes over concatenation. */
  lemma {:induction false} CountTrueAppend(s: seq<bool>, t: seq<bool>)
    ensures CountTrue(s + t) == CountTrue(s) + CountTrue(t)
  {
    if s != [] {
      CountTrueAppend(s[1..], t);
      assert (s + t)[1..] == s[1..] + t;
    } else {
      assert s + t == t;
    }
  }

  /** The shared facts count once in each category. */
  lemma SharedFactsCountInBoth(x: Answers)
    ensures CountA(x) == CountTrue(SharedFlags(x)) + CountTrue(AOnlyFlags(x))
    ensures CountB(x) == CountTrue(BOnlyFlags(x)) + CountTrue(SharedFlags(x))
  {
    CountTrueAppend(SharedFlags(x), AOnlyFlags(x));
    CountTrueAppend(BOnlyFlags(x), SharedFlags(x));
  }

  /** The number of shared facts entered through their EB-1B key only. */
  function GainedByMerge(x: Answers): (n: nat)
    ensures n <= 2
  {
    (if x.lesserAwardsB && !x.lesserAwards then 1 else 0)
    + (if x.membershipB && !x.membership then 1 else 0)
  }

  lemma CountTruePair(a: bool, b: bool)
    ensures CountTrue([a, b]) == (if a then 1 else 0) + (if b then 1 else 0)
  {
    assert [a, b][1..] == [b];
    assert [b][1..] == [];
  }

  /** Every shared fact entered only through its EB-1B key counts once
      towards each category after the merge, and not at all without it;
      nothing else moves either counter. */
  lemma MergeCountsSharedFacts(x: Answers)
    ensures CountA(Merge(x)) == CountA(x) + GainedByMerge(x)
    ensures CountB(Merge(x)) == CountB(x) + GainedByMerge(x)
  {
    var m := Merge(x);
    SharedFactsCountInBoth(x);
    SharedFactsCountInBoth(m);
    MergeKeepsOwnFlags(x);
    MergeSharedCount(x);
  }

  lemma MergeKeepsOwnFlags(x: Answers)
    ensures AOnlyFlags(Merge(x)) == AOnlyFlags(x) && BOnlyFlags(Merge(x)) == BOnlyFlags(x)
  {
  }

  lemma MergeSharedCount(x: Answers)
    ensures CountTrue(SharedFlags(Merge(x))) == CountTrue(SharedFlags(x)) + GainedByMerge(x)
  {
    var m := Merge(x);
    CountTruePair(x.lesserAwards, x.membership);
    CountTruePair(m.lesserAwards, m.membership);
  }
}
