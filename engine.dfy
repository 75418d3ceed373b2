/** The EB-1 classification engine: the criteria counters, the derived
    eligibility facts, the outcome record and the ordered chain of sixteen
    early-return rules that picks exactly one outcome. */
module Engine {
  import opened Criteria
  import opened Decimal

  // ---------------------------------------------------------------------
  // Counters
  // ---------------------------------------------------------------------

  /** Python's `sum` over a list of booleans: the number of `True` entries. */
  function CountTrue(s: seq<bool>): (n: nat)
    ensures n <= |s|
  {
    if s == [] then 0 else (if s[0] then 1 else 0) + CountTrue(s[1..])
  }

  /** The two facts counted towards both categories. */
  function SharedFlags(x: Answers): (s: seq<bool>)
    ensures |s| == 2
  {
    [x.lesserAwards, x.membership]
  }

  /** The seven EB-1A criteria not shared with EB-1B. */
  function AOnlyFlags(x: Answers): (s: seq<bool>)
    ensures |s| == 7
  {
    [x.publications, x.judging, x.originalContributions, x.authorship,
     x.performances, x.highSalary, x.commercialSuccess]
  }

  /** The four EB-1B criteria not shared with EB-1A: three research flags and
      a tenured position. */
  function BOnlyFlags(x: Answers): (s: seq<bool>)
    ensures |s| == 4
  {
    [x.publishedArticles, x.judgingResearch, x.originalContributionsResearch, x.tenure == Yes]
  }

  /** The nine EB-1A criteria, in the order the engine sums them. */
  function AFlags(x: Answers): (s: seq<bool>)
    ensures |s| == 9
  {
    SharedFlags(x) + AOnlyFlags(x)
  }

  /** The six EB-1B criteria, in the order the engine sums them. */
  function BFlags(x: Answers): (s: seq<bool>)
    ensures |s| == 6
  {
    BOnlyFlags(x) + SharedFlags(x)
  }

  function CountA(x: Answers): (n: nat)
    ensures n <= 9
  {
    CountTrue(AFlags(x))
  }

  function CountB(x: Answers): (n: nat)
    ensures n <= 6
  {
    CountTrue(BFlags(x))
  }

  /** All three EB-1C answers are 'yes'. */
  predicate EB1CEligible(x: Answers): (b: bool)
    ensures b ==> EB1CPartial(x)
  {
    x.managerialRole == Yes && x.oneYearExp == Yes && x.transfer == Yes
  }

  /** At least one of the three EB-1C answers is 'yes'. */
  predicate EB1CPartial(x: Answers) {
    x.managerialRole == Yes || x.oneYearExp == Yes || x.transfer == Yes
  }

  /** Everything the rule chain reads: the major-award flag, the two
      counters, the two EB-1B basics and the EB-1C facts. */
  datatype Profile = Profile(
    majorAward: bool,
    countA: nat,
    countB: nat,
    experience: Experience,
    offer: YesNo,
    eb1cEligible: bool,
    eb1cPartial: bool
  )

  function ProfileOf(x: Answers): (p: Profile)
    ensures p.countA <= 9 && p.countB <= 6
  {
    Profile(x.majorAward, CountA(x), CountB(x), x.experience, x.offer, EB1CEligible(x), EB1CPartial(x))
  }

  /** Three years of experience and a permanent offer. */
  predicate Basics(p: Profile) {
    p.experience == ThreeYears && p.offer == Yes
  }

  /** The basics plus at least two EB-1B criteria. */
  predicate EligibleB(p: Profile) {
    Basics(p) && p.countB >= 2
  }

  // ---------------------------------------------------------------------
  // Outcome record
  // ---------------------------------------------------------------------

  /** The sixteen branches of the engine, in the order it tries them. */
  datatype Rule =
    | MajorAward
    | ExceptionalA | VeryStrongA | QualifiedA
    | ExceptionalB | VeryStrongB | QualifiedB
    | QualifiedC
    | NeedsExperienceB | NeedsJobOfferB | OneShortB
    | OneShortA
    | DualPotential
    | OneCriterionOnly
    | PartialC
    | Fallback

  datatype Category = EB1A | EB1B | EB1C | EB1AOrEB1B | EB1

  /** The status tag, without its leading glyph. */
  datatype Status =
    | HighlyLikely | Exceptional | VeryStrong | Qualified
    | NeedsExperience | NeedsJobOffer | OneCriterionShort
    | Potential | WeakProfile | PartialEB1C | NotEligible

  datatype Strength =
    | Exceptional | VeryStrong | Qualified
    | NeedsExperience | NeedsJobOffer
    | Borderline | Developing | Weak | Incomplete | NotEligible

  /** The score label: "{met}/{total}", "Met", "Incomplete",
      "{n} criteria" or the fixed text "1 criterion met". */
  datatype Score = OutOf(met: nat, total: nat) | Met | Incomplete | CriteriaCount(n: nat) | OneCriterionMet

  /** `rule` names the branch, which fixes the title, the details prose, the
      next steps and the processing note; `paths` holds the pathway
      fragments that the dual-potential details embed. */
  datatype Outcome = Outcome(
    rule: Rule,
    category: Category,
    status: Status,
    score: Score,
    strength: Strength,
    color: string,
    paths: seq<string>
  )

  const DARK_GREEN := "#006400"
  const FOREST_GREEN := "#228B22"
  const LIME_GREEN := "#32CD32"
  const DARK_ORANGE := "#FF8C00"
  const ORANGE := "#FFA500"
  const TOMATO := "#FF6347"
  const CRIMSON := "#DC143C"

  /** The label starts with a digit exactly when it reports a count. */
  function ScoreText(s: Score): (t: string)
    ensures |t| > 0
    ensures IsDigit(t[0]) <==> !s.Met? && !s.Incomplete?
  {
    match s
    case OutOf(m, t) => DecimalString(m) + "/" + DecimalString(t)
    case Met => "Met"
    case Incomplete => "Incomplete"
    case CriteriaCount(n) => DecimalString(n) + " criteria"
    case OneCriterionMet => "1 criterion met"
  }

  // ---------------------------------------------------------------------
  // The classification chain
  // ---------------------------------------------------------------------

  /** The early-return chain, run on the derived profile. The branch it
      takes always has a guard that holds. */
  function Decide(p: Profile): (r: Outcome)
    ensures Guard(r.rule, p)
  {
    if p.majorAward then
      Outcome(MajorAward, EB1A, Status.HighlyLikely, OutOf(10, 10), Strength.Exceptional, DARK_GREEN, [])
    else
      var a := p.countA;
      var b := p.countB;
      if a >= 7 then
        Outcome(ExceptionalA, EB1A, Status.Exceptional, OutOf(a, 10), Strength.Exceptional, DARK_GREEN, [])
      else if a >= 5 then
        Outcome(VeryStrongA, EB1A, Status.VeryStrong, OutOf(a, 10), Strength.VeryStrong, FOREST_GREEN, [])
      else if a >= 3 then
        Outcome(QualifiedA, EB1A, Status.Qualified, OutOf(a, 10), Strength.Qualified, LIME_GREEN, [])
      else if EligibleB(p) && b >= 5 then
        Outcome(ExceptionalB, EB1B, Status.Exceptional, OutOf(b, 6), Strength.Exceptional, DARK_GREEN, [])
      else if EligibleB(p) && b >= 3 then
        Outcome(VeryStrongB, EB1B, Status.VeryStrong, OutOf(b, 6), Strength.VeryStrong, FOREST_GREEN, [])
      else if EligibleB(p) then
        Outcome(QualifiedB, EB1B, Status.Qualified, OutOf(b, 6), Strength.Qualified, LIME_GREEN, [])
      else if p.eb1cEligible then
        Outcome(QualifiedC, EB1C, Status.Qualified, Met, Strength.Qualified, LIME_GREEN, [])
      else if b >= 2 && p.offer == Yes && p.experience != ThreeYears then
        Outcome(NeedsExperienceB, EB1B, Status.NeedsExperience, OutOf(b, 6), Strength.NeedsExperience, DARK_ORANGE, [])
      else if b >= 2 && p.experience == ThreeYears && p.offer != Yes then
        Outcome(NeedsJobOfferB, EB1B, Status.NeedsJobOffer, OutOf(b, 6), Strength.NeedsJobOffer, DARK_ORANGE, [])
      else if Basics(p) && b == 1 then
        Outcome(OneShortB, EB1B, Status.OneCriterionShort, OutOf(b, 6), Strength.Borderline, DARK_ORANGE, [])
      else if a == 2 then
        Outcome(OneShortA, EB1A, Status.OneCriterionShort, OutOf(a, 10), Strength.Borderline, DARK_ORANGE, [])
      else if a == 1 && b >= 1 then
        var paths := (if a >= 1 then ["EB-1A (" + DecimalString(a) + "/10)"] else [])
                   + (if b >= 1 then ["EB-1B (" + DecimalString(b) + "/6)"] else []);
        Outcome(DualPotential, EB1AOrEB1B, Status.Potential, CriteriaCount(if a >= b then a else b),
                Strength.Developing, ORANGE, paths)
      else if a == 1 || b == 1 then
        Outcome(OneCriterionOnly, EB1, Status.WeakProfile, OneCriterionMet, Strength.Weak, TOMATO, [])
      else if a == 0 && b == 0 && p.eb1cPartial && !p.eb1cEligible then
        Outcome(PartialC, EB1C, Status.PartialEB1C, Score.Incomplete, Strength.Incomplete, DARK_ORANGE, [])
      else
        Outcome(Fallback, EB1, Status.NotEligible, CriteriaCount(0), Strength.NotEligible, CRIMSON, [])
  }

  function Classify(x: Answers): (r: Outcome)
    ensures Guard(r.rule, ProfileOf(x))
  {
    Decide(ProfileOf(x))
  }

  /** One run of the screener: the shared facts are merged into their
      canonical keys, then the merged answers are classified. On answers
      that already carry the EB-1B channel facts on the canonical keys the
      merge changes nothing. */
  function Screen(x: Answers): (r: Outcome)
    ensures (x.lesserAwardsB ==> x.lesserAwards) && (x.membershipB ==> x.membership) ==> r == Classify(x)
  {
    Classify(Merge(x))
  }

  // ---------------------------------------------------------------------
  // The same chain as an ordered rule table
  // ---------------------------------------------------------------------

  /** The condition under which each branch fires, read on its own. The
      last branch always fires, so the chain is total. */
  predicate Guard(r: Rule, p: Profile): (b: bool)
    ensures r == Fallback ==> b
  {
    match r
    case MajorAward => p.majorAward
    case ExceptionalA => p.countA >= 7
    case VeryStrongA => p.countA >= 5
    case QualifiedA => p.countA >= 3
    case ExceptionalB => EligibleB(p) && p.countB >= 5
    case VeryStrongB => EligibleB(p) && p.countB >= 3
    case QualifiedB => EligibleB(p)
    case QualifiedC => p.eb1cEligible
    case NeedsExperienceB => p.countB >= 2 && p.offer == Yes && p.experience != ThreeYears
    case NeedsJobOfferB => p.countB >= 2 && p.experience == ThreeYears && p.offer != Yes
    case OneShortB => Basics(p) && p.countB == 1
    case OneShortA => p.countA == 2
    case DualPotential => p.countA == 1 && p.countB >= 1
    case OneCriterionOnly => p.countA == 1 || p.countB == 1
    case PartialC => p.countA == 0 && p.countB == 0 && p.eb1cPartial && !p.eb1cEligible
    case Fallback => true
  }

  const RULE_ORDER: seq<Rule> :=
    [MajorAward, ExceptionalA, VeryStrongA, QualifiedA,
     ExceptionalB, VeryStrongB, QualifiedB, QualifiedC,
     NeedsExperienceB, NeedsJobOfferB, OneShortB, OneShortA,
     DualPotential, OneCriterionOnly, PartialC, Fallback]

  /** The position of a rule in RULE_ORDER. */
  function Priority(r: Rule): (k: nat)
    ensures k < |RULE_ORDER| && RULE_ORDER[k] == r
  {
    match r
    case MajorAward => 0
    case ExceptionalA => 1
    case VeryStrongA => 2
    case QualifiedA => 3
    case ExceptionalB => 4
    case VeryStrongB => 5
    case QualifiedB => 6
    case QualifiedC => 7
    case NeedsExperienceB => 8
    case NeedsJobOfferB => 9
    case OneShortB => 10
    case OneShortA => 11
    case DualPotential => 12
    case OneCriterionOnly => 13
    case PartialC => 14
    case Fallback => 15
  }

  /** The index of the first rule in `rules` whose guard holds, or `|rules|`
      when none does. */
  function FirstMatch(rules: seq<Rule>, p: Profile): (k: nat)
    ensures k <= |rules|
    ensures k < |rules| ==> Guard(rules[k], p)
    ensures forall j :: 0 <= j < k ==> !Guard(rules[j], p)
  {
    if rules == [] then 0
    else if Guard(rules[0], p) then 0
    else 1 + FirstMatch(rules[1..], p)
  }
}
