/** The screener's input: one flat record of the 21 answers the form collects,
    and the merge that folds the two EB-1B-section channels of the shared
    facts into their canonical keys. */
module Criteria {

  /** Research/teaching experience. The engine only ever asks whether the
      answer is exactly '3_years'; every other value behaves like the
      '<3_years' option. */
  datatype Experience = LessThanThreeYears | ThreeYears

  /** A 'yes'/'no' select box. Every value other than 'yes' behaves like 'no'. */
  datatype YesNo = No | Yes

  datatype Answers = Answers(
    // EB-1A section
    majorAward: bool,
    lesserAwards: bool,
    membership: bool,
    publications: bool,
    judging: bool,
    originalContributions: bool,
    authorship: bool,
    performances: bool,
    highSalary: bool,
    commercialSuccess: bool,
    // EB-1B section
    experience: Experience,
    offer: YesNo,
    tenure: YesNo,
    publishedArticles: bool,
    judgingResearch: bool,
    originalContributionsResearch: bool,
    lesserAwardsB: bool,   // second channel of lesserAwards
    membershipB: bool,     // second channel of membership
    // EB-1C section
    oneYearExp: YesNo,
    transfer: YesNo,
    managerialRole: YesNo
  )

  /** Every key absent: the map starts out returning False for any key, and
      False is neither '3_years' nor 'yes'. */
  function Default(): (x: Answers)
    ensures !x.majorAward && !x.lesserAwards && !x.membership && !x.publications
    ensures !x.judging && !x.originalContributions && !x.authorship
    ensures !x.performances && !x.highSalary && !x.commercialSuccess
    ensures x.experience != ThreeYears && x.offer != Yes && x.tenure != Yes
    ensures !x.publishedArticles && !x.judgingResearch && !x.originalContributionsResearch
    ensures !x.lesserAwardsB && !x.membershipB
    ensures x.oneYearExp != Yes && x.transfer != Yes && x.managerialRole != Yes
  {
    Answers(false, false, false, false, false, false, false, false, false, false,
            LessThanThreeYears, No, No, false, false, false, false, false,
            No, No, No)
  }

  /** The two answers agree on every key other than the four channel keys of
      the shared facts. */
  predicate AgreeOutsideChannels(x: Answers, y: Answers) {
    x.majorAward == y.majorAward && x.publications == y.publications
    && x.judging == y.judging && x.originalContributions == y.originalContributions
    && x.authorship == y.authorship && x.performances == y.performances
    && x.highSalary == y.highSalary && x.commercialSuccess == y.commercialSuccess
    && x.experience == y.experience && x.offer == y.offer && x.tenure == y.tenure
    && x.publishedArticles == y.publishedArticles && x.judgingResearch == y.judgingResearch
    && x.originalContributionsResearch == y.originalContributionsResearch
    && x.oneYearExp == y.oneYearExp && x.transfer == y.transfer
    && x.managerialRole == y.managerialRole
  }

  /** Overwrites each canonical shared key with the OR of its two channels;
      the channel keys themselves and every other key are left as they are. */
  function Merge(x: Answers): (r: Answers)
    ensures r.lesserAwards <==> x.lesserAwards || x.lesserAwardsB
    ensures r.membership <==> x.membership || x.membershipB
    ensures r.lesserAwardsB == x.lesserAwardsB && r.membershipB == x.membershipB
    ensures AgreeOutsideChannels(x, r)
  {
    x.(lesserAwards := x.lesserAwards || x.lesserAwardsB,
       membership := x.membership || x.membershipB)
  }

  lemma MergeIdempotent(x: Answers)
    ensures Merge(Merge(x)) == Merge(x)
  {
  }

  /** A shared fact that is already entered on the EB-1A key is not changed by
      the merge, and neither is anything else. */
  lemma MergeKeepsMergedInput(x: Answers)
    requires x.lesserAwardsB ==> x.lesserAwards
    requires x.membershipB ==> x.membership
    ensures Merge(x) == x
  {
  }
}
