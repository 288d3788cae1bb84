/** The achievement badges of the performance page: a declared list of
    threshold rules over the two children's weekly counts, evaluated in
    declaration order. Unlock state is never stored. The page evaluates the
    list once, when the performance page loads, for the week shown then
    (offset 0); it does not re-evaluate it after a toggle or a week change.
    `Evaluate` takes the week as a parameter. */
module Achievements {
  import opened Calendar
  import opened Tracker

  datatype Kid = Evelyn | Howie

  /** The children in the order their badges are declared. */
  const Kids: seq<Kid> := [Evelyn, Howie]

  /** The storage name of a child, used in badge ids. */
  function KidKey(kid: Kid): string
  {
    match kid
    case Evelyn => "evelyn"
    case Howie => "howie"
  }

  /** The checks of both children. */
  datatype Household = Household(evelyn: Checks, howie: Checks)

  function ChecksOf(h: Household, kid: Kid): Checks
  {
    match kid
    case Evelyn => h.evelyn
    case Howie => h.howie
  }

  /** A badge condition: a perfect week, a category checked on at least five
      days, or the two children's weekly totals reaching 20 together. */
  datatype Rule = PerfectWeek(kid: Kid) | CategoryGoal(kid: Kid, cat: Category) | Combined

  datatype Achievement = Achievement(id: string, rule: Rule)

  datatype Badge = Badge(id: string, unlocked: bool)

  const PerfectTotal: nat := 28
  const CategoryThreshold: nat := 5
  const CombinedThreshold: nat := 20

  /** The five badges of one child: perfect week, then early riser (school),
      clean (care), study and sleep. */
  function KidAchievements(kid: Kid): (block: seq<Achievement>)
    ensures |block| == 5
    ensures block[0].rule == PerfectWeek(kid)
    ensures forall j :: 0 <= j < |Categories| ==> block[1 + j].rule == CategoryGoal(kid, Categories[j])
  {
    var k := KidKey(kid);
    [ Achievement(k + "_perfect", PerfectWeek(kid)),
      Achievement(k + "_early", CategoryGoal(kid, School)),
      Achievement(k + "_clean", CategoryGoal(kid, Care)),
      Achievement(k + "_study", CategoryGoal(kid, Study)),
      Achievement(k + "_sleep", CategoryGoal(kid, Sleep)) ]
  }

  /** All badges in declaration order: each child's five, then the shared one. */
  function Definitions(): (defs: seq<Achievement>)
    ensures |defs| == 11
    ensures defs[10] == Achievement("combined_star", Combined)
    ensures forall i :: 0 <= i < 10 ==> !defs[i].rule.Combined? && defs[i].rule.kid == Kids[i / 5]
    ensures defs[0].rule == PerfectWeek(Evelyn) && defs[5].rule == PerfectWeek(Howie)
    ensures forall j :: 0 <= j < |Categories| ==> defs[1 + j].rule == CategoryGoal(Evelyn, Categories[j])
    ensures forall j :: 0 <= j < |Categories| ==> defs[6 + j].rule == CategoryGoal(Howie, Categories[j])
  {
    var e := KidAchievements(Evelyn);
    var h := KidAchievements(Howie);
    var last := Achievement("combined_star", Combined);
    ConcatBlocks(e, h, last);
    e + h + [last]
  }

  /** Positions in two five-badge blocks followed by one more badge. */
  lemma ConcatBlocks(e: seq<Achievement>, h: seq<Achievement>, last: Achievement)
    requires |e| == 5 && |h| == 5
    ensures |e + h + [last]| == 11 && (e + h + [last])[10] == last
    ensures forall i :: 0 <= i < 5 ==> (e + h + [last])[i] == e[i] && (e + h + [last])[5 + i] == h[i]
  {
  }

  /** Every child has a badge for every category. */
  lemma DefinitionsCover(kid: Kid, cat: Category)
    ensures exists i :: 0 <= i < 10 && Definitions()[i].rule == CategoryGoal(kid, cat)
  {
    var defs := Definitions();
    var base := if kid == Evelyn then 0 else 5;
    var i := base + match cat case School => 1 case Care => 2 case Study => 3 case Sleep => 4;
    assert defs[i].rule == CategoryGoal(kid, cat);
  }

  /** Whether a rule holds for the week `offset` weeks from the week of `now`. */
  predicate Holds(rule: Rule, h: Household, now: Day, offset: int)
  {
    match rule
    case PerfectWeek(kid) => GrandTotal(ChecksOf(h, kid), now, offset) >= PerfectTotal
    case CategoryGoal(kid, cat) => TotalForCategory(ChecksOf(h, kid), now, offset, cat) >= CategoryThreshold
    case Combined =>
      GrandTotal(h.evelyn, now, offset) + GrandTotal(h.howie, now, offset) >= CombinedThreshold
  }

  /** renderAchievements: one badge per definition, in declaration order,
      unlocked exactly when its rule holds. */
  function Evaluate(defs: seq<Achievement>, h: Household, now: Day, offset: int): (badges: seq<Badge>)
    ensures |badges| == |defs|
    ensures forall i :: 0 <= i < |defs| ==> badges[i].id == defs[i].id
    ensures forall i :: 0 <= i < |defs| ==> (badges[i].unlocked <==> Holds(defs[i].rule, h, now, offset))
  {
    if |defs| == 0 then []
    else [Badge(defs[0].id, Holds(defs[0].rule, h, now, offset))] + Evaluate(defs[1..], h, now, offset)
  }

  /** A perfect-week badge is unlocked exactly when all 28 cells of the
      child's week are checked. */
  lemma PerfectWeekMeansAllChecked(h: Household, kid: Kid, now: Day, offset: int)
    ensures Holds(PerfectWeek(kid), h, now, offset)
        <==> forall d, c: Category :: d in Week(now, offset) ==> IsChecked(ChecksOf(h, kid), d, c)
  {
    PerfectWeekIffAllChecked(ChecksOf(h, kid), now, offset);
  }

  /** A perfect week unlocks every category badge of that child and the
      shared badge. */
  lemma PerfectWeekUnlocksOthers(h: Household, kid: Kid, now: Day, offset: int, cat: Category)
    requires Holds(PerfectWeek(kid), h, now, offset)
    ensures Holds(CategoryGoal(kid, cat), h, now, offset)
    ensures Holds(Combined, h, now, offset)
  {
    var checks := ChecksOf(h, kid);
    GrandTotalIsCategorySum(checks, now, offset);
    match kid
    case Evelyn =>
    case Howie =>
  }

  /** The sum of a child's four category totals for the week. */
  function CategorySum(checks: Checks, now: Day, offset: int): nat
  {
    TotalForCategory(checks, now, offset, School) + TotalForCategory(checks, now, offset, Care)
      + TotalForCategory(checks, now, offset, Study) + TotalForCategory(checks, now, offset, Sleep)
  }

  /** The shared badge, stated over the category columns of both children's
      tables: it is unlocked exactly when the eight category totals reach 20. */
  lemma CombinedIffCategoryTotals(h: Household, now: Day, offset: int)
    ensures Holds(Combined, h, now, offset)
        <==> CategorySum(h.evelyn, now, offset) + CategorySum(h.howie, now, offset) >= CombinedThreshold
  {
    GrandTotalIsCategorySum(h.evelyn, now, offset);
    GrandTotalIsCategorySum(h.howie, now, offset);
  }

  /** A child who unlocks all four category badges (at least 5 days each)
      alone unlocks the shared badge. */
  lemma CategoryGoalsUnlockCombined(h: Household, kid: Kid, now: Day, offset: int)
    requires forall c: Category :: Holds(CategoryGoal(kid, c), h, now, offset)
    ensures Holds(Combined, h, now, offset)
  {
    assert Holds(CategoryGoal(kid, School), h, now, offset);
    assert Holds(CategoryGoal(kid, Care), h, now, offset);
    assert Holds(CategoryGoal(kid, Study), h, now, offset);
    assert Holds(CategoryGoal(kid, Sleep), h, now, offset);
    CombinedIffCategoryTotals(h, now, offset);
  }

  /** With no checks at all, no rule holds. */
  lemma NothingCheckedNoRuleHolds(rule: Rule, now: Day, offset: int)
    ensures !Holds(rule, Household({}, {}), now, offset)
  {
    var w := Week(now, offset);
    SumCountsEmpty(w);
    match rule
    case PerfectWeek(kid) =>
    case CategoryGoal(kid, cat) =>
      EmptyTotal(w, cat);
    case Combined =>
  }

  /** With no checks at all, no badge is unlocked. */
  lemma NothingCheckedNothingUnlocked(defs: seq<Achievement>, now: Day, offset: int)
    ensures forall b :: b in Evaluate(defs, Household({}, {}), now, offset) ==> !b.unlocked
  {
    var badges := Evaluate(defs, Household({}, {}), now, offset);
    forall b | b in badges
      ensures !b.unlocked
    {
      var i :| 0 <= i < |badges| && badges[i] == b;
      NothingCheckedNoRuleHolds(defs[i].rule, now, offset);
    }
  }
}
