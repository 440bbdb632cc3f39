/**
 * The profit section of the dashboard: the completed-profit breakdown, the
 * four achievements with their unlock thresholds, the next achievement to
 * aim for, and the best goal category.
 */
module ProfitDisplay {

  import opened Seqs
  import opened Ledger
  import Grouping
  import Dashboard

  datatype Achievement = EnergyOptimizer | ProfitPioneer | EfficiencyExpert | SavingsSuperstar

  /** The achievements in their declaration order. */
  const Achievements: seq<Achievement> := [EnergyOptimizer, ProfitPioneer, EfficiencyExpert, SavingsSuperstar]

  /** The unlock rule of each achievement, given the completed count and total profit. */
  predicate IsUnlocked(a: Achievement, count: nat, profit: real)
  {
    match a
    case EnergyOptimizer => count >= 1
    case ProfitPioneer => profit >= 50.0
    case EfficiencyExpert => count >= 5
    case SavingsSuperstar => profit >= 200.0
  }

  /** `unlockedAchievements`: the unlocked ones, in declaration order. */
  function Unlocked(count: nat, profit: real): (r: seq<Achievement>)
    ensures IsSubsequence(r, Achievements)
    ensures forall a :: a in r <==> IsUnlocked(a, count, profit)
  {
    var r := Filter(Achievements, (a: Achievement) => IsUnlocked(a, count, profit));
    UnlockedMembers(count, profit, r);
    r
  }

  lemma UnlockedMembers(count: nat, profit: real, r: seq<Achievement>)
    requires r == Filter(Achievements, (a: Achievement) => IsUnlocked(a, count, profit))
    ensures IsSubsequence(r, Achievements)
    ensures forall a :: a in r <==> IsUnlocked(a, count, profit)
  {
    var keep := (a: Achievement) => IsUnlocked(a, count, profit);
    FilterIsSubsequence(Achievements, keep);
    FilterCounts(Achievements, keep);
    forall a: Achievement ensures a in Achievements {
      Listed(a);
    }
  }

  lemma Listed(a: Achievement)
    ensures a in Achievements
  {
    match a
    case EnergyOptimizer => assert Achievements[0] == a;
    case ProfitPioneer => assert Achievements[1] == a;
    case EfficiencyExpert => assert Achievements[2] == a;
    case SavingsSuperstar => assert Achievements[3] == a;
  }

  /** More completed work never locks an achievement again. */
  lemma UnlockIsMonotone(count: nat, profit: real, count': nat, profit': real)
    requires count <= count' && profit <= profit'
    ensures forall a :: a in Unlocked(count, profit) ==> a in Unlocked(count', profit')
  {
  }

  /** The first achievement of `s` that is still locked. */
  function FirstLocked(s: seq<Achievement>, count: nat, profit: real): (r: Option<nat>)
    ensures r.Some? ==> r.value < |s| && !IsUnlocked(s[r.value], count, profit)
    ensures r.Some? ==> forall i :: 0 <= i < r.value ==> IsUnlocked(s[i], count, profit)
    ensures r.None? <==> forall i :: 0 <= i < |s| ==> IsUnlocked(s[i], count, profit)
    decreases |s|
  {
    if s == [] then None
    else if !IsUnlocked(s[0], count, profit) then Some(0)
    else match FirstLocked(s[1..], count, profit)
      case None => None
      case Some(i) => Some(i + 1)
  }

  /** `nextAchievement`: the first locked achievement, or none when all four are unlocked. */
  function NextAchievement(count: nat, profit: real): (r: Option<Achievement>)
    ensures r.None? <==> |Unlocked(count, profit)| == |Achievements|
    ensures r.Some? ==> r.value !in Unlocked(count, profit)
    ensures r.Some? ==> forall i :: 0 <= i < |Achievements| && Achievements[i] == r.value ==>
                          forall j :: 0 <= j < i ==> Achievements[j] in Unlocked(count, profit)
  {
    var u := Unlocked(count, profit);
    match FirstLocked(Achievements, count, profit)
    case None =>
      AllUnlocked(count, profit);
      None
    case Some(i) =>
      SomeLocked(count, profit, Achievements[i]);
      Some(Achievements[i])
  }

  lemma AllUnlocked(count: nat, profit: real)
    requires forall i :: 0 <= i < |Achievements| ==> IsUnlocked(Achievements[i], count, profit)
    ensures Unlocked(count, profit) == Achievements
  {
    FilterAll(Achievements, (a: Achievement) => IsUnlocked(a, count, profit));
  }

  lemma SomeLocked(count: nat, profit: real, a: Achievement)
    requires !IsUnlocked(a, count, profit)
    ensures |Unlocked(count, profit)| < |Achievements|
  {
    Listed(a);
    var i :| 0 <= i < |Achievements| && Achievements[i] == a;
    FilterDropsRejected(Achievements, (a: Achievement) => IsUnlocked(a, count, profit), i);
  }

  /** The divisor of the average figure: `Math.max(1, count)`. */
  function AverageDivisor(count: nat): (d: nat)
    ensures d >= 1 && d >= count
    ensures count >= 1 ==> d == count
  {
    if count >= 1 then count else 1
  }

  /** "avg per recommendation": the total spread over the completed count, never dividing by zero. */
  function Average(total: real, count: nat): (r: real)
    ensures r * AverageDivisor(count) as real == total
    ensures count == 0 ==> r == total
  {
    total / AverageDivisor(count) as real
  }

  /** "This Month": the sum of the per-period values, which is the completed total. */
  function ThisMonth(ledger: seq<Entry>): (r: real)
    ensures r == TotalCompleted(ledger)
  {
    Grouping.SumValues(ProfitByPeriod(ledger))
  }

  /**
   * The index `reduce((a, b) => a[1] > b[1] ? a : b)` ends on: the
   * accumulator is kept only when strictly greater, so among equal maxima
   * the LAST one wins.
   */
  function BestIndex(a: Grouping.Entries): (r: nat)
    requires a != []
    ensures r < |a|
    ensures forall j :: 0 <= j < |a| ==> a[j].1 <= a[r].1
    ensures forall j :: r < j < |a| ==> a[j].1 < a[r].1
    decreases |a|
  {
    if |a| == 1 then 0
    else
      var i := BestIndex(a[..|a| - 1]);
      if a[i].1 > a[|a| - 1].1 then i else |a| - 1
  }

  /** The two properties of `BestIndex` single out one index. */
  lemma BestIndexUnique(a: Grouping.Entries, k: nat)
    requires a != [] && k < |a|
    requires forall j :: 0 <= j < |a| ==> a[j].1 <= a[k].1
    requires forall j :: k < j < |a| ==> a[j].1 < a[k].1
    ensures BestIndex(a) == k
  {
    var r := BestIndex(a);
    assert a[r].1 == a[k].1;
  }

  /** The position of the first `c` in `s`, if any. */
  function FirstIndex(s: string, c: char): (r: Option<nat>)
    ensures r.None? <==> c !in s
    ensures r.Some? ==> r.value < |s| && s[r.value] == c && forall j :: 0 <= j < r.value ==> s[j] != c
    decreases |s|
  {
    if s == [] then None
    else if s[0] == c then Some(0)
    else match FirstIndex(s[1..], c)
      case None => None
      case Some(i) => Some(i + 1)
  }

  /**
   * `s.replace(from, to)` with a one-character string pattern: only the
   * FIRST occurrence is replaced.
   */
  function ReplaceFirst(s: string, from: char, to: char): (r: string)
    ensures |r| == |s|
    ensures FirstIndex(s, from).None? ==> r == s
    ensures FirstIndex(s, from).Some? ==> r == s[FirstIndex(s, from).value := to]
    decreases |s|
  {
    if s == [] then []
    else if s[0] == from then [to] + s[1..]
    else [s[0]] + ReplaceFirst(s[1..], from, to)
  }

  /** Replacing the first `from` by a character `s` lacks, and back, restores `s`. */
  lemma ReplaceFirstUndone(s: string, from: char, to: char)
    requires to !in s
    ensures ReplaceFirst(ReplaceFirst(s, from, to), to, from) == s
  {
    var r := ReplaceFirst(s, from, to);
    match FirstIndex(s, from)
    case None =>
    case Some(k) =>
      assert r[k] == to;
      assert forall j :: 0 <= j < k ==> r[j] == s[j];
      assert FirstIndex(r, to) == Some(k);
  }

  /** How a goal key is shown: its first underscore becomes a space. */
  function Shown(goal: string): string
  {
    ReplaceFirst(goal, '_', ' ')
  }

  /** "Best Category": the best goal key as shown, or "N/A" when no goal has completed profit. */
  function BestCategory(byGoal: Grouping.Entries): (r: string)
    ensures byGoal == [] ==> r == "N/A"
    ensures byGoal != [] ==> exists i :: 0 <= i < |byGoal| && r == Shown(byGoal[i].0)
                                         && (forall j :: 0 <= j < |byGoal| ==> byGoal[j].1 <= byGoal[i].1)
  {
    if byGoal == [] then "N/A" else Shown(byGoal[BestIndex(byGoal)].0)
  }

  /** A named best category is the shown goal of some completed entry. */
  lemma BestCategoryIsCompletedGoal(ledger: seq<Entry>)
    requires ProfitByGoal(ledger) != []
    ensures exists e :: e in ledger && e.status == Completed && Shown(e.goal) == BestCategory(ProfitByGoal(ledger))
  {
    var g := ProfitByGoal(ledger);
    var i := BestIndex(g);
    assert g[i].0 in Grouping.KeySet(g);
  }

  /** A shown goal without a space is the goal itself; a proof step of BestCategoryIsCompletedGoal, kept apart to keep that proof small. */
  lemma ShownWithoutSpace(goal: string)
    requires ' ' !in Shown(goal)
    ensures Shown(goal) == goal
  {
  }

  /** What the section renders. */
  datatype View =
    | Placeholder
    | Breakdown(total: real, completedCount: nat, average: real, thisMonth: real, best: string,
                unlocked: seq<Achievement>, next: Option<Achievement>)

  function Render(ledger: seq<Entry>): (v: View)
    ensures v.Placeholder? <==> TotalCompleted(ledger) == 0.0
    ensures v.Breakdown? ==> v.thisMonth == v.total == TotalCompleted(ledger)
    ensures v.Breakdown? ==> v.completedCount == |ByStatus(ledger, Completed)|
    ensures v.Breakdown? ==> v.average == Average(v.total, v.completedCount)
  {
    var total := TotalCompleted(ledger);
    var count := |ByStatus(ledger, Completed)|;
    if total == 0.0 then Placeholder
    else
      var average := Average(total, count);
      var month := ThisMonth(ledger);
      Breakdown(total, count, average, month, BestCategory(ProfitByGoal(ledger)),
                Unlocked(count, total), NextAchievement(count, total))
  }

  /** A ledger the dashboard shows the section for renders as a breakdown, never as the placeholder. */
  lemma ShownLedgerRendersBreakdown(ledger: seq<Entry>)
    requires Dashboard.ShowsProfitSection(ledger)
    ensures Render(ledger).Breakdown?
    ensures Render(ledger).best != "N/A" || exists e :: e in ledger && e.status == Completed && e.goal == "N/A"
    ensures EnergyOptimizer in Render(ledger).unlocked
  {
    var done := ByStatus(ledger, Completed);
    var e :| e in ledger && e.status == Completed;
    assert e in done;
    var g := ProfitByGoal(ledger);
    assert e.goal in Grouping.KeySet(g);
    if g != [] {
      BestCategoryIsCompletedGoal(ledger);
      var x :| x in ledger && x.status == Completed && Shown(x.goal) == BestCategory(g);
      if BestCategory(g) == "N/A" {
        assert ' ' !in Shown(x.goal);
        ShownWithoutSpace(x.goal);
      }
    }
  }

  /** Whether the section's own mount-time load has run yet. */
  datatype Phase = FirstRender | Loaded

  /**
   * The ledger the section renders from. The section owns a separate
   * instance of the ledger state: it starts empty and reads storage once,
   * in an effect that runs after the first render. Changes the dashboard
   * makes afterwards reach it only when it mounts again.
   */
  function SectionLedger(phase: Phase, stored: Stored): (r: seq<Entry>)
    ensures phase.FirstRender? ==> r == []
    ensures phase.Loaded? && stored.Parsed? ==> r == stored.entries
    ensures phase.Loaded? && !stored.Parsed? ==> r == []
  {
    if phase.FirstRender? then [] else Load(stored).0
  }

  /** Before its load has run, the section always renders the placeholder. */
  lemma FirstRenderIsPlaceholder(stored: Stored)
    ensures Render(SectionLedger(FirstRender, stored)).Placeholder?
  {
  }

  /**
   * After its load, from storage holding what the dashboard last saved, the
   * section shows the breakdown whenever the dashboard shows the section.
   */
  lemma LoadedSectionShowsBreakdown(ledger: seq<Entry>)
    requires Dashboard.ShowsProfitSection(ledger)
    ensures Render(SectionLedger(Loaded, Save(ledger))).Breakdown?
    ensures Render(SectionLedger(Loaded, Save(ledger))).best != "N/A"
            || exists e :: e in ledger && e.status == Completed && e.goal == "N/A"
    ensures EnergyOptimizer in Render(SectionLedger(Loaded, Save(ledger))).unlocked
  {
    LoadAfterSave(ledger);
    ShownLedgerRendersBreakdown(ledger);
  }
}
