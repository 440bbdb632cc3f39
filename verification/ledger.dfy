/**
 * The accepted-recommendation ledger kept by `useRecommendationActions`:
 * a list of entries, each `pending`, `implemented` or `completed`, with
 * accept / update-status / delete and the profit aggregates derived from it.
 *
 * The hook itself permits ANY status change; the forward-only lifecycle is
 * enforced by the dashboard (module Dashboard). The advisory POST/PATCH/DELETE
 * calls never influence the local list, so their outcome is an ignored
 * parameter here. Ids and ISO timestamps are generated by the caller.
 */
module Ledger {

  import opened Seqs
  import Grouping

  datatype Status = Pending | Implemented | Completed

  /** A suggestion as fetched from `/recommendations`. */
  datatype Suggestion = Suggestion(kind: string, action: string, financialImpact: string, profit: real)

  datatype Entry = Entry(
    id: string,
    kind: string,
    action: string,
    financialImpact: string,
    profit: real,
    acceptedAt: string,
    completedAt: Option<string>,
    status: Status,
    goal: string,
    period: string)

  /** How the advisory remote call ended; the local ledger does not depend on it. */
  datatype RemoteReply = RemoteOk | RemoteNotOk | RemoteUnreachable

  predicate HasId(ledger: seq<Entry>, id: string)
  {
    exists i :: 0 <= i < |ledger| && ledger[i].id == id
  }

  predicate UniqueIds(ledger: seq<Entry>)
  {
    forall i, j :: 0 <= i < j < |ledger| ==> ledger[i].id != ledger[j].id
  }

  /**
   * `acceptRecommendation`: append one pending entry built from the
   * suggestion, whatever the advisory POST replied.
   */
  function Accept(ledger: seq<Entry>, s: Suggestion, goal: string, period: string,
                  id: string, now: string, reply: RemoteReply): (r: seq<Entry>)
    ensures |r| == |ledger| + 1
    ensures r[..|ledger|] == ledger
    ensures r[|ledger|].status == Pending && r[|ledger|].completedAt == None
    ensures r[|ledger|].id == id && r[|ledger|].acceptedAt == now
    ensures r[|ledger|].goal == goal && r[|ledger|].period == period
    ensures r[|ledger|].kind == s.kind && r[|ledger|].action == s.action
    ensures r[|ledger|].financialImpact == s.financialImpact && r[|ledger|].profit == s.profit
  {
    ledger + [Entry(id, s.kind, s.action, s.financialImpact, s.profit, now, None, Pending, goal, period)]
  }

  /** The per-entry rule of `updateRecommendationStatus`. */
  function Touch(e: Entry, id: string, st: Status, now: string): Entry
  {
    if e.id != id then e
    else if st == Completed && e.completedAt.None? then e.(status := st, completedAt := Some(now))
    else e.(status := st)
  }

  /**
   * `updateRecommendationStatus`: every entry with the id gets the new
   * status; the first move to `completed` stamps `completedAt`, and a stamp,
   * once present, is neither overwritten nor cleared.
   */
  function UpdateStatus(ledger: seq<Entry>, id: string, st: Status, now: string): (r: seq<Entry>)
    ensures |r| == |ledger|
    ensures forall i :: 0 <= i < |ledger| && ledger[i].id != id ==> r[i] == ledger[i]
    ensures forall i :: 0 <= i < |ledger| && ledger[i].id == id ==>
      && r[i].status == st
      && r[i].(status := ledger[i].status, completedAt := ledger[i].completedAt) == ledger[i]
    ensures forall i :: 0 <= i < |ledger| && ledger[i].completedAt.Some? ==>
      r[i].completedAt == ledger[i].completedAt
    ensures forall i :: 0 <= i < |ledger| && ledger[i].completedAt.None? ==>
      r[i].completedAt == (if ledger[i].id == id && st == Completed then Some(now) else None)
  {
    seq(|ledger|, i requires 0 <= i < |ledger| => Touch(ledger[i], id, st, now))
  }

  predicate KeepsOtherIds(id: string, e: Entry) { e.id != id }

  /** `deleteRecommendation`: drop exactly the entries with the id, keep the rest in order. */
  function Delete(ledger: seq<Entry>, id: string): (r: seq<Entry>)
    ensures IsSubsequence(r, ledger)
    ensures !HasId(r, id)
    ensures forall e :: multiset(r)[e] == if e.id == id then 0 else multiset(ledger)[e]
  {
    var r := Filter(ledger, e => KeepsOtherIds(id, e));
    FilterIsSubsequence(ledger, e => KeepsOtherIds(id, e));
    FilterCounts(ledger, e => KeepsOtherIds(id, e));
    assert forall i :: 0 <= i < |r| ==> r[i] in r;
    r
  }

  function ProfitOf(e: Entry): real { e.profit }

  function PeriodOf(e: Entry): string { e.period }

  function GoalOf(e: Entry): string { e.goal }

  /** `getRecommendationsByStatus`. */
  function ByStatus(ledger: seq<Entry>, st: Status): (r: seq<Entry>)
    ensures forall e :: e in r <==> e in ledger && e.status == st
  {
    FilterCounts(ledger, (e: Entry) => e.status == st);
    Filter(ledger, (e: Entry) => e.status == st)
  }

  lemma ByStatusCounts(ledger: seq<Entry>, st: Status)
    ensures forall e :: multiset(ByStatus(ledger, st))[e] == if e.status == st then multiset(ledger)[e] else 0
  {
    FilterCounts(ledger, (e: Entry) => e.status == st);
  }

  /** `getTotalAcceptedProfit`: every entry counts, whatever its status. */
  function TotalAccepted(ledger: seq<Entry>): real
  {
    SumOf(ledger, ProfitOf)
  }

  /** `getTotalCompletedProfit`: only completed entries count. */
  function TotalCompleted(ledger: seq<Entry>): real
  {
    SumOf(ByStatus(ledger, Completed), ProfitOf)
  }

  /** An entry's contribution to the completed total, as an independent per-entry rule. */
  function CompletedShare(e: Entry): real
  {
    if e.status == Completed then e.profit else 0.0
  }

  /** `getProfitByPeriod`: completed profit summed per period, keys in first-seen order. */
  function ProfitByPeriod(ledger: seq<Entry>): (r: Grouping.Entries)
    ensures Grouping.DistinctKeys(r)
    ensures forall p :: p in Grouping.KeySet(r) <==> exists e :: e in ledger && e.status == Completed && e.period == p
    ensures forall p :: Grouping.Lookup(r, p) == Grouping.SumFor(ByStatus(ledger, Completed), PeriodOf, ProfitOf, p)
    ensures Grouping.SumValues(r) == TotalCompleted(ledger)
  {
    var done := ByStatus(ledger, Completed);
    var r := Grouping.Group(done, PeriodOf, ProfitOf);
    KeySetOfGroup(done, PeriodOf, ProfitOf);
    r
  }

  /** `getProfitByGoal`: completed profit summed per optimisation goal. */
  function ProfitByGoal(ledger: seq<Entry>): (r: Grouping.Entries)
    ensures Grouping.DistinctKeys(r)
    ensures forall g :: g in Grouping.KeySet(r) <==> exists e :: e in ledger && e.status == Completed && e.goal == g
    ensures forall g :: Grouping.Lookup(r, g) == Grouping.SumFor(ByStatus(ledger, Completed), GoalOf, ProfitOf, g)
    ensures Grouping.SumValues(r) == TotalCompleted(ledger)
  {
    var done := ByStatus(ledger, Completed);
    var r := Grouping.Group(done, GoalOf, ProfitOf);
    KeySetOfGroup(done, GoalOf, ProfitOf);
    r
  }

  lemma KeySetOfGroup(s: seq<Entry>, key: Entry -> string, val: Entry -> real)
    ensures forall k :: k in Grouping.KeySet(Grouping.Group(s, key, val)) <==> exists e :: e in s && key(e) == k
  {
    forall k | k in Grouping.KeySet(Grouping.Group(s, key, val))
      ensures exists e :: e in s && key(e) == k
    {
      var i :| 0 <= i < |s| && key(s[i]) == k;
      assert s[i] in s;
    }
  }

  /** What local storage may hold under the ledger's key. */
  datatype Stored = NoItem | Blank | Unparseable | Parsed(entries: seq<Entry>)

  /**
   * The mount-time load: a parsed list becomes the ledger; a missing or blank
   * item leaves the empty ledger; a corrupt item yields the empty ledger and
   * is removed from storage. Returns the ledger and what storage holds after.
   */
  function Load(item: Stored): (r: (seq<Entry>, Stored))
    ensures item.Parsed? ==> r == (item.entries, item)
    ensures !item.Parsed? ==> r.0 == []
    ensures item.Unparseable? ==> r.1 == NoItem
    ensures !item.Unparseable? ==> r.1 == item
  {
    match item
    case Parsed(entries) => (entries, item)
    case Unparseable => ([], NoItem)
    case _ => ([], item)
  }

  /** `saveToStorage`, with serialisation idealised as storing the list itself. */
  function Save(ledger: seq<Entry>): Stored
  {
    Parsed(ledger)
  }

  // ---------------------------------------------------------------------------
  // Properties relating several operations
  // ---------------------------------------------------------------------------

  lemma ByStatusSnoc(ledger: seq<Entry>, st: Status)
    requires ledger != []
    ensures ByStatus(ledger, st) == ByStatus(ledger[..|ledger| - 1], st)
                                    + (if ledger[|ledger| - 1].status == st then [ledger[|ledger| - 1]] else [])
  {
  }

  lemma DeleteSnoc(ledger: seq<Entry>, id: string)
    requires ledger != []
    ensures Delete(ledger, id) == Delete(ledger[..|ledger| - 1], id)
                                  + (if ledger[|ledger| - 1].id != id then [ledger[|ledger| - 1]] else [])
  {
  }

  lemma LoadAfterSave(ledger: seq<Entry>)
    ensures Load(Save(ledger)).0 == ledger
  {
  }

  /** Deleting the freshly accepted id undoes the accept. */
  lemma {:induction false} DeleteUndoesAccept(ledger: seq<Entry>, s: Suggestion, goal: string, period: string,
                                              id: string, now: string, reply: RemoteReply)
    requires !HasId(ledger, id)
    ensures Delete(Accept(ledger, s, goal, period, id, now, reply), id) == ledger
  {
    var a := Accept(ledger, s, goal, period, id, now, reply);
    assert a[..|a| - 1] == ledger;
    FilterAll(ledger, e => KeepsOtherIds(id, e));
    assert Filter(a, e => KeepsOtherIds(id, e)) == Filter(ledger, e => KeepsOtherIds(id, e));
  }

  /** Right after an accept, the pending list holds the new entry exactly once. */
  lemma AcceptedIsPendingOnce(ledger: seq<Entry>, s: Suggestion, goal: string, period: string,
                              id: string, now: string, reply: RemoteReply)
    requires !HasId(ledger, id)
    ensures var r := Accept(ledger, s, goal, period, id, now, reply);
            multiset(ByStatus(r, Pending))[r[|ledger|]] == 1
  {
    var r := Accept(ledger, s, goal, period, id, now, reply);
    var e := r[|ledger|];
    assert r == ledger + [e];
    assert e !in ledger;
    assert multiset(ledger)[e] == 0;
    ByStatusCounts(r, Pending);
  }

  lemma AcceptKeepsIdsUnique(ledger: seq<Entry>, s: Suggestion, goal: string, period: string,
                             id: string, now: string, reply: RemoteReply)
    requires UniqueIds(ledger) && !HasId(ledger, id)
    ensures UniqueIds(Accept(ledger, s, goal, period, id, now, reply))
  {
  }

  lemma {:induction false} DeleteKeepsIdsUnique(ledger: seq<Entry>, id: string)
    requires UniqueIds(ledger)
    ensures UniqueIds(Delete(ledger, id))
    decreases |ledger|
  {
    if ledger != [] {
      var init := ledger[..|ledger| - 1];
      var last := ledger[|ledger| - 1];
      DeleteKeepsIdsUnique(init, id);
      DeleteSnoc(ledger, id);
      if last.id != id {
        LastIdIsFresh(ledger, id);
        UniqueSnoc(Delete(init, id), last);
      }
    }
  }

  /** In a ledger with unique ids, no entry kept from the front shares the last entry's id. */
  lemma LastIdIsFresh(ledger: seq<Entry>, id: string)
    requires ledger != [] && UniqueIds(ledger)
    ensures forall x :: x in Delete(ledger[..|ledger| - 1], id) ==> x.id != ledger[|ledger| - 1].id
  {
    var init := ledger[..|ledger| - 1];
    forall x | x in Delete(init, id) ensures x.id != ledger[|ledger| - 1].id {
      DeletedFrom(init, id, x);
      var j :| 0 <= j < |init| && init[j] == x;
      assert ledger[j] == x;
    }
  }

  lemma DeletedFrom(ledger: seq<Entry>, id: string, x: Entry)
    requires x in Delete(ledger, id)
    ensures x in ledger
  {
    assert multiset(Delete(ledger, id))[x] > 0;
  }

  lemma UniqueSnoc(d: seq<Entry>, last: Entry)
    requires UniqueIds(d)
    requires forall x :: x in d ==> x.id != last.id
    ensures UniqueIds(d + [last])
  {
    var r := d + [last];
    forall i, j | 0 <= i < j < |r| ensures r[i].id != r[j].id {
      if j == |d| {
        assert r[i] == d[i];
        assert d[i] in d;
      }
    }
  }

  /** The three status lists partition the ledger. */
  lemma {:induction false} StatusPartition(ledger: seq<Entry>)
    ensures |ByStatus(ledger, Pending)| + |ByStatus(ledger, Implemented)| + |ByStatus(ledger, Completed)| == |ledger|
    decreases |ledger|
  {
    if ledger != [] {
      StatusPartition(ledger[..|ledger| - 1]);
      ByStatusSnoc(ledger, Pending);
      ByStatusSnoc(ledger, Implemented);
      ByStatusSnoc(ledger, Completed);
    }
  }

  /** The completed total is the sum of each entry's completed share. */
  lemma {:induction false} TotalCompletedIsShareSum(ledger: seq<Entry>)
    ensures TotalCompleted(ledger) == SumOf(ledger, CompletedShare)
    decreases |ledger|
  {
    if ledger != [] {
      var init := ledger[..|ledger| - 1];
      var last := ledger[|ledger| - 1];
      TotalCompletedIsShareSum(init);
      ByStatusSnoc(ledger, Completed);
      assert ledger == init + [last];
      SumOfSnoc(init, last, CompletedShare);
      if last.status == Completed {
        SumOfSnoc(ByStatus(init, Completed), last, ProfitOf);
      } else {
        assert ByStatus(ledger, Completed) == ByStatus(init, Completed);
      }
    }
  }

  /** The accepted total splits into the three status totals. */
  lemma {:induction false} TotalAcceptedSplits(ledger: seq<Entry>)
    ensures TotalAccepted(ledger) == SumOf(ByStatus(ledger, Pending), ProfitOf)
                                  + SumOf(ByStatus(ledger, Implemented), ProfitOf)
                                  + TotalCompleted(ledger)
    decreases |ledger|
  {
    if ledger != [] {
      var init := ledger[..|ledger| - 1];
      var last := ledger[|ledger| - 1];
      TotalAcceptedSplits(init);
      assert TotalAccepted(ledger) == TotalAccepted(init) + last.profit;
      StatusSumSnoc(ledger, Pending);
      StatusSumSnoc(ledger, Implemented);
      StatusSumSnoc(ledger, Completed);
    }
  }

  /** Appending an entry adds its profit to the total of its own status only. */
  lemma StatusSumSnoc(ledger: seq<Entry>, st: Status)
    requires ledger != []
    ensures SumOf(ByStatus(ledger, st), ProfitOf)
            == SumOf(ByStatus(ledger[..|ledger| - 1], st), ProfitOf)
               + (if ledger[|ledger| - 1].status == st then ledger[|ledger| - 1].profit else 0.0)
  {
    var init := ledger[..|ledger| - 1];
    var last := ledger[|ledger| - 1];
    ByStatusSnoc(ledger, st);
    if last.status == st {
      SumOfSnoc(ByStatus(init, st), last, ProfitOf);
    } else {
      assert ByStatus(ledger, st) == ByStatus(init, st);
    }
  }

  /** Accepting adds the suggestion's profit to the accepted total and nothing to the completed total. */
  lemma AcceptTotals(ledger: seq<Entry>, s: Suggestion, goal: string, period: string,
                     id: string, now: string, reply: RemoteReply)
    ensures TotalAccepted(Accept(ledger, s, goal, period, id, now, reply)) == TotalAccepted(ledger) + s.profit
    ensures TotalCompleted(Accept(ledger, s, goal, period, id, now, reply)) == TotalCompleted(ledger)
  {
    var r := Accept(ledger, s, goal, period, id, now, reply);
    assert r == ledger + [r[|ledger|]];
    SumOfSnoc(ledger, r[|ledger|], ProfitOf);
    ByStatusSnoc(r, Completed);
    assert r[..|r| - 1] == ledger;
    assert ByStatus(r, Completed) == ByStatus(ledger, Completed);
  }

  /** Completing the only entry with a given id adds exactly its profit to the completed total. */
  lemma {:induction false} CompletingAddsProfit(ledger: seq<Entry>, id: string, now: string, k: nat)
    requires UniqueIds(ledger) && k < |ledger| && ledger[k].id == id && ledger[k].status != Completed
    ensures TotalCompleted(UpdateStatus(ledger, id, Completed, now)) == TotalCompleted(ledger) + ledger[k].profit
  {
    var r := UpdateStatus(ledger, id, Completed, now);
    TotalCompletedIsShareSum(ledger);
    TotalCompletedIsShareSum(r);
    ShareSumAfterChange(ledger, r, k);
  }

  /** Two ledgers that differ only at position `k` differ in share sum by the change at `k`. */
  lemma {:induction false} ShareSumAfterChange(a: seq<Entry>, b: seq<Entry>, k: nat)
    requires |a| == |b| && k < |a|
    requires forall i :: 0 <= i < |a| && i != k ==> a[i] == b[i]
    ensures SumOf(b, CompletedShare) == SumOf(a, CompletedShare) - CompletedShare(a[k]) + CompletedShare(b[k])
    decreases |a|
  {
    var n := |a| - 1;
    if k == n {
      assert a[..n] == b[..n];
    } else {
      ShareSumAfterChange(a[..n], b[..n], k);
    }
  }

  /** Per period, the grouped value is the completed profit of the whole ledger for that period. */
  lemma ProfitByPeriodIsShareSum(ledger: seq<Entry>, p: string)
    ensures Grouping.Lookup(ProfitByPeriod(ledger), p) == Grouping.SumFor(ledger, PeriodOf, CompletedShare, p)
  {
    CompletedSumFor(ledger, p);
  }

  /** Summing the completed entries of a period equals summing every entry's completed share. */
  lemma {:induction false} CompletedSumFor(ledger: seq<Entry>, p: string)
    ensures Grouping.SumFor(ByStatus(ledger, Completed), PeriodOf, ProfitOf, p)
            == Grouping.SumFor(ledger, PeriodOf, CompletedShare, p)
    decreases |ledger|
  {
    if ledger != [] {
      var init := ledger[..|ledger| - 1];
      var last := ledger[|ledger| - 1];
      CompletedSumFor(init, p);
      ByStatusSnoc(ledger, Completed);
      var done := ByStatus(ledger, Completed);
      if last.status == Completed {
        assert done[..|done| - 1] == ByStatus(init, Completed);
      } else {
        assert done == ByStatus(init, Completed);
      }
    }
  }

  /** The hook alone permits a completed entry to move back to pending. */
  lemma HookAllowsBackwardMove()
    ensures var e := Entry("rec_1", "Battery Management", "X", "", 150.0, "t0", Some("t1"), Completed, "cost_reduction", "hourly");
            UpdateStatus([e], "rec_1", Pending, "t2")[0].status == Pending
  {
  }
}
