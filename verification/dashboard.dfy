/**
 * The recommendations dashboard: which fetched suggestions are still "new",
 * the savings total and tab counts, and the buttons each accepted card
 * offers. The buttons are what turns the permissive ledger (any status may
 * follow any other) into a forward-only lifecycle
 * pending -> implemented -> completed.
 */
module Dashboard {

  import opened Seqs
  import opened Ledger

  /** What `/recommendations` produced after unwrapping: an array, or anything else. */
  datatype Fetched = NotAnArray | Suggestions(items: seq<Suggestion>)

  /** Some accepted entry carries this action text. */
  predicate IsAcceptedAction(ledger: seq<Entry>, action: string)
  {
    exists i :: 0 <= i < |ledger| && ledger[i].action == action
  }

  /** `acceptedRecommendations.map((rec) => rec.action)`. */
  function AcceptedActions(ledger: seq<Entry>): (r: seq<string>)
    ensures |r| == |ledger|
    ensures forall a :: a in r <==> IsAcceptedAction(ledger, a)
  {
    var r := seq(|ledger|, i requires 0 <= i < |ledger| => ledger[i].action);
    assert forall i :: 0 <= i < |ledger| ==> r[i] == ledger[i].action;
    r
  }

  /**
   * `safeRecommendations`: the fetched suggestions whose action text no
   * accepted entry carries, in fetched order; nothing when the data is not
   * an array.
   */
  function NewRecommendations(ledger: seq<Entry>, fetched: Fetched): (r: seq<Suggestion>)
    ensures fetched.NotAnArray? ==> r == []
    ensures fetched.Suggestions? ==> IsSubsequence(r, fetched.items)
    ensures forall s :: s in r <==> fetched.Suggestions? && s in fetched.items && !IsAcceptedAction(ledger, s.action)
    ensures forall s :: multiset(r)[s] == if fetched.Suggestions? && !IsAcceptedAction(ledger, s.action)
                                          then multiset(fetched.items)[s] else 0
  {
    match fetched
    case NotAnArray => []
    case Suggestions(items) =>
      var actions := AcceptedActions(ledger);
      FilterIsSubsequence(items, (s: Suggestion) => s.action !in actions);
      FilterCounts(items, (s: Suggestion) => s.action !in actions);
      Filter(items, (s: Suggestion) => s.action !in actions)
  }

  /** Accepting a suggestion removes it, and every suggestion with the same action text, from the new list. */
  lemma AcceptedLeavesNewList(ledger: seq<Entry>, items: seq<Suggestion>, s: Suggestion, goal: string,
                              period: string, id: string, now: string, reply: RemoteReply, t: Suggestion)
    requires t.action == s.action
    ensures t !in NewRecommendations(Accept(ledger, s, goal, period, id, now, reply), Suggestions(items))
  {
    var r := Accept(ledger, s, goal, period, id, now, reply);
    assert r[|ledger|].action == t.action;
  }

  /** Accepting never brings back a suggestion that was already hidden. */
  lemma AcceptOnlyShrinksNewList(ledger: seq<Entry>, fetched: Fetched, s: Suggestion, goal: string,
                                 period: string, id: string, now: string, reply: RemoteReply)
    ensures forall t :: t in NewRecommendations(Accept(ledger, s, goal, period, id, now, reply), fetched)
                        ==> t in NewRecommendations(ledger, fetched)
  {
    AcceptKeepsActions(ledger, s, goal, period, id, now, reply);
  }

  lemma AcceptKeepsActions(ledger: seq<Entry>, s: Suggestion, goal: string,
                           period: string, id: string, now: string, reply: RemoteReply)
    ensures forall a :: IsAcceptedAction(ledger, a) ==> IsAcceptedAction(Accept(ledger, s, goal, period, id, now, reply), a)
  {
    var r := Accept(ledger, s, goal, period, id, now, reply);
    forall a | IsAcceptedAction(ledger, a) ensures IsAcceptedAction(r, a) {
      var i :| 0 <= i < |ledger| && ledger[i].action == a;
      assert r[i] == ledger[i];
    }
  }

  function SuggestionProfit(s: Suggestion): real { s.profit }

  /** What one suggestion adds to the savings figure: `Math.max(0, profit)`. */
  function Saving(s: Suggestion): real { RealMax(0.0, s.profit) }

  /** `totalSavings`, summed over the new list. */
  function TotalSavings(newList: seq<Suggestion>): (r: real)
    ensures r >= 0.0
  {
    SumOfNonNegative(newList, Saving);
    SumOf(newList, Saving)
  }

  predicate Gains(s: Suggestion) { s.profit > 0.0 }

  /** The savings total is the plain profit sum of the suggestions that gain money. */
  lemma {:induction false} SavingsArePositiveProfits(newList: seq<Suggestion>)
    ensures TotalSavings(newList) == SumOf(Filter(newList, Gains), SuggestionProfit)
    decreases |newList|
  {
    if newList != [] {
      var init := newList[..|newList| - 1];
      var last := newList[|newList| - 1];
      SavingsArePositiveProfits(init);
      var kept := Filter(init, Gains);
      assert SumOf(newList, Saving) == SumOf(init, Saving) + Saving(last);
      if Gains(last) {
        assert Filter(newList, Gains) == kept + [last];
        SumOfSnoc(kept, last, SuggestionProfit);
      } else {
        assert Filter(newList, Gains) == kept;
      }
    }
  }

  /** A suggestion that loses money leaves the savings total as it was. */
  lemma LossDoesNotCount(newList: seq<Suggestion>, s: Suggestion)
    requires s.profit <= 0.0
    ensures TotalSavings(newList + [s]) == TotalSavings(newList)
  {
    SumOfSnoc(newList, s, Saving);
  }

  /** The three summary cards and the three tab labels. */
  datatype Counts = Counts(pending: nat, inProgress: nat, completed: nat,
                           newTab: nat, pendingTab: nat, completedTab: nat)

  function TabCounts(ledger: seq<Entry>, newList: seq<Suggestion>): (r: Counts)
    ensures r.pending + r.inProgress + r.completed == |ledger|
    ensures r.pendingTab + r.completedTab == |ledger|
    ensures r.pendingTab == r.pending + r.inProgress && r.completedTab == r.completed
    ensures r.newTab == |newList|
  {
    StatusPartition(ledger);
    var p := |ByStatus(ledger, Pending)|;
    var i := |ByStatus(ledger, Implemented)|;
    var c := |ByStatus(ledger, Completed)|;
    Counts(p, i, c, |newList|, p + i, c)
  }

  /** The profit section appears only once some completed profit exists. */
  function ShowsProfitSection(ledger: seq<Entry>): (b: bool)
    ensures b <==> TotalCompleted(ledger) > 0.0
    ensures b ==> exists e :: e in ledger && e.status == Completed
  {
    var done := ByStatus(ledger, Completed);
    if done == [] then false
    else
      assert done[0] in done;
      TotalCompleted(ledger) > 0.0
  }

  // ---------------------------------------------------------------------------
  // Cards, buttons and the status moves they make
  // ---------------------------------------------------------------------------

  datatype Button = Implement | Complete | Remove

  /** The buttons of an accepted-recommendation card. */
  function CardButtons(e: Entry, showActions: bool): (r: seq<Button>)
    ensures Implement in r <==> showActions && e.status == Pending
    ensures Complete in r <==> showActions && e.status == Implemented
    ensures Remove in r <==> showActions && e.status != Completed
  {
    if !showActions then []
    else
      (if e.status == Pending then [Implement] else [])
      + (if e.status == Implemented then [Complete] else [])
      + (if e.status != Completed then [Remove] else [])
  }

  datatype Tab = PendingTab | CompletedTab

  datatype Card = Card(entry: Entry, buttons: seq<Button>)

  function CardsOf(entries: seq<Entry>, showActions: bool): (r: seq<Card>)
    ensures |r| == |entries|
    ensures forall i :: 0 <= i < |r| ==> r[i] == Card(entries[i], CardButtons(entries[i], showActions))
  {
    seq(|entries|, i requires 0 <= i < |entries| => Card(entries[i], CardButtons(entries[i], showActions)))
  }

  /**
   * The cards a tab lists: the pending tab shows pending then implemented
   * entries with their actions, the completed tab shows completed entries
   * with `showActions={false}`.
   */
  function TabCards(ledger: seq<Entry>, tab: Tab): (r: seq<Card>)
    ensures tab == PendingTab ==> |r| == TabCounts(ledger, []).pendingTab
    ensures tab == CompletedTab ==> |r| == TabCounts(ledger, []).completedTab
    ensures forall c :: c in r ==> c.entry in ledger
    ensures forall c :: c in r ==> c.buttons == CardButtons(c.entry, tab == PendingTab)
    ensures forall c :: c in r ==> (c.entry.status == Completed <==> tab == CompletedTab)
  {
    match tab
    case PendingTab =>
      var shown := ByStatus(ledger, Pending) + ByStatus(ledger, Implemented);
      var r := CardsOf(shown, true);
      assert forall c :: c in r ==> c.entry in shown;
      r
    case CompletedTab =>
      var r := CardsOf(ByStatus(ledger, Completed), false);
      assert forall c :: c in r ==> c.entry in ByStatus(ledger, Completed);
      r
  }

  /** No tab offers any button on a completed entry. */
  lemma CompletedCardsAreInert(ledger: seq<Entry>, tab: Tab, c: Card)
    requires c in TabCards(ledger, tab) && c.entry.status == Completed
    ensures c.buttons == []
  {
    var cards := TabCards(ledger, tab);
    var i :| 0 <= i < |cards| && cards[i] == c;
  }

  /**
   * What pressing a button on the card of `e` does to the ledger. Delete
   * asks `window.confirm` first; a refusal leaves the ledger alone.
   */
  function Press(ledger: seq<Entry>, e: Entry, b: Button, now: string, confirmed: bool): (r: seq<Entry>)
    ensures b != Remove ==> |r| == |ledger|
    ensures b == Remove ==> IsSubsequence(r, ledger)
    ensures b == Remove && confirmed ==> !HasId(r, e.id)
    ensures b == Remove && !confirmed ==> r == ledger
  {
    match b
    case Implement => UpdateStatus(ledger, e.id, Implemented, now)
    case Complete => UpdateStatus(ledger, e.id, Completed, now)
    case Remove =>
      if confirmed then Delete(ledger, e.id)
      else
        IsSubsequenceRefl(ledger);
        ledger
  }

  lemma {:induction false} IsSubsequenceRefl(s: seq<Entry>)
    ensures IsSubsequence(s, s)
    decreases |s|
  {
    if s != [] {
      IsSubsequenceRefl(s[..|s| - 1]);
    }
  }

  function Rank(st: Status): nat
  {
    match st
    case Pending => 0
    case Implemented => 1
    case Completed => 2
  }

  /**
   * A position-wise forward move: same entries in the same places, no
   * status goes back, and a completed entry stays exactly as it was.
   */
  predicate Advances(before: seq<Entry>, after: seq<Entry>)
  {
    && |after| == |before|
    && (forall i :: 0 <= i < |before| ==> after[i].id == before[i].id)
    && (forall i :: 0 <= i < |before| ==> Rank(before[i].status) <= Rank(after[i].status))
    && (forall i :: 0 <= i < |before| && before[i].status == Completed ==> after[i] == before[i])
  }

  /** Entries that got their completion stamp exactly when they were completed. */
  predicate Stamped(ledger: seq<Entry>)
  {
    forall i :: 0 <= i < |ledger| ==> (ledger[i].completedAt.Some? <==> ledger[i].status == Completed)
  }

  /** With unique ids, the entry a card shows is the only one its id selects. */
  lemma OnlyEntryWithId(ledger: seq<Entry>, e: Entry, i: nat)
    requires UniqueIds(ledger) && e in ledger && i < |ledger| && ledger[i].id == e.id
    ensures ledger[i] == e
  {
    var k :| 0 <= k < |ledger| && ledger[k] == e;
    if i != k {
      assert ledger[i].id != ledger[k].id;
    }
  }

  /** Moving the one entry `e` to a later, non-backward status advances the ledger. */
  lemma UpdateAdvances(ledger: seq<Entry>, e: Entry, st: Status, now: string)
    requires UniqueIds(ledger) && e in ledger
    requires e.status != Completed && Rank(e.status) <= Rank(st)
    ensures Advances(ledger, UpdateStatus(ledger, e.id, st, now))
    ensures UniqueIds(UpdateStatus(ledger, e.id, st, now))
  {
    var r := UpdateStatus(ledger, e.id, st, now);
    forall i | 0 <= i < |ledger| && ledger[i].id == e.id
      ensures ledger[i] == e
    {
      OnlyEntryWithId(ledger, e, i);
    }
    assert forall i :: 0 <= i < |ledger| ==> r[i].id == ledger[i].id;
  }

  /** A confirmed delete of a non-completed entry keeps every completed entry. */
  lemma DeleteKeepsCompleted(ledger: seq<Entry>, e: Entry)
    requires UniqueIds(ledger) && e in ledger && e.status != Completed
    ensures forall x :: x in ledger && x.status == Completed ==> x in Delete(ledger, e.id)
  {
    var r := Delete(ledger, e.id);
    forall x | x in ledger && x.status == Completed ensures x in r {
      var k :| 0 <= k < |ledger| && ledger[k] == x;
      if x.id == e.id {
        OnlyEntryWithId(ledger, e, k);
      }
      assert multiset(r)[x] == multiset(ledger)[x];
    }
  }

  /**
   * Every button a card offers (only pending-tab cards offer any, see
   * `TabCards`) moves the ledger forward: Implement
   * and Complete advance exactly the pressed entry by one step, Delete only
   * removes entries and never a completed one; ids stay unique.
   */
  lemma PressIsForward(ledger: seq<Entry>, e: Entry, b: Button, now: string, confirmed: bool)
    requires UniqueIds(ledger)
    requires e in ledger && b in CardButtons(e, true)
    ensures var r := Press(ledger, e, b, now, confirmed);
            && UniqueIds(r)
            && (b != Remove ==> Advances(ledger, r))
            && (b == Remove ==> forall x :: x in ledger && x.status == Completed ==> x in r)
  {
    match b
    case Implement =>
      UpdateAdvances(ledger, e, Implemented, now);
    case Complete =>
      UpdateAdvances(ledger, e, Completed, now);
    case Remove =>
      if confirmed {
        DeleteKeepsIdsUnique(ledger, e.id);
        DeleteKeepsCompleted(ledger, e);
      }
  }

  lemma UpdateKeepsStamped(ledger: seq<Entry>, e: Entry, st: Status, now: string)
    requires UniqueIds(ledger) && Stamped(ledger) && e in ledger
    requires (e.status == Pending && st == Implemented) || (e.status == Implemented && st == Completed)
    ensures Stamped(UpdateStatus(ledger, e.id, st, now))
  {
    forall i | 0 <= i < |ledger| && ledger[i].id == e.id
      ensures ledger[i] == e
    {
      OnlyEntryWithId(ledger, e, i);
    }
  }

  lemma DeleteKeepsStamped(ledger: seq<Entry>, id: string)
    requires Stamped(ledger)
    ensures Stamped(Delete(ledger, id))
  {
    var r := Delete(ledger, id);
    forall i | 0 <= i < |r| ensures r[i].completedAt.Some? <==> r[i].status == Completed {
      assert r[i] in r;
      DeletedFrom(ledger, id, r[i]);
    }
  }

  /**
   * Under the dashboard's buttons, `completedAt` is present exactly on
   * completed entries, from the first accept onwards.
   */
  lemma PressKeepsStamped(ledger: seq<Entry>, e: Entry, b: Button, now: string, confirmed: bool)
    requires UniqueIds(ledger) && Stamped(ledger)
    requires e in ledger && b in CardButtons(e, true)
    ensures Stamped(Press(ledger, e, b, now, confirmed))
  {
    match b
    case Implement =>
      UpdateKeepsStamped(ledger, e, Implemented, now);
    case Complete =>
      UpdateKeepsStamped(ledger, e, Completed, now);
    case Remove =>
      if confirmed {
        DeleteKeepsStamped(ledger, e.id);
      }
  }

  lemma AcceptKeepsStamped(ledger: seq<Entry>, s: Suggestion, goal: string, period: string,
                           id: string, now: string, reply: RemoteReply)
    requires Stamped(ledger)
    ensures Stamped(Accept(ledger, s, goal, period, id, now, reply))
  {
  }
}
