/** `ExpenseService`: recording an expense with an even split, editing and deleting it. Amounts are exact reals. */
module ExpenseService {
  import opened Wrappers
  import opened Seqs
  import opened JavaText
  import opened Uuids
  import opened Tables
  import opened Store

  datatype ExpenseError = CostNotPositive | ItemRequired

  function Message(e: ExpenseError): string {
    match e
    case CostNotPositive => "Cost must be positive"
    case ItemRequired => "Item cannot be null"
  }

  /** The checks of `createExpense`, the cost first. */
  function ExpenseCheck(item: Option<string>, cost: real): (r: Option<ExpenseError>)
    ensures r.None? <==> cost > 0.0 && item.Some? && !IsBlank(item.value)
  {
    if cost <= 0.0 then Some(CostNotPositive)
    else if item.None? || IsBlank(item.value) then Some(ItemRequired)
    else None
  }

  /** A non-positive cost is reported even when the item is missing too. */
  lemma CostCheckedFirst(item: Option<string>, cost: real)
    requires cost <= 0.0
    ensures ExpenseCheck(item, cost) == Some(CostNotPositive)
  {
  }

  /** The split rows for the listed profiles: one per entry, in list order, each for `cost / n`; none when the
      list is null or empty. */
  function SplitRows(expenseId: Uuid, profileIds: Option<seq<Uuid>>, cost: real): (r: seq<ExpenseSplit>)
    ensures profileIds.None? || profileIds.value == [] ==> r == []
    ensures profileIds.Some? && profileIds.value != [] ==>
      && |r| == |profileIds.value|
      && forall i :: 0 <= i < |r| ==>
           r[i] == ExpenseSplit(expenseId, profileIds.value[i], cost / (|profileIds.value| as real))
  {
    if profileIds.None? || profileIds.value == [] then []
    else
      var n := |profileIds.value| as real;
      Map(profileIds.value, (p: Uuid) => ExpenseSplit(expenseId, p, cost / n))
  }

  /** `createExpense`; `newId` is the fresh expense id and `splitProfileIds` the profile ids of the split list
      the controller builds. */
  method CreateExpense(db: Database, householdId: Uuid, profileId: Option<Uuid>, item: Option<string>, cost: real,
                       score: int, splitProfileIds: Option<seq<Uuid>>, newId: Uuid)
    returns (r: Result<Expense, ExpenseError>)
    modifies db`expenses, db`splits
    ensures ExpenseCheck(item, cost).Some? ==>
      && r == Failure(ExpenseCheck(item, cost).value)
      && db.expenses == old(db.expenses) && db.splits == old(db.splits)
    ensures ExpenseCheck(item, cost).None? ==>
      && r == Success(Expense(newId, householdId, profileId, item, cost, score))
      && db.expenses == old(db.expenses) + [r.value]
      && db.splits == old(db.splits) + SplitRows(newId, splitProfileIds, cost)
  {
    if cost <= 0.0 {
      return Failure(CostNotPositive);
    }
    if item.None? || IsBlank(item.value) {
      return Failure(ItemRequired);
    }
    var expense := Expense(newId, householdId, profileId, item, cost, score);
    db.expenses := db.expenses + [expense];

    if splitProfileIds.Some? && splitProfileIds.value != [] {
      var splits := splitProfileIds.value;
      var numProfiles := |splits|;
      var splitCost := cost / (numProfiles as real);
      ghost var rows := SplitRows(newId, splitProfileIds, cost);
      var i := 0;
      while i < |splits|
        invariant 0 <= i <= |splits|
        invariant db.expenses == old(db.expenses) + [expense]
        invariant db.splits == old(db.splits) + rows[..i]
      {
        assert rows[..i + 1] == rows[..i] + [rows[i]];
        db.splits := db.splits + [ExpenseSplit(expense.id, splits[i], splitCost)];
        i := i + 1;
      }
      assert rows[..i] == rows;
    }
    return Success(expense);
  }

  /** The sum of the amounts of some split rows. */
  function Total(ss: seq<ExpenseSplit>): real {
    if ss == [] then 0.0 else ss[0].amount + Total(ss[1..])
  }

  lemma {:induction false} TotalOfEqual(ss: seq<ExpenseSplit>, a: real)
    requires forall i :: 0 <= i < |ss| ==> ss[i].amount == a
    ensures Total(ss) == (|ss| as real) * a
    decreases |ss|
  {
    if ss != [] {
      TotalOfEqual(ss[1..], a);
    }
  }

  /** In exact arithmetic the shares add up to the cost. */
  lemma SplitsSumToCost(expenseId: Uuid, profileIds: seq<Uuid>, cost: real)
    requires profileIds != []
    ensures Total(SplitRows(expenseId, Some(profileIds), cost)) == cost
  {
    var n := |profileIds| as real;
    TotalOfEqual(SplitRows(expenseId, Some(profileIds), cost), cost / n);
    assert n * (cost / n) == cost;
  }

  /** The split rows name exactly the listed profiles, in order: the payer is neither added nor removed. */
  lemma SplitProfilesAreListed(expenseId: Uuid, profileIds: seq<Uuid>, cost: real)
    requires profileIds != []
    ensures Map(SplitRows(expenseId, Some(profileIds), cost), (s: ExpenseSplit) => s.profileId) == profileIds
  {
  }

  /** Reading back the splits of a freshly created expense gives exactly the rows `createExpense` wrote. */
  lemma {:induction false} SplitsReadBack(existing: seq<ExpenseSplit>, expenseId: Uuid, profileIds: Option<seq<Uuid>>, cost: real)
    requires forall i :: 0 <= i < |existing| ==> existing[i].expenseId != expenseId
    ensures SplitsOf(existing + SplitRows(expenseId, profileIds, cost), expenseId) == SplitRows(expenseId, profileIds, cost)
  {
    var p := SplitOf(expenseId);
    var rows := SplitRows(expenseId, profileIds, cost);
    FilterAppend(existing, rows, p);
    forall i | 0 <= i < |existing| ensures !p(existing[i]) {
    }
    FilterNone(existing, p);
    forall i | 0 <= i < |rows| ensures p(rows[i]) {
      assert rows[i].expenseId == expenseId;
    }
    FilterAll(rows, p);
    assert SplitsOf(existing + rows, expenseId) == Filter(existing, p) + Filter(rows, p);
    assert [] + rows == rows;
  }

  /** `updateExpense`: the rows with that id get the new item and cost; every other column and row stays. */
  function UpdateRows(es: seq<Expense>, expenseId: Uuid, item: Option<string>, cost: real): (r: seq<Expense>)
    ensures |r| == |es|
    ensures forall i :: 0 <= i < |es| && es[i].id != expenseId ==> r[i] == es[i]
    ensures forall i :: 0 <= i < |es| && es[i].id == expenseId ==>
      && r[i].item == item && r[i].cost == cost
      && r[i].id == es[i].id && r[i].householdId == es[i].householdId
      && r[i].profileId == es[i].profileId && r[i].score == es[i].score
  {
    Map(es, (e: Expense) => if e.id == expenseId then e.(item := item, cost := cost) else e)
  }

  method UpdateExpense(db: Database, expenseId: Uuid, item: Option<string>, cost: real)
    modifies db`expenses
    ensures db.expenses == UpdateRows(old(db.expenses), expenseId, item, cost)
  {
    db.expenses := UpdateRows(db.expenses, expenseId, item, cost);
  }

  /** `deleteExpense`: the rows with that id go, the others stay in order. */
  function DeleteRows(es: seq<Expense>, expenseId: Uuid): (r: seq<Expense>)
    ensures forall i :: 0 <= i < |r| ==> r[i].id != expenseId
    ensures forall i :: 0 <= i < |es| && es[i].id != expenseId ==> es[i] in r
    ensures IsSubsequence(r, es)
  {
    Filter(es, (e: Expense) => e.id != expenseId)
  }

  method RemoveExpense(db: Database, expenseId: Uuid)
    modifies db`expenses
    ensures db.expenses == DeleteRows(old(db.expenses), expenseId)
  {
    db.expenses := DeleteRows(db.expenses, expenseId);
  }

  /** After the update the expense reads back with the new item and cost. */
  lemma UpdateReadsBack(es: seq<Expense>, expenseId: Uuid, item: Option<string>, cost: real)
    requires ExpenseById(es, expenseId).Some?
    ensures ExpenseById(UpdateRows(es, expenseId, item, cost), expenseId)
         == Some(ExpenseById(es, expenseId).value.(item := item, cost := cost))
  {
    var p := HasExpenseId(expenseId);
    var v := ExpenseById(es, expenseId).value;
    var k :| 0 <= k < |es| && es[k] == v && p(es[k]) && forall j :: 0 <= j < k ==> !p(es[j]);
    var r := UpdateRows(es, expenseId, item, cost);
    assert r[k] == v.(item := item, cost := cost);
    forall j | 0 <= j < k ensures !p(r[j]) {
      assert r[j] == es[j];
    }
    FirstMatchAt(r, p, k);
  }

  /** After removal the expense is gone. */
  lemma RemoveReadsBack(es: seq<Expense>, expenseId: Uuid)
    ensures ExpenseById(DeleteRows(es, expenseId), expenseId).None?
  {
  }
}
