/** The allowance ledger of one user: the balance, adding a record from the
    entry form, and deleting the record at a position of the newest-first
    list. Storage is the sequence of records itself. */
module Ledger {
  import opened Calendar
  import opened Records
  import opened DisplayOrder

  datatype Option<T> = None | Some(value: T) {
    function GetOr(default: T): T
    {
      match this
      case Some(v) => v
      case None => default
    }
  }

  /** Why the entry form refused a record: nobody is signed in, the date
      field is empty, or the amount is missing, not a number, zero or negative. */
  datatype AddError = NotSignedIn | MissingDate | MissingAmount

  datatype AddResult = Added(records: seq<Record>) | Rejected(error: AddError)

  // ---------------------------------------------------------------- balance

  /** `records.reduce((total, record) => ..., 0)`: a left fold from 0 that adds
      income and subtracts every other record. */
  function Balance(records: seq<Record>): int
  {
    if |records| == 0 then 0
    else
      var total := Balance(records[..|records| - 1]);
      var record := records[|records| - 1];
      if record.kind == IncomeTag then total + record.amount else total - record.amount
  }

  /** Sum of `f` over the records, independent of any fold direction. */
  function SumOf(records: seq<Record>, f: Record -> int): int
  {
    if |records| == 0 then 0 else f(records[0]) + SumOf(records[1..], f)
  }

  function IncomeAmount(r: Record): int
  {
    if IsIncome(r) then r.amount else 0
  }

  function SpendingAmount(r: Record): int
  {
    if IsIncome(r) then 0 else r.amount
  }

  /** All income minus all other records' amounts. */
  function IncomeMinusSpending(records: seq<Record>): int
  {
    SumOf(records, IncomeAmount) - SumOf(records, SpendingAmount)
  }

  lemma {:induction false} SumOfAppend(records: seq<Record>, r: Record, f: Record -> int)
    ensures SumOf(records + [r], f) == SumOf(records, f) + f(r)
  {
    if |records| > 0 {
      SumOfAppend(records[1..], r, f);
      assert (records + [r])[1..] == records[1..] + [r];
    }
  }

  /** The signed sum splits into the income sum and the spending sum. */
  lemma {:induction false} SignedSplits(records: seq<Record>)
    ensures SumOf(records, Signed) == IncomeMinusSpending(records)
  {
    if |records| > 0 {
      SignedSplits(records[1..]);
    }
  }

  /** The balance is the signed sum of the records. */
  lemma {:induction false} BalanceIsSignedSum(records: seq<Record>)
    ensures Balance(records) == SumOf(records, Signed)
  {
    if |records| > 0 {
      var prefix := records[..|records| - 1];
      BalanceIsSignedSum(prefix);
      SumOfAppend(prefix, records[|records| - 1], Signed);
      assert prefix + [records[|records| - 1]] == records;
    }
  }

  /** The balance is all income minus everything else; 0 for no records. */
  lemma BalanceIsIncomeMinusSpending(records: seq<Record>)
    ensures Balance(records) == IncomeMinusSpending(records)
    ensures records == [] ==> Balance(records) == 0
  {
    BalanceIsSignedSum(records);
    SignedSplits(records);
  }

  /** Taking one record out of a sum subtracts exactly its term. */
  lemma {:induction false} SumOfRemove(records: seq<Record>, k: int, f: Record -> int)
    requires 0 <= k < |records|
    ensures SumOf(records, f) == SumOf(records[..k] + records[k + 1..], f) + f(records[k])
  {
    if k > 0 {
      SumOfRemove(records[1..], k - 1, f);
      assert records[1..][..k - 1] + records[1..][k..] == (records[..k] + records[k + 1..])[1..];
    } else {
      assert records[..k] + records[k + 1..] == records[1..];
    }
  }

  /** A sum over records does not depend on their order. */
  lemma {:induction false} SumOfPermutation(a: seq<Record>, b: seq<Record>, f: Record -> int)
    requires multiset(a) == multiset(b)
    ensures SumOf(a, f) == SumOf(b, f)
    decreases |a|
  {
    if |a| > 0 {
      var x := a[0];
      HeadTailMultiset(a);
      assert x in multiset(b) by {
        assert x in a;
      }
      var k :| 0 <= k < |b| && b[k] == x;
      var rest := b[..k] + b[k + 1..];
      RemoveAtMultiset(b, k);
      SumOfPermutation(a[1..], rest, f);
      SumOfRemove(b, k, f);
    } else {
      assert |b| == |multiset(b)| == 0;
    }
  }

  /** The balance does not depend on the order the records are stored in. */
  lemma BalancePermutation(a: seq<Record>, b: seq<Record>)
    requires multiset(a) == multiset(b)
    ensures Balance(a) == Balance(b)
  {
    BalanceIsSignedSum(a);
    BalanceIsSignedSum(b);
    SumOfPermutation(a, b, Signed);
  }

  // ------------------------------------------------------------------- add

  /** The entry form's record for `activeType`, the tag of the selected
      income/expense button, "income" when none is selected. */
  function NewRecord(date: Day, amount: int, activeType: Option<string>): Record
  {
    Record(date, amount, activeType.GetOr(IncomeTag))
  }

  /** addRecord: `date` is None for an empty date field and `amount` is None
      when the amount field does not parse as an integer. Checks the signed-in
      user, then the date, then the amount; nothing is stored on refusal. */
  function AddRecord(records: seq<Record>, signedIn: bool, date: Option<Day>, amount: Option<int>,
                     activeType: Option<string>): (r: AddResult)
    ensures r.Added? <==> signedIn && date.Some? && amount.Some? && amount.value > 0
    ensures !signedIn ==> r == Rejected(NotSignedIn)
    ensures signedIn && date.None? ==> r == Rejected(MissingDate)
    ensures signedIn && date.Some? && (amount.None? || amount.value <= 0) ==> r == Rejected(MissingAmount)
    ensures r.Added? ==> |r.records| == |records| + 1 && r.records[..|records|] == records
    ensures r.Added? ==> r.records[|records|] == Record(date.value, amount.value, activeType.GetOr(IncomeTag))
  {
    if !signedIn then Rejected(NotSignedIn)
    else if date.None? then Rejected(MissingDate)
    else if amount.None? || amount.value <= 0 then Rejected(MissingAmount)
    else Added(records + [NewRecord(date.value, amount.value, activeType)])
  }

  /** Adding keeps every stored amount positive and moves the balance by the
      new record's signed amount. */
  lemma AddRecordEffect(records: seq<Record>, signedIn: bool, date: Option<Day>, amount: Option<int>,
                        activeType: Option<string>)
    requires AddRecord(records, signedIn, date, amount, activeType).Added?
    ensures var r := AddRecord(records, signedIn, date, amount, activeType).records;
      && (WellFormed(records) ==> WellFormed(r))
      && Balance(r) == Balance(records) + (if activeType.GetOr(IncomeTag) == IncomeTag then amount.value else -amount.value)
  {
    var r := AddRecord(records, signedIn, date, amount, activeType).records;
    assert r[..|r| - 1] == records;
  }

  // ---------------------------------------------------------------- delete

  /** The position `splice` starts at in an array of length `n`: a negative
      start counts from the end, clamped at 0; a start past the end is `n`. */
  function SpliceStart(n: nat, start: int): (at: nat)
    ensures at <= n
  {
    if start < 0 then (if n + start < 0 then 0 else n + start)
    else (if start < n then start else n)
  }

  /** `s.splice(start, 1)` on an array of records: a negative start counts
      from the end (clamped at 0); a start at or past the end removes nothing. */
  function SpliceOne(s: seq<Record>, start: int): (r: seq<Record>)
    ensures |r| == if 0 < |s| && start < |s| then |s| - 1 else |s|
    ensures 0 <= start < |s| ==> r == s[..start] + s[start + 1..]
    ensures -|s| <= start < 0 ==> r == s[..|s| + start] + s[|s| + start + 1..]
    ensures start < -|s| && 0 < |s| ==> r == s[1..]
    ensures start >= |s| ==> r == s
  {
    var at := SpliceStart(|s|, start);
    if at < |s| then s[..at] + s[at + 1..] else s
  }

  /** The list the page shows: all records, newest first. */
  function Displayed(records: seq<Record>): (shown: seq<Record>)
    ensures SortedDesc(shown)
    ensures multiset(shown) == multiset(records)
    ensures SameDateOrder(shown, records)
  {
    SortDescSorted(records);
    SortDescPermutes(records);
    forall d
      ensures OnDate(SortDesc(records), d) == OnDate(records, d)
    {
      SortDescStable(records, d);
    }
    SortDesc(records)
  }

  /** deleteRecord: when confirmed, sorts the records newest first, splices
      out position `index` of that list, and stores the result in that order. */
  function DeleteRecord(records: seq<Record>, index: int, confirmed: bool): (r: seq<Record>)
    ensures !confirmed ==> r == records
    ensures confirmed ==> SortedDesc(r)
  {
    if !confirmed then records
    else
      var shown := Displayed(records);
      RemoveKeepsSorted(shown, SpliceStart(|shown|, index));
      SpliceOne(shown, index)
  }

  /** Removing one record from a newest-first list keeps it newest first. */
  lemma RemoveKeepsSorted(s: seq<Record>, k: int)
    requires SortedDesc(s)
    ensures 0 <= k < |s| ==> SortedDesc(s[..k] + s[k + 1..])
  {
    if 0 <= k < |s| {
      var t := s[..k] + s[k + 1..];
      forall i, j | 0 <= i < j < |t|
        ensures t[i].date >= t[j].date
      {
        var i' := if i < k then i else i + 1;
        var j' := if j < k then j else j + 1;
        assert t[i] == s[i'] && t[j] == s[j'];
      }
    }
  }

  /** Deleting at a displayed position removes exactly the record shown
      there: the others stay, newest first, in the order they were shown. */
  lemma DeleteRemovesDisplayed(records: seq<Record>, index: int)
    requires 0 <= index < |records|
    ensures var r := DeleteRecord(records, index, true);
      && r == Displayed(records)[..index] + Displayed(records)[index + 1..]
      && |r| == |records| - 1
      && multiset(r) == multiset(records) - multiset{Displayed(records)[index]}
      && Displayed(r) == r
  {
    var shown := Displayed(records);
    var r := DeleteRecord(records, index, true);
    RemoveAtMultiset(shown, index);
    SortDescOfSorted(r);
  }

  /** A negative index counts back from the end of the displayed list. */
  lemma DeleteNegativeIndex(records: seq<Record>, index: int)
    requires -|records| <= index < 0
    ensures DeleteRecord(records, index, true) == DeleteRecord(records, |records| + index, true)
  {
  }

  /** An index past the end deletes nothing but still rewrites storage in
      display order. */
  lemma DeletePastEnd(records: seq<Record>, index: int)
    requires index >= |records|
    ensures DeleteRecord(records, index, true) == Displayed(records)
    ensures multiset(DeleteRecord(records, index, true)) == multiset(records)
  {
  }

  /** Deleting the record shown at `index` lowers the balance by exactly its
      signed amount. */
  lemma DeleteBalance(records: seq<Record>, index: int)
    requires 0 <= index < |records|
    ensures Balance(DeleteRecord(records, index, true)) == Balance(records) - Signed(Displayed(records)[index])
  {
    var shown := Displayed(records);
    var r := DeleteRecord(records, index, true);
    DeleteSplices(records, index);
    calc {
      Balance(records);
      { BalancePermutation(shown, records); }
      Balance(shown);
      { BalanceIsSignedSum(shown); }
      SumOf(shown, Signed);
      { SumOfRemove(shown, index, Signed); }
      SumOf(r, Signed) + Signed(shown[index]);
      { BalanceIsSignedSum(r); }
      Balance(r) + Signed(shown[index]);
    }
  }

  /** A confirmed delete at a displayed position splices that position out of
      the displayed list. */
  lemma DeleteSplices(records: seq<Record>, index: int)
    requires 0 <= index < |records|
    ensures DeleteRecord(records, index, true) == Displayed(records)[..index] + Displayed(records)[index + 1..]
  {
  }

  /** Deleting keeps every stored amount positive. */
  lemma DeleteKeepsWellFormed(records: seq<Record>, index: int, confirmed: bool)
    requires WellFormed(records)
    ensures WellFormed(DeleteRecord(records, index, confirmed))
  {
    var r := DeleteRecord(records, index, confirmed);
    if confirmed {
      var shown := Displayed(records);
      forall i | 0 <= i < |r|
        ensures r[i].amount > 0
      {
        assert r[i] in shown;
        assert r[i] in multiset(records);
      }
    }
  }
}
