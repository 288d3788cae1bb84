/** The allowance ledger's transaction record and the signed amount it
    contributes to the balance. */
module Records {
  import opened Calendar

  /** The one `type` tag that adds to the balance; every other tag subtracts. */
  const IncomeTag: string := "income"

  /** One ledger entry `{date, amount, type}`. */
  datatype Record = Record(date: Day, amount: int, kind: string)

  predicate IsIncome(r: Record)
  {
    r.kind == IncomeTag
  }

  /** What the record adds to the balance. */
  function Signed(r: Record): int
  {
    if IsIncome(r) then r.amount else -r.amount
  }

  /** Every stored amount passed the positive-amount check when it was added. */
  predicate WellFormed(records: seq<Record>)
  {
    forall i :: 0 <= i < |records| ==> records[i].amount > 0
  }

  /** Taking out position `k` takes exactly that element out of the multiset. */
  lemma RemoveAtMultiset<T>(s: seq<T>, k: int)
    requires 0 <= k < |s|
    ensures multiset(s[..k] + s[k + 1..]) == multiset(s) - multiset{s[k]}
  {
    assert s == s[..k] + [s[k]] + s[k + 1..];
  }

  /** The multiset of a non-empty sequence is its head plus its tail's. */
  lemma HeadTailMultiset<T>(s: seq<T>)
    requires |s| > 0
    ensures multiset(s) == multiset{s[0]} + multiset(s[1..])
  {
    assert s == [s[0]] + s[1..];
  }
}
