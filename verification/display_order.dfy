/** The ledger's display order: records newest date first, records with the
    same date in the order they are stored. This is what the stable
    `Array.prototype.sort` yields with the comparator
    `new Date(b.date) - new Date(a.date)`, used both to list the records and
    to resolve the index of a delete. */
module DisplayOrder {
  import opened Calendar
  import opened Records

  /** Newest first: no record is dated later than one before it. */
  predicate SortedDesc(s: seq<Record>)
  {
    forall i, j :: 0 <= i < j < |s| ==> s[i].date >= s[j].date
  }

  /** The records of `s` dated `d`, in their order in `s`. */
  function OnDate(s: seq<Record>, d: Day): (r: seq<Record>)
    ensures |r| <= |s|
  {
    if |s| == 0 then []
    else (if s[0].date == d then [s[0]] else []) + OnDate(s[1..], d)
  }

  /** Places `r` in front of the first record of `t` that is not newer than it. */
  function Insert(r: Record, t: seq<Record>): (u: seq<Record>)
    ensures |u| == |t| + 1
  {
    if |t| == 0 || r.date >= t[0].date then [r] + t
    else [t[0]] + Insert(r, t[1..])
  }

  /** Stable insertion sort, newest first. An earlier record is inserted in
      front of the later ones of its date, so ties keep their stored order. */
  function SortDesc(s: seq<Record>): (t: seq<Record>)
    ensures |t| == |s|
  {
    if |s| == 0 then [] else Insert(s[0], SortDesc(s[1..]))
  }

  /** A record is picked out for date `d` exactly when it is in `s` with that date. */
  lemma {:induction false} OnDateMembers(s: seq<Record>, d: Day, x: Record)
    ensures x in OnDate(s, d) <==> x in s && x.date == d
  {
    if |s| > 0 {
      OnDateMembers(s[1..], d, x);
      assert s == [s[0]] + s[1..];
    }
  }

  lemma {:induction false} InsertMultiset(r: Record, t: seq<Record>)
    ensures multiset(Insert(r, t)) == multiset(t) + multiset{r}
  {
    if |t| > 0 && r.date < t[0].date {
      InsertMultiset(r, t[1..]);
      HeadTailMultiset(t);
    }
  }

  /** No record of `s` is dated after `bound`. */
  predicate NoneAfter(s: seq<Record>, bound: Day)
  {
    forall i :: 0 <= i < |s| ==> s[i].date <= bound
  }

  /** A record followed by a newest-first list dated no later than it is newest first. */
  lemma ConsSorted(x: Record, u: seq<Record>)
    requires SortedDesc(u) && NoneAfter(u, x.date)
    ensures SortedDesc([x] + u)
  {
    var v := [x] + u;
    forall i, j | 0 <= i < j < |v|
      ensures v[i].date >= v[j].date
    {
      assert v[j] == u[j - 1];
      if i > 0 {
        assert v[i] == u[i - 1];
      }
    }
  }

  lemma {:induction false} InsertNoneAfter(r: Record, t: seq<Record>, bound: Day)
    requires NoneAfter(t, bound) && r.date <= bound
    ensures NoneAfter(Insert(r, t), bound)
  {
    if |t| > 0 && r.date < t[0].date {
      InsertNoneAfter(r, t[1..], bound);
      var u := Insert(r, t[1..]);
      assert forall i :: 0 < i < |u| + 1 ==> ([t[0]] + u)[i] == u[i - 1];
    }
  }

  lemma {:induction false} InsertSorted(r: Record, t: seq<Record>)
    requires SortedDesc(t)
    ensures SortedDesc(Insert(r, t))
  {
    if |t| == 0 || r.date >= t[0].date {
      ConsSorted(r, t);
    } else {
      InsertSorted(r, t[1..]);
      InsertNoneAfter(r, t[1..], t[0].date);
      ConsSorted(t[0], Insert(r, t[1..]));
    }
  }

  /** Picking out one date distributes over a leading record. */
  lemma OnDateCons(x: Record, u: seq<Record>, d: Day)
    ensures OnDate([x] + u, d) == (if x.date == d then [x] else []) + OnDate(u, d)
  {
    assert ([x] + u)[1..] == u;
  }

  /** Inserting `r` puts it first among the records of its date. */
  lemma {:induction false} InsertOnDate(r: Record, t: seq<Record>, d: Day)
    ensures OnDate(Insert(r, t), d) == (if r.date == d then [r] else []) + OnDate(t, d)
  {
    if |t| == 0 || r.date >= t[0].date {
      OnDateCons(r, t, d);
    } else {
      var u := Insert(r, t[1..]);
      InsertOnDate(r, t[1..], d);
      OnDateCons(t[0], u, d);
      assert t == [t[0]] + t[1..];
      OnDateCons(t[0], t[1..], d);
      // `t[0]` is strictly newer than `r`, so at most one of them is dated `d`.
      if r.date == d {
        assert OnDate(Insert(r, t), d) == [r] + OnDate(t[1..], d);
      } else {
        assert OnDate(Insert(r, t), d) == (if t[0].date == d then [t[0]] else []) + OnDate(t[1..], d);
      }
    }
  }

  /** The display order holds exactly the stored records. */
  lemma {:induction false} SortDescPermutes(s: seq<Record>)
    ensures multiset(SortDesc(s)) == multiset(s)
  {
    if |s| > 0 {
      var t := SortDesc(s[1..]);
      assert SortDesc(s) == Insert(s[0], t);
      SortDescPermutes(s[1..]);
      InsertMultiset(s[0], t);
      HeadTailMultiset(s);
    }
  }

  /** The display order is newest first. */
  lemma {:induction false} SortDescSorted(s: seq<Record>)
    ensures SortedDesc(SortDesc(s))
  {
    if |s| > 0 {
      SortDescSorted(s[1..]);
      InsertSorted(s[0], SortDesc(s[1..]));
    }
  }

  /** Stability: for every date, the records of that date appear in the
      display order as they do in storage. */
  lemma {:induction false} SortDescStable(s: seq<Record>, d: Day)
    ensures OnDate(SortDesc(s), d) == OnDate(s, d)
  {
    if |s| > 0 {
      SortDescStable(s[1..], d);
      InsertOnDate(s[0], SortDesc(s[1..]), d);
    }
  }

  /** Dropping the head of `s` drops it from its own date only. */
  lemma OnDateTail(s: seq<Record>, d: Day)
    requires |s| > 0
    ensures OnDate(s, d) == (if s[0].date == d then [s[0]] else []) + OnDate(s[1..], d)
    ensures OnDate(s[1..], d) == if s[0].date == d then OnDate(s, d)[1..] else OnDate(s, d)
  {
  }

  /** Two non-empty newest-first sequences that agree date by date start
      with the same record. */
  lemma SortedHeadsAgree(a: seq<Record>, b: seq<Record>)
    requires SortedDesc(a) && SortedDesc(b)
    requires SameDateOrder(a, b)
    requires |a| > 0 && |b| > 0
    ensures a[0] == b[0]
  {
    // Each head also occurs in the other sequence, so the newest dates agree.
    OnDateMembers(a, b[0].date, b[0]);
    OnDateMembers(b, b[0].date, b[0]);
    OnDateMembers(a, a[0].date, a[0]);
    OnDateMembers(b, a[0].date, a[0]);
    var i :| 0 <= i < |a| && a[i] == b[0];
    var j :| 0 <= j < |b| && b[j] == a[0];
    assert a[0].date >= a[i].date;
    assert b[0].date >= b[j].date;
    var top := a[0].date;
    OnDateTail(a, top);
    OnDateTail(b, top);
    assert a[0] == OnDate(a, top)[0] == OnDate(b, top)[0] == b[0];
  }

  /** A newest-first sequence is determined by its per-date subsequences. */
  lemma {:induction false} SortedDeterminedByDates(a: seq<Record>, b: seq<Record>)
    requires SortedDesc(a) && SortedDesc(b)
    requires SameDateOrder(a, b)
    ensures a == b
    decreases |a|
  {
    // A head of one sequence occurs in the other, so neither sequence is
    // empty while the other is not.
    if |a| > 0 {
      OnDateMembers(a, a[0].date, a[0]);
      OnDateMembers(b, a[0].date, a[0]);
    }
    if |b| > 0 {
      OnDateMembers(a, b[0].date, b[0]);
      OnDateMembers(b, b[0].date, b[0]);
    }
    if |a| == 0 || |b| == 0 {
      return;
    }
    SortedHeadsAgree(a, b);
    forall d
      ensures OnDate(a[1..], d) == OnDate(b[1..], d)
    {
      OnDateTail(a, d);
      OnDateTail(b, d);
    }
    SortedDeterminedByDates(a[1..], b[1..]);
    assert a == [a[0]] + a[1..];
    assert b == [b[0]] + b[1..];
  }

  /** `t` lists, date by date, the same records in the same order as `s`. */
  ghost predicate SameDateOrder(t: seq<Record>, s: seq<Record>)
  {
    forall d :: OnDate(t, d) == OnDate(s, d)
  }

  /** The display order is THE stable newest-first order: a sequence equals
      `SortDesc(s)` exactly when it is newest first and keeps, date by date,
      the stored order of `s`. */
  lemma SortDescCharacterized(s: seq<Record>, t: seq<Record>)
    ensures t == SortDesc(s) <==> SortedDesc(t) && SameDateOrder(t, s)
  {
    SortDescSorted(s);
    forall d
      ensures OnDate(SortDesc(s), d) == OnDate(s, d)
    {
      SortDescStable(s, d);
    }
    if SortedDesc(t) && SameDateOrder(t, s) {
      SortedDeterminedByDates(t, SortDesc(s));
    }
  }

  /** Sorting records that are already newest first changes nothing. */
  lemma SortDescOfSorted(s: seq<Record>)
    requires SortedDesc(s)
    ensures SortDesc(s) == s
  {
    SortDescCharacterized(s, s);
  }
}
