/**
 * The accountant's review screen, without its rendering: the conjunctive
 * filter over five optional criteria, the total of the filtered amounts,
 * and the two option lists of the filter drop-downs (employees sorted and
 * unique, trips unique in first-occurrence order).
 */
module Review {

  import opened Types
  import opened Strings
  import opened Sequences

  /**
   * The five filter controls. An empty string (a `None` status) means "no
   * filter on this criterion"; dates are `YYYY-MM-DD` strings.
   */
  datatype Filter = Filter(
    employee: string,
    trip: string,
    startDate: string,
    endDate: string,
    status: Option<Status>)

  /** The filter the screen opens with: only pending records. */
  const DefaultFilter := Filter("", "", "", "", Some(Pendiente))

  /** Every control set to its "all" entry. */
  const NoFilter := Filter("", "", "", "", None)

  /** `employeeName.split(',').map(n => n.trim())`: the names a record is filed under. */
  function EmployeeNames(employeeName: string): (names: seq<string>)
    ensures |names| >= 1
    ensures forall i :: 0 <= i < |names| ==> ',' !in names[i]
  {
    var parts := Split(employeeName, ',');
    seq(|parts|, i requires 0 <= i < |parts| => Trim(parts[i]))
  }

  /** A name field without a comma files the record under its trimmed self alone. */
  lemma EmployeeNamesSingle(employeeName: string)
    requires ',' !in employeeName
    ensures EmployeeNames(employeeName) == [Trim(employeeName)]
  {
    SplitNoSeparator(employeeName, ',');
  }

  /** The piece before the first comma gives the first name; the rest of the field gives the others. */
  lemma EmployeeNamesCons(first: string, rest: string)
    requires ',' !in first
    ensures EmployeeNames(first + [','] + rest) == [Trim(first)] + EmployeeNames(rest)
  {
    SplitAtFirstSeparator(first, rest, ',');
  }

  /**
   * Two names joined as "A, B" read back as `[A, B]` when neither contains a
   * comma or starts or ends with whitespace.
   */
  lemma EmployeeNamesPair(a: string, b: string)
    requires ',' !in a && ',' !in b
    requires a == [] || (!IsWhitespace(a[0]) && !IsWhitespace(a[|a| - 1]))
    requires b == [] || (!IsWhitespace(b[0]) && !IsWhitespace(b[|b| - 1]))
    ensures EmployeeNames(a + ", " + b) == [a, b]
  {
    var padded := [' '] + b;
    assert a + ", " + b == a + [','] + padded;
    assert ',' !in padded;
    EmployeeNamesCons(a, padded);
    EmployeeNamesSingle(padded);
    TrimUnpadded(a);
    TrimLeadingWhitespace(' ', b);
    TrimUnpadded(b);
    assert EmployeeNames(padded) == [b];
  }

  /** The filter's predicate: the first failing criterion rejects the record. */
  predicate Keeps(f: Filter, e: Expense)
  {
    if f.employee != "" && f.employee !in EmployeeNames(e.employeeName) then false
    else if f.trip != "" && e.tripName != f.trip then false
    else if f.startDate != "" && Less(e.date, f.startDate) then false
    else if f.endDate != "" && Less(f.endDate, e.date) then false
    else if f.status.Some? && e.status != f.status.value then false
    else true
  }

  /**
   * The criteria combine as AND; the employee criterion is an exact match
   * against one of the record's trimmed names (not a substring match); the
   * date bounds are inclusive and an empty bound is ignored.
   */
  lemma KeepsIsConjunction(f: Filter, e: Expense)
    ensures Keeps(f, e) <==>
      && (f.employee == "" || f.employee in EmployeeNames(e.employeeName))
      && (f.trip == "" || e.tripName == f.trip)
      && (f.startDate == "" || LessEq(f.startDate, e.date))
      && (f.endDate == "" || LessEq(e.date, f.endDate))
      && (f.status == None || f.status == Some(e.status))
  {
    NotLessIsLessEq(e.date, f.startDate);
    NotLessIsLessEq(f.endDate, e.date);
  }

  /** The opening filter shows exactly the pending records. */
  lemma DefaultFilterShowsPending(e: Expense)
    ensures Keeps(DefaultFilter, e) <==> e.status == Pendiente
  {
  }

  /** `expenses.filter(...)`. */
  function Filtered(es: seq<Expense>, f: Filter): (r: seq<Expense>)
    ensures |r| <= |es|
  {
    if es == [] then []
    else (if Keeps(f, es[0]) then [es[0]] else []) + Filtered(es[1..], f)
  }

  /** The shown records are exactly the stored records the filter keeps. */
  lemma {:induction false} FilteredMembers(es: seq<Expense>, f: Filter)
    ensures forall e :: e in Filtered(es, f) <==> e in es && Keeps(f, e)
  {
    if es != [] {
      FilteredMembers(es[1..], f);
      assert es == [es[0]] + es[1..];
    }
  }

  /** The filtered list is the input with records dropped, never added or reordered. */
  lemma {:induction false} FilteredIsSubsequence(es: seq<Expense>, f: Filter)
    ensures IsSubsequence(Filtered(es, f), es)
  {
    if es != [] {
      var r := Filtered(es, f);
      var rest := Filtered(es[1..], f);
      FilteredIsSubsequence(es[1..], f);
      if Keeps(f, es[0]) {
        assert r == [es[0]] + rest;
        assert r[0] == es[0] && r[1..] == rest;
      } else {
        assert r == rest;
      }
    }
  }

  /** Each kept record appears exactly as often as in the input; the others not at all. */
  lemma {:induction false} FilteredMultiplicity(es: seq<Expense>, f: Filter, e: Expense)
    ensures multiset(Filtered(es, f))[e] == if Keeps(f, e) then multiset(es)[e] else 0
  {
    if es != [] {
      FilteredMultiplicity(es[1..], f, e);
      assert es == [es[0]] + es[1..];
    }
  }

  /** Filtering distributes over concatenation (e.g. over a freshly prepended batch). */
  lemma {:induction false} FilteredConcat(a: seq<Expense>, b: seq<Expense>, f: Filter)
    ensures Filtered(a + b, f) == Filtered(a, f) + Filtered(b, f)
  {
    if a == [] {
      assert a + b == b;
    } else {
      var ab := a + b;
      assert ab[0] == a[0] && ab[1..] == a[1..] + b;
      FilteredConcat(a[1..], b, f);
      var rest := Filtered(a[1..], f);
      if Keeps(f, a[0]) {
        assert Filtered(ab, f) == [a[0]] + (rest + Filtered(b, f));
        assert Filtered(a, f) == [a[0]] + rest;
      } else {
        assert Filtered(ab, f) == rest + Filtered(b, f);
        assert Filtered(a, f) == rest;
      }
    }
  }

  /** A list whose every record passes the filter is shown unchanged. */
  lemma {:induction false} FilteredAllKept(es: seq<Expense>, f: Filter)
    requires forall i :: 0 <= i < |es| ==> Keeps(f, es[i])
    ensures Filtered(es, f) == es
  {
    if es != [] {
      assert Keeps(f, es[0]);
      FilteredAllKept(es[1..], f);
      assert es == [es[0]] + es[1..];
    }
  }

  /** With every control on "all", the list is shown unchanged. */
  lemma NoFilterKeepsAll(es: seq<Expense>)
    ensures Filtered(es, NoFilter) == es
  {
    FilteredAllKept(es, NoFilter);
  }

  // ---------------------------------------------------------------------
  // Total
  // ---------------------------------------------------------------------

  /** `es.reduce((sum, e) => sum + e.amount, 0)`: a left fold starting at 0. */
  function Sum(es: seq<Expense>): real
  {
    if es == [] then 0.0 else Sum(es[..|es| - 1]) + es[|es| - 1].amount
  }

  /** The total shown under the table. */
  function TotalAmount(es: seq<Expense>, f: Filter): real
  {
    Sum(Filtered(es, f))
  }

  /** Reference definition: each record contributes its amount if kept and nothing otherwise. */
  function KeptAmount(es: seq<Expense>, f: Filter): real
  {
    if es == [] then 0.0 else (if Keeps(f, es[0]) then es[0].amount else 0.0) + KeptAmount(es[1..], f)
  }

  lemma {:induction false} SumConcat(a: seq<Expense>, b: seq<Expense>)
    ensures Sum(a + b) == Sum(a) + Sum(b)
    decreases |b|
  {
    if b != [] {
      SumConcat(a, b[..|b| - 1]);
      assert (a + b)[..|a + b| - 1] == a + b[..|b| - 1];
      assert (a + b)[|a + b| - 1] == b[|b| - 1];
      assert Sum(a + b) == Sum(a + b[..|b| - 1]) + b[|b| - 1].amount;
    } else {
      assert a + b == a;
    }
  }

  /** The total is the sum of the amounts of exactly the kept records. */
  lemma {:induction false} TotalAmountIsKeptAmount(es: seq<Expense>, f: Filter)
    ensures TotalAmount(es, f) == KeptAmount(es, f)
  {
    if es != [] {
      TotalAmountIsKeptAmount(es[1..], f);
      var head := if Keeps(f, es[0]) then [es[0]] else [];
      SumConcat(head, Filtered(es[1..], f));
      assert Sum([es[0]]) == es[0].amount;
    }
  }

  /** When nothing passes the filter the total is 0. */
  lemma {:induction false} TotalAmountEmpty(es: seq<Expense>, f: Filter)
    requires forall i :: 0 <= i < |es| ==> !Keeps(f, es[i])
    ensures Filtered(es, f) == [] && TotalAmount(es, f) == 0.0
  {
    if es != [] {
      assert !Keeps(f, es[0]);
      TotalAmountEmpty(es[1..], f);
    }
  }

  // ---------------------------------------------------------------------
  // Option lists
  // ---------------------------------------------------------------------

  /** `expenses.flatMap(e => e.employeeName.split(',').map(n => n.trim()))`. */
  function AllEmployeeNames(es: seq<Expense>): seq<string>
  {
    if es == [] then [] else EmployeeNames(es[0].employeeName) + AllEmployeeNames(es[1..])
  }

  /** A name is listed iff some record is filed under it. */
  lemma {:induction false} AllEmployeeNamesMembership(es: seq<Expense>, n: string)
    ensures n in AllEmployeeNames(es) <==>
      exists i :: 0 <= i < |es| && n in EmployeeNames(es[i].employeeName)
  {
    if es != [] {
      AllEmployeeNamesMembership(es[1..], n);
      if n in AllEmployeeNames(es[1..]) {
        var i :| 0 <= i < |es[1..]| && n in EmployeeNames(es[1..][i].employeeName);
        assert n in EmployeeNames(es[i + 1].employeeName);
      }
      if exists i :: 0 <= i < |es| && n in EmployeeNames(es[i].employeeName) {
        var i :| 0 <= i < |es| && n in EmployeeNames(es[i].employeeName);
        if i > 0 {
          assert es[1..][i - 1] == es[i];
        }
      }
    }
  }

  /**
   * The employee drop-down: `[...new Set(names)].sort()`. Strictly ascending
   * (so sorted and free of duplicates) and holding exactly the names of all
   * records.
   */
  function EmployeeOptions(es: seq<Expense>): (r: seq<string>)
    ensures StrictlySorted(r)
    ensures forall n :: n in r <==> n in AllEmployeeNames(es)
  {
    var unique := Dedupe(AllEmployeeNames(es));
    SortStringsDistinct(unique);
    var r := SortStrings(unique);
    assert forall n :: n in r <==> n in multiset(unique);
    r
  }

  /** `expenses.map(e => e.tripName)`. */
  function TripNames(es: seq<Expense>): (r: seq<string>)
    ensures |r| == |es| && forall i :: 0 <= i < |es| ==> r[i] == es[i].tripName
  {
    seq(|es|, i requires 0 <= i < |es| => es[i].tripName)
  }

  /** The trip drop-down: `[...new Set(tripNames)]`. */
  function TripOptions(es: seq<Expense>): (r: seq<string>)
    ensures NoDuplicates(r)
    ensures forall i :: 0 <= i < |es| ==> es[i].tripName in r
    ensures forall i :: 0 <= i < |r| ==> exists k :: 0 <= k < |es| && es[k].tripName == r[i]
  {
    Dedupe(TripNames(es))
  }

  /** Trips are listed in the order of their first occurrence among the records. */
  lemma TripOptionsOrder(es: seq<Expense>)
    ensures forall i, j :: 0 <= i < j < |TripOptions(es)| ==>
      FirstIndex(TripNames(es), TripOptions(es)[i]) < FirstIndex(TripNames(es), TripOptions(es)[j])
  {
    DedupeFirstOccurrenceOrder(TripNames(es));
  }
}
