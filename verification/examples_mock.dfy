/**
 * Concrete cases over the seed records and small hand-made records: what
 * the review screen shows, how the date bounds and the employee criterion
 * behave, and what a status decision does.
 */
module Scenarios {

  import opened Types
  import opened Strings
  import opened Review
  import opened Store
  import opened MockData

  /** A record filed under two employees. */
  const Shared := Expense("7", "Juan Pérez, Ana García", "Conferencia CDMX", "Taxi", "2024-05-10",
    120.00, "MXN", "Transporte", ReceiptFile("taxi.jpg", "image/jpeg", Some("")), Pendiente)

  /** The opening status filter narrowed to employee "Juan Pérez". */
  const JuanPending := DefaultFilter.(employee := "Juan Pérez")

  /** A comma-free name without surrounding whitespace files a record under itself alone. */
  lemma PlainName(n: string)
    requires ',' !in n && n != [] && !IsWhitespace(n[0]) && !IsWhitespace(n[|n| - 1])
    ensures EmployeeNames(n) == [n]
  {
    EmployeeNamesSingle(n);
    TrimUnpadded(n);
  }
  /** Each seed record carries a single name. */
  lemma SeedNames()
    ensures EmployeeNames("Juan Pérez") == ["Juan Pérez"]
    ensures EmployeeNames("Ana García") == ["Ana García"]
    ensures EmployeeNames("Maria Rodriguez") == ["Maria Rodriguez"]
  {
    var j, a, m := "Juan Pérez", "Ana García", "Maria Rodriguez";
    assert ',' !in j && ',' !in a && ',' !in m;
    assert j[0] == 'J' && j[|j| - 1] == 'z' && a[0] == 'A' && a[|a| - 1] == 'a' && m[0] == 'M' && m[|m| - 1] == 'z';
    assert !IsWhitespace('J') && !IsWhitespace('z') && !IsWhitespace('A') && !IsWhitespace('a') && !IsWhitespace('M');
    PlainName(j);
    PlainName(a);
    PlainName(m);
  }
  /** For a record filed under one name, the filter keeps it exactly for a pending record of Juan Pérez. */
  lemma KeepsSingle(e: Expense, n: string)
    requires EmployeeNames(e.employeeName) == [n]
    ensures Keeps(JuanPending, e) <==> n == "Juan Pérez" && e.status == Pendiente
  {
  }
  /** A pending record of Juan Pérez alone passes the filter. */
  lemma JuanPendingKeeps(e: Expense)
    requires e.employeeName == "Juan Pérez" && e.status == Pendiente
    ensures Keeps(JuanPending, e)
  {
    SeedNames();
    KeepsSingle(e, "Juan Pérez");
  }

  /** The filter keeps seed records 1 and 3, both pending records of Juan Pérez. */
  lemma SeedKept()
    ensures Keeps(JuanPending, MockExpenses[0]) && Keeps(JuanPending, MockExpenses[2])
  {
    var m := MockExpenses;
    assert m[0].employeeName == "Juan Pérez" && m[0].status == Pendiente;
    assert m[2].employeeName == "Juan Pérez" && m[2].status == Pendiente;
    JuanPendingKeeps(m[0]);
    JuanPendingKeeps(m[2]);
  }

  /** A record of another employee, or a record of Juan Pérez that is not pending, fails the filter. */
  lemma JuanPendingRejects(e: Expense)
    requires || e.employeeName == "Ana García" || e.employeeName == "Maria Rodriguez"
             || (e.employeeName == "Juan Pérez" && e.status != Pendiente)
    ensures !Keeps(JuanPending, e)
  {
    SeedNames();
    var n := e.employeeName;
    assert "Juan Pérez" != "Ana García" && "Juan Pérez" != "Maria Rodriguez";
    KeepsSingle(e, n);
  }

  /** It rejects records 2, 4 and 5 for their employee and record 6 for its status. */
  lemma SeedRejected()
    ensures !Keeps(JuanPending, MockExpenses[1]) && !Keeps(JuanPending, MockExpenses[3])
    ensures !Keeps(JuanPending, MockExpenses[4]) && !Keeps(JuanPending, MockExpenses[5])
  {
    var m := MockExpenses;
    assert m[1].employeeName == "Ana García" && m[4].employeeName == "Ana García";
    assert m[3].employeeName == "Maria Rodriguez";
    assert m[5].employeeName == "Juan Pérez" && m[5].status == Rechazado;
    JuanPendingRejects(m[1]);
    JuanPendingRejects(m[3]);
    JuanPendingRejects(m[4]);
    JuanPendingRejects(m[5]);
  }

  /** Six records of which the filter keeps the first and the third show as exactly those two. */
  lemma FilteredFirstAndThird(es: seq<Expense>, f: Filter)
    requires |es| == 6 && Keeps(f, es[0]) && !Keeps(f, es[1]) && Keeps(f, es[2])
    requires !Keeps(f, es[3]) && !Keeps(f, es[4]) && !Keeps(f, es[5])
    ensures Filtered(es, f) == [es[0], es[2]]
  {
    assert es[5..][1..] == [];
    assert Filtered(es[5..], f) == [];
    assert es[4..][1..] == es[5..];
    assert Filtered(es[4..], f) == [];
    assert es[3..][1..] == es[4..];
    assert Filtered(es[3..], f) == [];
    assert es[2..][1..] == es[3..];
    assert Filtered(es[2..], f) == [es[2]];
    assert es[1..][1..] == es[2..];
    assert Filtered(es[1..], f) == [es[2]];
  }

  /** The table shows records 1 and 3, in their stored order. */
  lemma JuanPendingView()
    ensures Filtered(MockExpenses, JuanPending) == [MockExpenses[0], MockExpenses[2]]
  {
    SeedKept();
    SeedRejected();
    FilteredFirstAndThird(MockExpenses, JuanPending);
  }

  /** The total under the table is 850.50 + 230.00. */
  lemma JuanPendingTotal()
    ensures TotalAmount(MockExpenses, JuanPending) == 1080.50
  {
    JuanPendingView();
    var m := MockExpenses;
    var r := [m[0], m[2]];
    assert r[..1] == [m[0]] && [m[0]][..0] == [];
    assert Sum(r) == Sum([m[0]]) + m[2].amount;
    assert Sum([m[0]]) == m[0].amount;
    assert m[0].amount == 850.50 && m[2].amount == 230.00;
  }
  /** A record dated 2024-05-10 lies inside [2024-05-01, 2024-05-31]. */
  lemma DateInsideMonth()
    ensures Keeps(NoFilter.(startDate := "2024-05-01", endDate := "2024-05-31"), MockExpenses[0])
  {
    var may := "2024-05-";
    var e := MockExpenses[0];
    assert e.date == may + "10";
    assert "2024-05-01" == may + "01" && "2024-05-31" == may + "31";
    LessCommonPrefix(may, "10", "01");
    LessCommonPrefix(may, "31", "10");
    assert !Less(e.date, "2024-05-01");
    assert !Less("2024-05-31", e.date);
  }

  /** A record dated 2024-05-10 lies outside [2024-05-11, 2024-05-31]. */
  lemma DateBeforeStart()
    ensures !Keeps(NoFilter.(startDate := "2024-05-11", endDate := "2024-05-31"), MockExpenses[0])
  {
    var may := "2024-05-";
    var e := MockExpenses[0];
    assert e.date == may + "10";
    assert "2024-05-11" == may + "11";
    LessCommonPrefix(may, "10", "11");
    assert Less(e.date, "2024-05-11");
  }

  /** Both bounds are inclusive: the one-day range [2024-05-10, 2024-05-10] keeps a record of that day. */
  lemma DateOnBothBounds()
    ensures Keeps(NoFilter.(startDate := "2024-05-10", endDate := "2024-05-10"), MockExpenses[0])
  {
    var e := MockExpenses[0];
    assert e.date == "2024-05-10";
    LessIrreflexive(e.date);
    assert !Less(e.date, "2024-05-10");
  }

  /** The record filed under "Juan Pérez, Ana García" is filed under both trimmed names. */
  lemma SharedNames()
    ensures EmployeeNames(Shared.employeeName) == ["Juan Pérez", "Ana García"]
  {
    var juan, ana := "Juan Pérez", "Ana García";
    assert Shared.employeeName == juan + ", " + ana;
    assert ',' !in juan && ',' !in ana;
    assert juan[0] == 'J' && juan[|juan| - 1] == 'z' && ana[0] == 'A' && ana[|ana| - 1] == 'a';
    assert !IsWhitespace('J') && !IsWhitespace('z') && !IsWhitespace('A') && !IsWhitespace('a');
    EmployeeNamesPair(juan, ana);
  }

  /** A record filed under two names matches either name exactly, but not a mere part of a name. */
  lemma EmployeeCriterionIsExact(e: Expense)
    requires EmployeeNames(e.employeeName) == ["Juan Pérez", "Ana García"]
    ensures Keeps(NoFilter.(employee := "Ana García"), e)
    ensures !Keeps(NoFilter.(employee := "Juan"), e)
  {
    var names := EmployeeNames(e.employeeName);
    assert names[1] == "Ana García";
    assert "Juan" != names[0] && "Juan" != names[1];
  }

  /** So the shared record is listed under Ana García but not under "Juan". */
  lemma SharedRecordMatches()
    ensures Keeps(NoFilter.(employee := "Ana García"), Shared)
    ensures !Keeps(NoFilter.(employee := "Juan"), Shared)
  {
    SharedNames();
    EmployeeCriterionIsExact(Shared);
  }

  /** The status update does not look at the current status: an approved record can be rejected. */
  lemma ApprovedRecordCanBeRejected()
    ensures WithStatus(MockExpenses, "5", Rechazado)[4] == MockExpenses[4].(status := Rechazado)
    ensures MockExpenses[4].status == Aprobado
  {
    WithStatusPointwise(MockExpenses, "5", Rechazado);
  }

  /** Approving record A of [A: pending, B: pending] gives [A: approved, B: pending]. */
  lemma ApproveOneOfTwo(a: Expense, b: Expense)
    requires a.id != b.id && a.status == Pendiente && b.status == Pendiente
    ensures WithStatus([a, b], a.id, Aprobado) == [a.(status := Aprobado), b]
  {
    assert [a, b][1..] == [b];
    assert [b][1..] == [];
    assert WithStatus([b], a.id, Aprobado) == [b] + WithStatus([], a.id, Aprobado) == [b];
  }
}
