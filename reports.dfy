/** The report aggregator of `GenerateReport` and `ExportReportToPDF`: the
    sales and cash deliveries of a period, joined to product names, with
    their totals and the net. */
module Reports {
  import opened Wrappers
  import opened Models
  import opened Periods
  import opened Text

  /** The product name shown when a sale's product cannot be found. */
  const NotAvailable: string := "N/A"

  // ---------------------------------------------------------------------
  // Sums

  /** Sum of `f` over `s`, accumulated from the front as the loops do. */
  function SumReal<T>(s: seq<T>, f: T -> real): (r: real)
    ensures s == [] ==> r == 0.0
  {
    if s == [] then 0.0 else SumReal(s[..|s| - 1], f) + f(s[|s| - 1])
  }

  function SumInt<T>(s: seq<T>, f: T -> int): (r: int)
    ensures s == [] ==> r == 0
  {
    if s == [] then 0 else SumInt(s[..|s| - 1], f) + f(s[|s| - 1])
  }

  function AsReal<T>(f: T -> int): T -> real {
    x => f(x) as real
  }

  function SaleTotal(s: Sale): real { s.total }
  function SaleQuantity(s: Sale): int { s.quantity }
  function DeliveryAmount(d: CashDelivery): real { d.amount }

  function TotalSalesAmount(sales: seq<Sale>): real { SumReal(sales, SaleTotal) }
  function TotalProductsSold(sales: seq<Sale>): int { SumInt(sales, SaleQuantity) }
  function TotalCashDelivered(deliveries: seq<CashDelivery>): real { SumReal(deliveries, DeliveryAmount) }

  lemma {:induction false} SumRealAppend<T>(a: seq<T>, b: seq<T>, f: T -> real)
    ensures SumReal(a + b, f) == SumReal(a, f) + SumReal(b, f)
    decreases |b|
  {
    if b == [] {
      assert a + b == a;
    } else {
      var b' := b[..|b| - 1];
      assert (a + b)[..|a + b| - 1] == a + b';
      SumRealAppend(a, b', f);
    }
  }

  /** Taking one element out of a sequence takes its value out of the sum. */
  lemma SumRealRemove<T>(s: seq<T>, j: int, f: T -> real)
    requires 0 <= j < |s|
    ensures SumReal(s, f) == SumReal(s[..j] + s[j + 1..], f) + f(s[j])
  {
    assert s == s[..j] + ([s[j]] + s[j + 1..]);
    SumRealAppend(s[..j], [s[j]] + s[j + 1..], f);
    SumRealAppend([s[j]], s[j + 1..], f);
    SumRealAppend(s[..j], s[j + 1..], f);
    var single: seq<T> := [s[j]];
    assert single[..0] == [];
  }

  lemma MultisetRemove<T>(s: seq<T>, j: int)
    requires 0 <= j < |s|
    ensures multiset(s[..j] + s[j + 1..]) == multiset(s) - multiset{s[j]}
  {
    assert s == s[..j] + [s[j]] + s[j + 1..];
  }

  /** The order of the records does not change a sum. */
  lemma {:induction false} SumRealPermutation<T>(a: seq<T>, b: seq<T>, f: T -> real)
    requires multiset(a) == multiset(b)
    ensures SumReal(a, f) == SumReal(b, f)
    decreases |a|
  {
    if a == [] {
      assert |multiset(b)| == 0;
    } else {
      var n := |a| - 1;
      assert a[n] in multiset(b);
      var j :| 0 <= j < |b| && b[j] == a[n];
      MultisetRemove(a, n);
      MultisetRemove(b, j);
      assert a[..n] + a[n + 1..] == a[..n];
      SumRealPermutation(a[..n], b[..j] + b[j + 1..], f);
      SumRealRemove(b, j, f);
    }
  }

  lemma {:induction false} SumIntAsReal<T>(s: seq<T>, f: T -> int)
    ensures SumInt(s, f) as real == SumReal(s, AsReal(f))
    decreases |s|
  {
    if s != [] {
      SumIntAsReal(s[..|s| - 1], f);
    }
  }

  /** Each total of a concatenation is the sum of the totals of its parts. */
  lemma TotalsAppend(s1: seq<Sale>, s2: seq<Sale>, d1: seq<CashDelivery>, d2: seq<CashDelivery>)
    ensures TotalSalesAmount(s1 + s2) == TotalSalesAmount(s1) + TotalSalesAmount(s2)
    ensures TotalProductsSold(s1 + s2) == TotalProductsSold(s1) + TotalProductsSold(s2)
    ensures TotalCashDelivered(d1 + d2) == TotalCashDelivered(d1) + TotalCashDelivered(d2)
  {
    SumRealAppend(s1, s2, SaleTotal);
    SumRealAppend(d1, d2, DeliveryAmount);
    SumIntAsReal(s1, SaleQuantity);
    SumIntAsReal(s2, SaleQuantity);
    SumIntAsReal(s1 + s2, SaleQuantity);
    SumRealAppend(s1, s2, AsReal(SaleQuantity));
  }

  /** The totals do not depend on the order the records come in. */
  lemma TotalsPermutation(s1: seq<Sale>, s2: seq<Sale>, d1: seq<CashDelivery>, d2: seq<CashDelivery>)
    requires multiset(s1) == multiset(s2) && multiset(d1) == multiset(d2)
    ensures TotalSalesAmount(s1) == TotalSalesAmount(s2)
    ensures TotalProductsSold(s1) == TotalProductsSold(s2)
    ensures TotalCashDelivered(d1) == TotalCashDelivered(d2)
  {
    SumRealPermutation(s1, s2, SaleTotal);
    SumRealPermutation(d1, d2, DeliveryAmount);
    SumIntAsReal(s1, SaleQuantity);
    SumIntAsReal(s2, SaleQuantity);
    SumRealPermutation(s1, s2, AsReal(SaleQuantity));
  }

  /** The loop over the sales that adds up `totalSalesAmount` and
      `totalProductsSold`. */
  method SumSales(sales: seq<Sale>) returns (totalSalesAmount: real, totalProductsSold: int)
    ensures totalSalesAmount == TotalSalesAmount(sales)
    ensures totalProductsSold == TotalProductsSold(sales)
  {
    totalSalesAmount, totalProductsSold := 0.0, 0;
    for i := 0 to |sales|
      invariant totalSalesAmount == TotalSalesAmount(sales[..i])
      invariant totalProductsSold == TotalProductsSold(sales[..i])
    {
      assert sales[..i + 1][..i] == sales[..i];
      totalSalesAmount := totalSalesAmount + sales[i].total;
      totalProductsSold := totalProductsSold + sales[i].quantity;
    }
    assert sales[..|sales|] == sales;
  }

  /** The loop over the deliveries that adds up `totalCashDelivered`. */
  method SumDeliveries(deliveries: seq<CashDelivery>) returns (totalCashDelivered: real)
    ensures totalCashDelivered == TotalCashDelivered(deliveries)
  {
    totalCashDelivered := 0.0;
    for i := 0 to |deliveries|
      invariant totalCashDelivered == TotalCashDelivered(deliveries[..i])
    {
      assert deliveries[..i + 1][..i] == deliveries[..i];
      totalCashDelivered := totalCashDelivered + deliveries[i].amount;
    }
    assert deliveries[..|deliveries|] == deliveries;
  }

  // ---------------------------------------------------------------------
  // Report lines

  /** One row of the sales table: the sale's fields with its product's name. */
  datatype ReportLine = ReportLine(
    id: int,
    date: int,
    client: string,
    productName: string,
    quantity: int,
    total: real,
    status: string)

  /** The product's name, or "N/A" when the lookup finds no product; never fails. */
  function ResolveProductName(lookup: int -> Option<Product>, productId: int): (name: string)
    ensures lookup(productId).Some? ==> name == lookup(productId).value.name
    ensures lookup(productId).None? ==> name == NotAvailable
  {
    match lookup(productId)
    case Some(product) => product.name
    case None => NotAvailable
  }

  function LineOf(s: Sale, lookup: int -> Option<Product>): ReportLine {
    ReportLine(s.id, s.date, s.client, ResolveProductName(lookup, s.productId), s.quantity, s.total, s.status)
  }

  /** The table rows: one per sale, in the sales' order. */
  function ReportLines(sales: seq<Sale>, lookup: int -> Option<Product>): (lines: seq<ReportLine>)
    ensures |lines| == |sales|
    ensures forall i :: 0 <= i < |sales| ==> lines[i] == LineOf(sales[i], lookup)
  {
    if sales == [] then []
    else ReportLines(sales[..|sales| - 1], lookup) + [LineOf(sales[|sales| - 1], lookup)]
  }

  /** The rows of a concatenation are the rows of its parts: a sale whose
      product is missing affects its own row and no other. */
  lemma ReportLinesAppend(a: seq<Sale>, b: seq<Sale>, lookup: int -> Option<Product>)
    ensures ReportLines(a + b, lookup) == ReportLines(a, lookup) + ReportLines(b, lookup)
  {
    var l, la, lb := ReportLines(a + b, lookup), ReportLines(a, lookup), ReportLines(b, lookup);
    forall i | 0 <= i < |l|
      ensures l[i] == (la + lb)[i]
    {
      if i >= |a| {
        assert (a + b)[i] == b[i - |a|];
      }
    }
  }

  /** The loop that prints one row per sale, resolving each product name. */
  method BuildLines(sales: seq<Sale>, lookup: int -> Option<Product>) returns (lines: seq<ReportLine>)
    ensures lines == ReportLines(sales, lookup)
  {
    lines := [];
    for i := 0 to |sales|
      invariant lines == ReportLines(sales[..i], lookup)
    {
      assert sales[..i + 1][..i] == sales[..i];
      var s := sales[i];
      var product := lookup(s.productId);
      var productName := NotAvailable;
      if product.Some? {
        productName := product.value.name;
      }
      lines := lines + [ReportLine(s.id, s.date, s.client, productName, s.quantity, s.total, s.status)];
    }
    assert sales[..|sales|] == sales;
  }

  // ---------------------------------------------------------------------
  // The report

  datatype Report = Report(
    title: string,
    start: int,
    end: int,
    lines: seq<ReportLine>,
    totalSalesAmount: real,
    totalProductsSold: int,
    totalCashDelivered: real,
    net: real)

  /** The report of a period's sales and deliveries. */
  function BuildReport(kind: ReportKind, now: int, sales: seq<Sale>, deliveries: seq<CashDelivery>,
                       lookup: int -> Option<Product>): (r: Report)
    ensures r.title == Title(kind)
    ensures Period(r.start, r.end) == ComputePeriod(kind, now) && r.start <= now <= r.end
    ensures r.lines == ReportLines(sales, lookup)
    ensures r.totalSalesAmount == TotalSalesAmount(sales)
    ensures r.totalProductsSold == TotalProductsSold(sales)
    ensures r.totalCashDelivered == TotalCashDelivered(deliveries)
    ensures r.net == r.totalSalesAmount - r.totalCashDelivered
  {
    var p := ComputePeriod(kind, now);
    var totalSalesAmount := TotalSalesAmount(sales);
    var totalCashDelivered := TotalCashDelivered(deliveries);
    Report(Title(kind), p.start, p.end, ReportLines(sales, lookup),
           totalSalesAmount, TotalProductsSold(sales), totalCashDelivered,
           totalSalesAmount - totalCashDelivered)
  }

  /** An empty period is a valid report with no rows and all totals zero. */
  lemma EmptyReport(kind: ReportKind, now: int, lookup: int -> Option<Product>)
    ensures var r := BuildReport(kind, now, [], [], lookup);
            r.lines == [] && r.totalSalesAmount == 0.0 && r.totalProductsSold == 0
            && r.totalCashDelivered == 0.0 && r.net == 0.0
  {
  }

  /** Two sales of 3 x 10.0 and 2 x 5.0 and one delivery of 15.0 give
      totals 40.0, 5 and 15.0, and a net of 25.0. */
  lemma ReportExample(kind: ReportKind, now: int, lookup: int -> Option<Product>)
    ensures var sales := [Sale(1, now, "Ana", 7, 3, 10.0, 30.0, StatusPaid),
                          Sale(2, now, "Luis", 8, 2, 5.0, 10.0, StatusPending)];
            var deliveries := [CashDelivery(1, now, "Caja", "Retiro", 15.0)];
            var r := BuildReport(kind, now, sales, deliveries, lookup);
            r.totalSalesAmount == 40.0 && r.totalProductsSold == 5
            && r.totalCashDelivered == 15.0 && r.net == 25.0 && |r.lines| == 2
  {
    var sales := [Sale(1, now, "Ana", 7, 3, 10.0, 30.0, StatusPaid),
                  Sale(2, now, "Luis", 8, 2, 5.0, 10.0, StatusPending)];
    assert sales[..1][..0] == [];
    assert sales[..|sales| - 1] == sales[..1];
    assert SumReal(sales[..1], SaleTotal) == 30.0;
    assert TotalSalesAmount(sales) == 40.0;
    assert SumInt(sales[..1], SaleQuantity) == 3;
    assert TotalProductsSold(sales) == 5;
    var deliveries := [CashDelivery(1, now, "Caja", "Retiro", 15.0)];
    assert deliveries[..0] == [];
    assert TotalCashDelivered(deliveries) == 15.0;
  }

  /** `ExportReportToPDF`: the document repeats the title, the period, one
      row per sale with its product name, and the totals it is handed, with
      the net computed from them. */
  method ExportReportToPDF(title: string, start: int, end: int, sales: seq<Sale>, deliveries: seq<CashDelivery>,
                           totalSalesAmount: real, totalProductsSold: int, totalCashDelivered: real,
                           lookup: int -> Option<Product>)
    returns (document: Report)
    ensures document.lines == ReportLines(sales, lookup)
    ensures document.net == totalSalesAmount - totalCashDelivered
    ensures document == Report(title, start, end, document.lines, totalSalesAmount, totalProductsSold,
                               totalCashDelivered, document.net)
  {
    var rows := BuildLines(sales, lookup);
    document := Report(title, start, end, rows, totalSalesAmount, totalProductsSold, totalCashDelivered,
                       totalSalesAmount - totalCashDelivered);
  }

  /** `GenerateReport`: the menu choice selects a period, the repository's
      range queries (None when they fail) give its records, the report is
      built, and it is exported when the answer to "(s/n)" confirms. */
  method GenerateReport(choice: int, now: int,
                        salesInRange: (int, int) -> Option<seq<Sale>>,
                        deliveriesInRange: (int, int) -> Option<seq<CashDelivery>>,
                        lookup: int -> Option<Product>,
                        exportAnswer: string)
    returns (report: Option<Report>, exported: Option<Report>)
    ensures KindOfChoice(choice).None? ==> report.None?
    ensures KindOfChoice(choice).Some? ==>
              var p := ComputePeriod(KindOfChoice(choice).value, now);
              (report.Some? <==> salesInRange(p.start, p.end).Some? && deliveriesInRange(p.start, p.end).Some?)
    ensures report.Some? ==>
              var kind := KindOfChoice(choice).value;
              var p := ComputePeriod(kind, now);
              report.value == BuildReport(kind, now, salesInRange(p.start, p.end).value,
                                          deliveriesInRange(p.start, p.end).value, lookup)
    ensures exported.Some? <==> report.Some? && Confirmed(exportAnswer)
    ensures exported.Some? ==> exported == report
  {
    report, exported := None, None;
    var kind := KindOfChoice(choice);
    if kind.None? {
      return;
    }
    var title := Title(kind.value);
    var period := ComputePeriod(kind.value, now);
    var start, end := period.start, period.end;

    var sales := salesInRange(start, end);
    if sales.None? {
      return;
    }
    var deliveries := deliveriesInRange(start, end);
    if deliveries.None? {
      return;
    }

    var totalSalesAmount, totalProductsSold := SumSales(sales.value);
    var totalCashDelivered := SumDeliveries(deliveries.value);
    var lines := BuildLines(sales.value, lookup);
    var net := totalSalesAmount - totalCashDelivered;
    report := Some(Report(title, start, end, lines, totalSalesAmount, totalProductsSold, totalCashDelivered, net));

    if Confirmed(exportAnswer) {
      var document := ExportReportToPDF(title, start, end, sales.value, deliveries.value,
                                        totalSalesAmount, totalProductsSold, totalCashDelivered, lookup);
      exported := Some(document);
    }
  }
}
