/** The read-only handlers of the expenses service: the user dashboard
    (the caller's invoices of a year and per-category usage) and the
    comma-separated report of the invoices created in a time range. */
module ExpensesQueries {
  import opened Common
  import opened Text
  import opened Ordering
  import opened InvoiceLedger
  import opened Expenses

  // ---------------------------------------------------------------------
  // The dashboard query

  /** One entry of the dashboard's category list. */
  datatype CategoryUsage = CategoryUsage(category: CategoryId, limit: int, used: int)

  /** What the dashboard query returns. */
  datatype InvoiceData = InvoiceData(invoices: seq<Invoice>, categories: seq<CategoryUsage>)

  /** The repository condition of the query: the caller's invoices of the
      year, restricted to the listed statuses only when the list is
      present and non-empty (`dto.status?.length`). */
  predicate Selected(inv: Invoice, userId: string, year: int, statusFilter: Option<seq<Status>>)
  {
    && inv.userId == userId
    && inv.createdAt.year == year
    && (statusFilter.Some? && |statusFilter.value| > 0 ==> inv.status in statusFilter.value)
  }

  function SelectInvoices(xs: seq<Invoice>, userId: string, year: int, statusFilter: Option<seq<Status>>): seq<Invoice>
  {
    Filter(xs, (inv: Invoice) => Selected(inv, userId, year, statusFilter))
  }

  /** `sumPaidInvoices(invoices.filter(i => i.category === id))`. */
  function UsedOf(selected: seq<Invoice>, id: CategoryId): int
  {
    SumPaidInvoices(Filter(selected, (inv: Invoice) => inv.category == id))
  }

  /** The categories in ascending `order`, as the repository returns them. */
  function CategoriesByOrder(cs: seq<Category>): seq<Category>
  {
    SortBy(cs, (c: Category) => c.order)
  }

  /** `GetInvoicesHandler.execute`. */
  function GetInvoiceData(l: Ledger, userId: string, year: int, statusFilter: Option<seq<Status>>): InvoiceData
  {
    var selected := SelectInvoices(l.invoices, userId, year, statusFilter);
    var sorted := CategoriesByOrder(l.categories);
    InvoiceData(
      selected,
      seq(|sorted|, (k: int) requires 0 <= k < |sorted| =>
        CategoryUsage(sorted[k].id, sorted[k].limit, UsedOf(selected, sorted[k].id))))
  }

  /** The returned invoices are exactly the stored ones that are the
      caller's, of the year, and of a listed status when the list is non-empty. */
  lemma InvoiceDataSelection(l: Ledger, userId: string, year: int, statusFilter: Option<seq<Status>>)
    ensures var r := GetInvoiceData(l, userId, year, statusFilter).invoices;
            && (forall i :: 0 <= i < |r| ==>
                  && r[i] in l.invoices
                  && r[i].userId == userId
                  && r[i].createdAt.year == year
                  && (statusFilter.Some? && |statusFilter.value| > 0 ==> r[i].status in statusFilter.value))
            && (forall j :: 0 <= j < |l.invoices| && Selected(l.invoices[j], userId, year, statusFilter)
                  ==> l.invoices[j] in r)
  {
  }

  /** An absent and an empty status list both impose no status restriction. */
  lemma EmptyStatusFilterIsNoFilter(l: Ledger, userId: string, year: int)
    ensures GetInvoiceData(l, userId, year, Some([])) == GetInvoiceData(l, userId, year, None)
    ensures var r := GetInvoiceData(l, userId, year, None).invoices;
            forall j :: 0 <= j < |l.invoices| && l.invoices[j].userId == userId && l.invoices[j].createdAt.year == year
              ==> l.invoices[j] in r
  {
    var p := (inv: Invoice) => Selected(inv, userId, year, Some([]));
    var q := (inv: Invoice) => Selected(inv, userId, year, None);
    FilterSameCondition(l.invoices, p, q);
  }

  lemma {:induction false} FilterSameCondition(xs: seq<Invoice>, p: Invoice -> bool, q: Invoice -> bool)
    requires forall x :: p(x) == q(x)
    ensures Filter(xs, p) == Filter(xs, q)
  {
    if xs != [] {
      FilterSameCondition(xs[1..], p, q);
    }
  }

  /** The category list: one entry per stored category, taken from a
      permutation of the table sorted by ascending `order`, each carrying
      its stored limit. */
  lemma CategoryEntries(l: Ledger, userId: string, year: int, statusFilter: Option<seq<Status>>)
    ensures var r := GetInvoiceData(l, userId, year, statusFilter).categories;
            exists s: seq<Category> ::
              && multiset(s) == multiset(l.categories)
              && SortedBy(s, (c: Category) => c.order)
              && |r| == |s|
              && forall k :: 0 <= k < |r| ==> r[k].category == s[k].id && r[k].limit == s[k].limit
  {
    var s := CategoriesByOrder(l.categories);
    var r := GetInvoiceData(l, userId, year, statusFilter).categories;
    assert |r| == |s| && forall k :: 0 <= k < |r| ==> r[k].category == s[k].id && r[k].limit == s[k].limit;
  }

  /** The reference definition of `used`: committed spend of the invoices
      that are both returned by the query and of the category. */
  function Used(xs: seq<Invoice>, userId: string, year: int, statusFilter: Option<seq<Status>>, id: CategoryId): int
  {
    if xs == [] then 0
    else
      (if Selected(xs[0], userId, year, statusFilter) && xs[0].category == id then Contribution(xs[0]) else 0)
      + Used(xs[1..], userId, year, statusFilter, id)
  }

  /** `used` is per user, per year and after the status filter: it is
      the reference spend of the category over the selected invoices. */
  lemma {:induction false} UsedIsSelectedSpend(xs: seq<Invoice>, userId: string, year: int, statusFilter: Option<seq<Status>>, id: CategoryId)
    ensures UsedOf(SelectInvoices(xs, userId, year, statusFilter), id) == Used(xs, userId, year, statusFilter, id)
  {
    if xs != [] {
      var x := xs[0];
      var rest := SelectInvoices(xs[1..], userId, year, statusFilter);
      UsedIsSelectedSpend(xs[1..], userId, year, statusFilter, id);
      if Selected(x, userId, year, statusFilter) {
        assert SelectInvoices(xs, userId, year, statusFilter) == [x] + rest;
        SumPaidFilterCons(x, rest, (inv: Invoice) => inv.category == id);
      } else {
        assert SelectInvoices(xs, userId, year, statusFilter) == rest;
      }
    }
  }

  /** A category none of whose invoices is selected reports `used` = 0. */
  lemma {:induction false} UnusedCategoryIsZero(xs: seq<Invoice>, userId: string, year: int, statusFilter: Option<seq<Status>>, id: CategoryId)
    requires forall i :: 0 <= i < |xs| ==> !(Selected(xs[i], userId, year, statusFilter) && xs[i].category == id)
    ensures Used(xs, userId, year, statusFilter, id) == 0
  {
    if xs != [] {
      UnusedCategoryIsZero(xs[1..], userId, year, statusFilter, id);
    }
  }

  /** Each entry's `used` is the reference spend of its category. */
  lemma InvoiceDataUsed(l: Ledger, userId: string, year: int, statusFilter: Option<seq<Status>>, k: int)
    requires 0 <= k < |l.categories|
    ensures var r := GetInvoiceData(l, userId, year, statusFilter).categories;
            |r| == |l.categories| && r[k].used == Used(l.invoices, userId, year, statusFilter, r[k].category)
  {
    var r := GetInvoiceData(l, userId, year, statusFilter).categories;
    UsedIsSelectedSpend(l.invoices, userId, year, statusFilter, r[k].category);
  }

  // ---------------------------------------------------------------------
  // The report

  /** `member?.email` as `join` prints it: the email of the first member
      with that id, or the empty text when there is none. */
  function EmailOf(members: seq<Member>, userId: string): string
  {
    match FindFirst(members, (m: Member) => m.id == userId)
    case None => ""
    case Some(k) => members[k].email
  }

  function HeaderFields(): seq<string>
  {
    ["Email", "Amount", "Status", "Created At", "Description"]
  }

  /** The fields of one row; `iso` is `Date.prototype.toISOString` on the
      creation time in milliseconds. */
  function RowFields(inv: Invoice, members: seq<Member>, iso: int -> string): seq<string>
  {
    [EmailOf(members, inv.userId), IntToString(inv.amount), StatusName(inv.status), iso(inv.createdAt.millis), inv.description]
  }

  predicate InRange(inv: Invoice, start: int, end: int)
  {
    start <= inv.createdAt.millis <= end
  }

  /** The rows of the report: the invoices created between `start` and
      `end` inclusive, newest first. */
  function ReportInvoices(xs: seq<Invoice>, start: int, end: int): seq<Invoice>
  {
    SortBy(Filter(xs, (inv: Invoice) => InRange(inv, start, end)), (inv: Invoice) => -inv.createdAt.millis)
  }

  function ReportLines(sel: seq<Invoice>, members: seq<Member>, iso: int -> string): seq<string>
  {
    [Join(HeaderFields(), ",")] + seq(|sel|, (k: int) requires 0 <= k < |sel| => Join(RowFields(sel[k], members, iso), ","))
  }

  /** `GenerateReportHandler.execute`; `start` and `end` are the parsed
      bounds in milliseconds and `members` is what the directory returns. */
  function GenerateReport(xs: seq<Invoice>, members: seq<Member>, start: int, end: int, iso: int -> string): Result<string>
  {
    if start > end then Err(BadRequest("Start date must be before end date"))
    else Ok(Join(ReportLines(ReportInvoices(xs, start, end), members, iso), "\n"))
  }

  /** The range check: the report fails exactly when start is after end,
      so a single instant (start == end) is accepted. */
  lemma ReportRangeCheck(xs: seq<Invoice>, members: seq<Member>, start: int, end: int, iso: int -> string)
    ensures GenerateReport(xs, members, start, end, iso).Err? <==> start > end
    ensures start > end ==> GenerateReport(xs, members, start, end, iso) == Err(BadRequest("Start date must be before end date"))
  {
  }

  /** The rows are exactly the invoices created in the range, each once,
      newest first. */
  lemma ReportSelection(xs: seq<Invoice>, start: int, end: int)
    ensures var r := ReportInvoices(xs, start, end);
            && (forall i :: 0 <= i < |r| ==> r[i] in xs && start <= r[i].createdAt.millis <= end)
            && (forall j :: 0 <= j < |xs| && start <= xs[j].createdAt.millis <= end ==> xs[j] in r)
            && (forall i, j :: 0 <= i < j < |r| ==> r[i].createdAt.millis >= r[j].createdAt.millis)
            && multiset(r) == multiset(Filter(xs, (inv: Invoice) => InRange(inv, start, end)))
  {
    var f := Filter(xs, (inv: Invoice) => InRange(inv, start, end));
    var r := ReportInvoices(xs, start, end);
    forall i | 0 <= i < |r|
      ensures r[i] in xs && start <= r[i].createdAt.millis <= end
    {
      assert r[i] in multiset(f);
    }
    forall j | 0 <= j < |xs| && start <= xs[j].createdAt.millis <= end
      ensures xs[j] in r
    {
      assert xs[j] in multiset(r);
    }
  }

  /** A join starts with its first part. */
  lemma {:induction false} JoinStartsWithFirst(parts: seq<string>, sep: string)
    requires |parts| >= 1
    ensures parts[0] <= Join(parts, sep)
  {
  }

  /** The report starts with the header line. */
  lemma ReportStartsWithHeader(xs: seq<Invoice>, members: seq<Member>, start: int, end: int, iso: int -> string)
    requires start <= end
    ensures "Email,Amount,Status,Created At,Description" <= GenerateReport(xs, members, start, end, iso).value
  {
    var lines := ReportLines(ReportInvoices(xs, start, end), members, iso);
    JoinStartsWithFirst(lines, "\n");
    HeaderLine();
  }

  lemma StatusNameChars(s: Status, ch: char)
    requires ch == ',' || ch == '\n'
    ensures ch !in StatusName(s)
  {
  }

  /** A row line holds no newline when neither the email, the description
      nor the timestamp text does. */
  lemma RowHasNoNewline(inv: Invoice, members: seq<Member>, iso: int -> string)
    requires '\n' !in inv.description && '\n' !in iso(inv.createdAt.millis)
    requires forall i :: 0 <= i < |members| ==> '\n' !in members[i].email
    ensures '\n' !in Join(RowFields(inv, members, iso), ",")
  {
    IntToStringChars(inv.amount, '\n');
    StatusNameChars(inv.status, '\n');
    JoinChars(RowFields(inv, members, iso), ",", '\n');
  }

  /** One line per selected invoice after the header, in row order: split
      on newlines, the report is the header line followed by the row lines,
      provided no field holds a newline. Nothing is quoted and there is no
      trailing newline. */
  lemma ReportLineStructure(xs: seq<Invoice>, members: seq<Member>, start: int, end: int, iso: int -> string)
    requires start <= end
    requires forall i :: 0 <= i < |xs| ==> '\n' !in xs[i].description
    requires forall i :: 0 <= i < |members| ==> '\n' !in members[i].email
    requires forall t :: '\n' !in iso(t)
    ensures var sel := ReportInvoices(xs, start, end);
            var lines := Split(GenerateReport(xs, members, start, end, iso).value, '\n');
            && |lines| == |sel| + 1
            && lines[0] == "Email,Amount,Status,Created At,Description"
            && forall k :: 0 <= k < |sel| ==> lines[k + 1] == Join(RowFields(sel[k], members, iso), ",")
  {
    var sel := ReportInvoices(xs, start, end);
    SelectedDescriptions(xs, start, end);
    SplitReportLines(sel, members, iso);
  }

  /** The rows' descriptions come from the table. */
  lemma SelectedDescriptions(xs: seq<Invoice>, start: int, end: int)
    requires forall i :: 0 <= i < |xs| ==> '\n' !in xs[i].description
    ensures var sel := ReportInvoices(xs, start, end);
            forall i :: 0 <= i < |sel| ==> '\n' !in sel[i].description
  {
    var sel := ReportInvoices(xs, start, end);
    ReportSelection(xs, start, end);
    forall i | 0 <= i < |sel|
      ensures '\n' !in sel[i].description
    {
      assert sel[i] in xs;
    }
  }

  lemma SplitReportLines(sel: seq<Invoice>, members: seq<Member>, iso: int -> string)
    requires forall i :: 0 <= i < |sel| ==> '\n' !in sel[i].description
    requires forall i :: 0 <= i < |members| ==> '\n' !in members[i].email
    requires forall t :: '\n' !in iso(t)
    ensures var lines := Split(Join(ReportLines(sel, members, iso), "\n"), '\n');
            && |lines| == |sel| + 1
            && lines[0] == "Email,Amount,Status,Created At,Description"
            && forall k :: 0 <= k < |sel| ==> lines[k + 1] == Join(RowFields(sel[k], members, iso), ",")
  {
    var lines := ReportLines(sel, members, iso);
    LinesHaveNoNewline(sel, members, iso);
    SplitJoin(lines, '\n');
    assert Split(Join(lines, "\n"), '\n') == lines;
    HeaderLine();
  }

  lemma HeaderLine()
    ensures Join(HeaderFields(), ",") == "Email,Amount,Status,Created At,Description"
  {
    var h := HeaderFields();
    assert h[4..] == ["Description"];
    assert h[3..][1..] == h[4..];
    assert h[2..][1..] == h[3..];
    assert h[1..][1..] == h[2..];
    var d := Join(h[4..], ",");
    assert d == "Description";
    var c := Join(h[3..], ",");
    assert c == "Created At" + "," + d;
    var b := Join(h[2..], ",");
    assert b == "Status" + "," + c;
    var a := Join(h[1..], ",");
    assert a == "Amount" + "," + b;
    assert Join(h, ",") == "Email" + "," + a;
  }

  lemma LinesHaveNoNewline(sel: seq<Invoice>, members: seq<Member>, iso: int -> string)
    requires forall i :: 0 <= i < |sel| ==> '\n' !in sel[i].description
    requires forall i :: 0 <= i < |members| ==> '\n' !in members[i].email
    requires forall t :: '\n' !in iso(t)
    ensures var lines := ReportLines(sel, members, iso);
            forall i :: 0 <= i < |lines| ==> '\n' !in lines[i]
  {
    var lines := ReportLines(sel, members, iso);
    forall i | 0 <= i < |lines|
      ensures '\n' !in lines[i]
    {
      if i == 0 {
        JoinChars(HeaderFields(), ",", '\n');
      } else {
        RowHasNoNewline(sel[i - 1], members, iso);
      }
    }
  }

  /** Each row splits back into its five fields (email, amount, status,
      creation time, description) when none of them holds a comma; the
      amount field reads back as the amount. */
  lemma RowFieldStructure(inv: Invoice, members: seq<Member>, iso: int -> string)
    requires ',' !in inv.description && ',' !in iso(inv.createdAt.millis)
    requires ',' !in EmailOf(members, inv.userId)
    ensures var fields := Split(Join(RowFields(inv, members, iso), ","), ',');
            && |fields| == 5
            && fields[0] == EmailOf(members, inv.userId)
            && ParseInt(fields[1]) == inv.amount
            && fields[2] == StatusName(inv.status)
            && fields[3] == iso(inv.createdAt.millis)
            && fields[4] == inv.description
  {
    IntToStringChars(inv.amount, ',');
    StatusNameChars(inv.status, ',');
    SplitJoin(RowFields(inv, members, iso), ',');
    ParseIntToString(inv.amount);
  }

  /** An invoice whose owner the directory does not return gets an empty
      email: its row line starts with the separator. */
  lemma MissingMemberEmptyEmail(inv: Invoice, members: seq<Member>, iso: int -> string)
    requires forall i :: 0 <= i < |members| ==> members[i].id != inv.userId
    ensures EmailOf(members, inv.userId) == ""
    ensures Join(RowFields(inv, members, iso), ",")[0] == ','
  {
  }

  /** Fields are not escaped: a description holding a comma yields a row
      that splits into six pieces instead of five. */
  lemma UnescapedCommaSplitsField(members: seq<Member>, iso: int -> string)
    requires forall t :: ',' !in iso(t)
    requires members == []
    ensures var inv := Invoice("i", "u", Sport, 5, Paid, "a,b", None, Instant(2025, 0));
            |Split(Join(RowFields(inv, members, iso), ","), ',')| == 6
  {
    var inv := Invoice("i", "u", Sport, 5, Paid, "a,b", None, Instant(2025, 0));
    var pieces := ["", "5", "PAID", iso(0), "a", "b"];
    var fields := RowFields(inv, members, iso);
    assert IntToString(5) == "5";
    assert fields == pieces[..4] + ["a,b"];
    assert Join(pieces[4..], ",") == "a,b" by { assert pieces[5..] == ["b"]; }
    assert Join(fields[3..], ",") == Join(pieces[3..], ",") by {
      assert fields[4..] == ["a,b"];
      assert fields[3..][1..] == fields[4..];
      assert pieces[3..][1..] == pieces[4..];
    }
    assert Join(fields[2..], ",") == Join(pieces[2..], ",") by {
      assert fields[2..][1..] == fields[3..];
      assert pieces[2..][1..] == pieces[3..];
    }
    assert Join(fields[1..], ",") == Join(pieces[1..], ",") by {
      assert fields[1..][1..] == fields[2..];
      assert pieces[1..][1..] == pieces[2..];
    }
    assert Join(fields, ",") == Join(pieces, ",");
    SplitJoin(pieces, ',');
  }
}
