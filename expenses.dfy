/** The command handlers of the expenses service: creating an invoice
    under the category limit, changing a category limit (with its cascade
    rejection), changing an invoice status and deleting an invoice. The
    invoice and category tables are the fields of `ExpensesDatabase`; each
    handler is a method proved against a transition function on a
    `Ledger` value, and the rules are lemmas about those functions. */
module Expenses {
  import opened Common
  import opened InvoiceLedger

  /** The contents of the invoice and category tables. */
  datatype Ledger = Ledger(invoices: seq<Invoice>, categories: seq<Category>)

  /** The fields a client sends to create an invoice (`CreateInvoiceDto`). */
  datatype CreateInvoiceDto = CreateInvoiceDto(
    amount: int,
    status: Status,
    description: string,
    attachmentUrl: Option<string>,
    category: CategoryId)

  /** No two invoices share a primary key. */
  predicate UniqueIds(xs: seq<Invoice>)
  {
    forall i, j :: 0 <= i < j < |xs| ==> xs[i].id != xs[j].id
  }

  /** Primary keys are unique in both tables. */
  ghost predicate ValidLedger(l: Ledger)
  {
    && UniqueIds(l.invoices)
    && (forall i, j :: 0 <= i < j < |l.categories| ==> l.categories[i].id != l.categories[j].id)
  }

  function InvoiceIndex(xs: seq<Invoice>, id: string): Option<nat>
  {
    FindFirst(xs, (inv: Invoice) => inv.id == id)
  }

  function CategoryIndex(cs: seq<Category>, id: CategoryId): Option<nat>
  {
    FindFirst(cs, (c: Category) => c.id == id)
  }

  /** The invoices created in `year` (the repository's year filter). */
  function InvoicesOfYear(xs: seq<Invoice>, year: int): seq<Invoice>
  {
    Filter(xs, (inv: Invoice) => inv.createdAt.year == year)
  }

  /** The invoices of one category created in `year`. */
  function CategoryInvoices(xs: seq<Invoice>, id: CategoryId, year: int): seq<Invoice>
  {
    Filter(xs, (inv: Invoice) => inv.createdAt.year == year && inv.category == id)
  }

  /** Committed spend of one category in one year: the budget the
      category limit is meant to cap. */
  function CategorySpend(xs: seq<Invoice>, id: CategoryId, year: int): int
  {
    SumPaidInvoices(CategoryInvoices(xs, id, year))
  }

  // ---------------------------------------------------------------------
  // Creating an invoice

  /** The admission decision of the create-invoice handler: the category
      must exist, and the committed spend of ALL invoices created this year
      (every user, every category) plus the new amount must stay strictly
      below the limit of the invoice's category. */
  function Admit(l: Ledger, category: CategoryId, amount: int, year: int): Outcome
  {
    match CategoryIndex(l.categories, category)
    case None => Fail(NotFound("CategoryEntity"))
    case Some(k) =>
      if SumPaidInvoices(InvoicesOfYear(l.invoices, year)) + amount >= l.categories[k].limit
      then Fail(BadRequest("The limit is exceeded"))
      else Pass
  }

  /** The row the handler saves: the DTO fields as given (its status
      included), the caller's id, a fresh key and the creation time. */
  function StoredInvoice(dto: CreateInvoiceDto, userId: string, id: string, now: Instant): Invoice
  {
    Invoice(id, userId, dto.category, dto.amount, dto.status, dto.description, dto.attachmentUrl, now)
  }

  /** Admission is exactly the comparison against the limit: an unknown
      category is not found, and an amount that reaches the limit exactly
      is refused. */
  lemma {:induction false} AdmitCases(l: Ledger, category: CategoryId, amount: int, year: int)
    ensures Admit(l, category, amount, year).Fail? && Admit(l, category, amount, year).error.NotFound?
        <==> forall i :: 0 <= i < |l.categories| ==> l.categories[i].id != category
    ensures Admit(l, category, amount, year) == Pass
        <==> exists i :: 0 <= i < |l.categories| && l.categories[i].id == category
               && CategoryIndex(l.categories, category) == Some(i)
               && SumPaidInvoices(InvoicesOfYear(l.invoices, year)) + amount < l.categories[i].limit
    ensures Admit(l, category, amount, year) == Pass
        || Admit(l, category, amount, year) == Fail(NotFound("CategoryEntity"))
        || Admit(l, category, amount, year) == Fail(BadRequest("The limit is exceeded"))
    ensures (exists i :: 0 <= i < |l.categories| && l.categories[i].id == category) ==>
              (Admit(l, category, amount, year) == Fail(BadRequest("The limit is exceeded"))
               <==> SumPaidInvoices(InvoicesOfYear(l.invoices, year)) + amount
                    >= l.categories[CategoryIndex(l.categories, category).value].limit)
  {
    var r := CategoryIndex(l.categories, category);
    if r.Some? {
      var k := r.value;
      assert l.categories[k].id == category;
    }
  }

  /** Budget ceiling: after an admitted creation with non-negative amounts,
      both the committed spend of the year and that of the invoice's
      category stay strictly below the category limit. */
  lemma {:induction false} AdmittedStaysBelowLimit(l: Ledger, dto: CreateInvoiceDto, userId: string, id: string, now: Instant)
    requires Admit(l, dto.category, dto.amount, now.year) == Pass
    requires NonNegativeAmounts(l.invoices) && dto.amount >= 0
    ensures CategoryIndex(l.categories, dto.category).Some?
    ensures var limit := l.categories[CategoryIndex(l.categories, dto.category).value].limit;
            var after := l.invoices + [StoredInvoice(dto, userId, id, now)];
            && SumPaidInvoices(InvoicesOfYear(after, now.year)) < limit
            && CategorySpend(after, dto.category, now.year) < limit
  {
    var inv := StoredInvoice(dto, userId, id, now);
    var after := l.invoices + [inv];
    var yearOf := (x: Invoice) => x.createdAt.year == now.year;
    FilterAppend(l.invoices, [inv], yearOf);
    assert Filter([inv], yearOf) == [inv];
    SumPaidAppend(InvoicesOfYear(l.invoices, now.year), [inv]);
    SumPaidBase(inv);
    assert NonNegativeAmounts(after);
    SumPaidFilterImplies(after,
      (x: Invoice) => x.createdAt.year == now.year && x.category == dto.category, yearOf);
  }

  /** The check is stricter than a per-category budget: with 300 already
      committed in MEDICINE this year, an EDUCATION invoice of 50 against an
      EDUCATION limit of 350 is refused although EDUCATION has spent nothing. */
  lemma GlobalSumRefusesWithinCategoryBudget()
    ensures var l := Ledger(
              [Invoice("a", "u", Medicine, 300, Paid, "", None, Instant(2025, 0))],
              [Category(Education, 350, 0), Category(Medicine, 1000, 1)]);
            && CategorySpend(l.invoices, Education, 2025) + 50 < 350
            && Admit(l, Education, 50, 2025) == Fail(BadRequest("The limit is exceeded"))
  {
    var inv := Invoice("a", "u", Medicine, 300, Paid, "", None, Instant(2025, 0));
    var l := Ledger([inv], [Category(Education, 350, 0), Category(Medicine, 1000, 1)]);
    assert InvoicesOfYear(l.invoices, 2025) == [inv];
    assert CategoryInvoices(l.invoices, Education, 2025) == [];
    SumPaidBase(inv);
  }

  // ---------------------------------------------------------------------
  // Changing a category limit

  predicate IsPending(s: Status)
  {
    s == WaitingApproval || s == InProgress
  }

  /** The loop body of the limit handler applied to one invoice: a pending
      invoice of this category created this year becomes rejected. */
  function CascadeOne(inv: Invoice, id: CategoryId, year: int): Invoice
  {
    if inv.category == id && inv.createdAt.year == year && IsPending(inv.status)
    then inv.(status := Rejected)
    else inv
  }

  /** The cascade over the whole invoice list. */
  function CascadeReject(xs: seq<Invoice>, id: CategoryId, year: int): (r: seq<Invoice>)
    ensures |r| == |xs|
  {
    if xs == [] then [] else [CascadeOne(xs[0], id, year)] + CascadeReject(xs[1..], id, year)
  }

  /** What the cascade does to each invoice: pending invoices of the
      category from `year` become rejected; paid, rejected, other-year and
      other-category invoices keep their status; no other field changes. */
  lemma {:induction false} CascadeRejectAt(xs: seq<Invoice>, id: CategoryId, year: int, i: int)
    requires 0 <= i < |xs|
    ensures CascadeReject(xs, id, year)[i] == CascadeOne(xs[i], id, year)
    ensures CascadeReject(xs, id, year)[i].status ==
            if xs[i].category == id && xs[i].createdAt.year == year && IsPending(xs[i].status)
            then Rejected else xs[i].status
    ensures CascadeReject(xs, id, year)[i] == xs[i].(status := CascadeReject(xs, id, year)[i].status)
  {
    if i > 0 {
      CascadeRejectAt(xs[1..], id, year, i - 1);
    }
  }

  /** Rejecting twice rejects nothing more. */
  lemma {:induction false} CascadeIdempotent(xs: seq<Invoice>, id: CategoryId, year: int)
    ensures CascadeReject(CascadeReject(xs, id, year), id, year) == CascadeReject(xs, id, year)
  {
    if xs != [] {
      CascadeIdempotent(xs[1..], id, year);
    }
  }

  /** Committed spend of the paid invoices of one category in one year. */
  function PaidSpend(xs: seq<Invoice>, id: CategoryId, year: int): int
  {
    SumPaidInvoices(Filter(xs, (inv: Invoice) => inv.createdAt.year == year && inv.category == id && inv.status == Paid))
  }

  /** After the cascade, the committed spend of the category this year is
      exactly what it had already paid: nothing pending is left to count. */
  lemma {:induction false} CascadeLeavesPaidSpend(xs: seq<Invoice>, id: CategoryId, year: int)
    ensures CategorySpend(CascadeReject(xs, id, year), id, year) == PaidSpend(xs, id, year)
  {
    if xs != [] {
      var x := xs[0];
      var c := CascadeOne(x, id, year);
      CascadeLeavesPaidSpend(xs[1..], id, year);
      assert CascadeReject(xs, id, year) == [c] + CascadeReject(xs[1..], id, year);
      assert xs == [x] + xs[1..];
      SumPaidFilterCons(c, CascadeReject(xs[1..], id, year),
        (inv: Invoice) => inv.createdAt.year == year && inv.category == id);
      SumPaidFilterCons(x, xs[1..],
        (inv: Invoice) => inv.createdAt.year == year && inv.category == id && inv.status == Paid);
      CascadeOneContribution(x, id, year);
    }
  }

  /** What one invoice adds to the category's spend after the cascade is
      what it adds to the paid spend before it. */
  lemma CascadeOneContribution(x: Invoice, id: CategoryId, year: int)
    ensures var c := CascadeOne(x, id, year);
            (if c.createdAt.year == year && c.category == id then Contribution(c) else 0)
            == (if x.createdAt.year == year && x.category == id && x.status == Paid then Contribution(x) else 0)
  {
  }

  /** The limit handler as a transition: an unknown category is not found;
      otherwise the limit is written and, on a strict decrease only, the
      cascade rejects this year's pending invoices of the category. */
  function ApplyUpdateCategoryLimit(l: Ledger, id: CategoryId, newLimit: int, year: int): Result<Ledger>
  {
    match CategoryIndex(l.categories, id)
    case None => Err(NotFound("CategoryEntity"))
    case Some(k) =>
      var current := l.categories[k];
      Ok(Ledger(
        if current.limit > newLimit then CascadeReject(l.invoices, id, year) else l.invoices,
        l.categories[k := current.(limit := newLimit)]))
  }

  /** A limit change for an unknown category is not found. */
  lemma UnknownCategoryLimit(l: Ledger, id: CategoryId, newLimit: int, year: int)
    requires forall k :: 0 <= k < |l.categories| ==> l.categories[k].id != id
    ensures ApplyUpdateCategoryLimit(l, id, newLimit, year) == Err(NotFound("CategoryEntity"))
  {
    assert CategoryIndex(l.categories, id).None?;
  }

  /** Changing the stored limit does not move the category in the list. */
  lemma {:induction false} CategoryIndexAfterLimit(cs: seq<Category>, k: nat, id: CategoryId, newLimit: int)
    requires CategoryIndex(cs, id) == Some(k)
    ensures CategoryIndex(cs[k := cs[k].(limit := newLimit)], id) == Some(k)
  {
    var cs' := cs[k := cs[k].(limit := newLimit)];
    var r := CategoryIndex(cs', id);
    assert cs'[k].id == id;
    if r.Some? {
      assert r.value <= k;
    }
  }

  /** Applying the same new limit twice leaves the same state as once:
      the second call sees no decrease and only rewrites the same limit. */
  lemma UpdateLimitIdempotent(l: Ledger, id: CategoryId, newLimit: int, year: int)
    requires ApplyUpdateCategoryLimit(l, id, newLimit, year).Ok?
    ensures var once := ApplyUpdateCategoryLimit(l, id, newLimit, year).value;
            ApplyUpdateCategoryLimit(once, id, newLimit, year) == Ok(once)
  {
    var k := CategoryIndex(l.categories, id).value;
    var once := ApplyUpdateCategoryLimit(l, id, newLimit, year).value;
    CategoryIndexAfterLimit(l.categories, k, id, newLimit);
    assert once.categories[k].limit == newLimit;
    assert once.categories[k := once.categories[k].(limit := newLimit)] == once.categories;
  }

  /** A raised or unchanged limit rejects nothing; a lowered one rejects
      exactly as the cascade says. In both cases the limit is the new one. */
  lemma UpdateLimitEffect(l: Ledger, id: CategoryId, newLimit: int, year: int)
    requires CategoryIndex(l.categories, id).Some?
    ensures var k := CategoryIndex(l.categories, id).value;
            var r := ApplyUpdateCategoryLimit(l, id, newLimit, year);
            && r.Ok?
            && r.value.categories[k].limit == newLimit
            && |r.value.categories| == |l.categories|
            && (forall j :: 0 <= j < |l.categories| && j != k ==> r.value.categories[j] == l.categories[j])
            && (newLimit >= l.categories[k].limit ==> r.value.invoices == l.invoices)
            && (newLimit < l.categories[k].limit ==> r.value.invoices == CascadeReject(l.invoices, id, year))
  {
  }

  // ---------------------------------------------------------------------
  // Changing an invoice status

  /** The status handler as a transition: not found, then the role check
      (every role but USER passes), then the paid check; otherwise the
      status becomes the requested one, whatever it was before. */
  function ApplyUpdateInvoiceStatus(l: Ledger, invoiceId: string, status: Status, role: Role): Result<Ledger>
  {
    match InvoiceIndex(l.invoices, invoiceId)
    case None => Err(NotFound("InvoiceEntity"))
    case Some(k) =>
      if role == User then Err(Forbidden("No access"))
      else if l.invoices[k].status == Paid then Err(BadRequest("Cannot change status of the paid invoice"))
      else Ok(l.(invoices := l.invoices[k := l.invoices[k].(status := status)]))
  }

  /** With unique ids, a status change succeeds exactly when the invoice
      exists, the caller is not a USER and the invoice is not paid; a USER is
      refused before the paid check is made. A rejected invoice can be reopened. */
  lemma {:induction false} UpdateStatusCases(l: Ledger, i: int, status: Status, role: Role)
    requires ValidLedger(l)
    requires 0 <= i < |l.invoices|
    ensures var r := ApplyUpdateInvoiceStatus(l, l.invoices[i].id, status, role);
            && (r.Ok? <==> role != User && l.invoices[i].status != Paid)
            && (role == User ==> r == Err(Forbidden("No access")))
            && (role != User && l.invoices[i].status == Paid ==>
                  r == Err(BadRequest("Cannot change status of the paid invoice")))
            && (r.Ok? ==> r.value.invoices == l.invoices[i := l.invoices[i].(status := status)]
                          && r.value.categories == l.categories)
  {
    var k := InvoiceIndex(l.invoices, l.invoices[i].id).value;
    assert k == i;
  }

  /** An id that matches no stored invoice is not found. */
  lemma UnknownInvoiceStatus(l: Ledger, invoiceId: string, status: Status, role: Role)
    requires forall i :: 0 <= i < |l.invoices| ==> l.invoices[i].id != invoiceId
    ensures ApplyUpdateInvoiceStatus(l, invoiceId, status, role) == Err(NotFound("InvoiceEntity"))
  {
    assert InvoiceIndex(l.invoices, invoiceId).None?;
  }

  /** A paid invoice is final: every later status change fails, whoever asks. */
  lemma {:induction false} PaidIsFinal(l: Ledger, i: int, status: Status, role: Role)
    requires ValidLedger(l)
    requires 0 <= i < |l.invoices| && l.invoices[i].status == Paid
    ensures ApplyUpdateInvoiceStatus(l, l.invoices[i].id, status, role).Err?
    ensures role != User ==>
              ApplyUpdateInvoiceStatus(l, l.invoices[i].id, status, role)
              == Err(BadRequest("Cannot change status of the paid invoice"))
  {
    UpdateStatusCases(l, i, status, role);
  }

  // ---------------------------------------------------------------------
  // Deleting an invoice

  /** The access rule of the delete handler: ADMIN or MANAGER, or the owner. */
  predicate MayDelete(role: Role, userId: string, inv: Invoice)
  {
    role == Admin || role == Manager || userId == inv.userId
  }

  /** The delete handler as a transition: not found, then the processed
      check, then the access check; otherwise the row with that key goes. */
  function ApplyDeleteInvoice(l: Ledger, invoiceId: string, userId: string, role: Role): Result<Ledger>
  {
    match InvoiceIndex(l.invoices, invoiceId)
    case None => Err(NotFound("InvoiceEntity"))
    case Some(k) =>
      var inv := l.invoices[k];
      if !IsPending(inv.status) then Err(BadRequest("The invoice was processed and cannot be deleted"))
      else if !MayDelete(role, userId, inv) then Err(Forbidden("No access"))
      else Ok(l.(invoices := Filter(l.invoices, (x: Invoice) => x.id != invoiceId)))
  }

  /** Deleting an id that matches no stored invoice is not found. */
  lemma UnknownInvoiceDelete(l: Ledger, invoiceId: string, userId: string, role: Role)
    requires forall i :: 0 <= i < |l.invoices| ==> l.invoices[i].id != invoiceId
    ensures ApplyDeleteInvoice(l, invoiceId, userId, role) == Err(NotFound("InvoiceEntity"))
  {
    assert InvoiceIndex(l.invoices, invoiceId).None?;
  }

  /** Everything a filter keeps from the tail has a key other than the head's. */
  lemma FilterTailKeys(xs: seq<Invoice>, p: Invoice -> bool)
    requires xs != [] && UniqueIds(xs)
    ensures forall b :: 0 <= b < |Filter(xs[1..], p)| ==> Filter(xs[1..], p)[b].id != xs[0].id
  {
    var rest := Filter(xs[1..], p);
    forall b | 0 <= b < |rest|
      ensures rest[b].id != xs[0].id
    {
      assert rest[b] in xs[1..];
      var k :| 0 <= k < |xs| - 1 && xs[1..][k] == rest[b];
      assert xs[k + 1] == rest[b];
    }
  }

  /** Filtering keeps keys unique. */
  lemma {:induction false} FilterKeepsUniqueIds(xs: seq<Invoice>, p: Invoice -> bool)
    requires UniqueIds(xs)
    ensures UniqueIds(Filter(xs, p))
  {
    if xs != [] {
      assert UniqueIds(xs[1..]);
      FilterKeepsUniqueIds(xs[1..], p);
      var rest := Filter(xs[1..], p);
      if p(xs[0]) {
        FilterTailKeys(xs, p);
        var r := Filter(xs, p);
        assert r == [xs[0]] + rest;
        forall a, b | 0 <= a < b < |r|
          ensures r[a].id != r[b].id
        {
          assert r[b] == rest[b - 1];
          if a > 0 {
            assert r[a] == rest[a - 1];
          }
        }
      } else {
        assert Filter(xs, p) == rest;
      }
    }
  }

  /** Removing by a unique key removes exactly that row. */
  lemma {:induction false} FilterOutUniqueId(xs: seq<Invoice>, i: int)
    requires 0 <= i < |xs|
    requires UniqueIds(xs)
    ensures Filter(xs, (x: Invoice) => x.id != xs[i].id) == xs[..i] + xs[i + 1..]
  {
    var a, b := xs[..i], xs[i + 1..];
    assert xs == a + [xs[i]] + b;
    forall j | 0 <= j < |a|
      ensures a[j].id != xs[i].id
    {
      assert a[j] == xs[j];
    }
    forall j | 0 <= j < |b|
      ensures b[j].id != xs[i].id
    {
      assert b[j] == xs[i + 1 + j];
    }
    FilterRemovesOne(a, xs[i], b, (x: Invoice) => x.id != xs[i].id);
  }

  /** Deletion guard: with unique ids, deleting succeeds exactly when the
      invoice is still pending and the caller is ADMIN, MANAGER or its owner
      (a BOOKKEEPER who does not own it is refused); a processed invoice is
      refused as processed before access is checked; a successful deletion
      removes that invoice and keeps every other in order. */
  lemma {:induction false} DeleteCases(l: Ledger, i: int, userId: string, role: Role)
    requires ValidLedger(l)
    requires 0 <= i < |l.invoices|
    ensures var inv := l.invoices[i];
            var r := ApplyDeleteInvoice(l, inv.id, userId, role);
            && (r.Ok? <==> IsPending(inv.status) && MayDelete(role, userId, inv))
            && (!IsPending(inv.status) ==> r == Err(BadRequest("The invoice was processed and cannot be deleted")))
            && (r.Ok? ==> r.value.invoices == l.invoices[..i] + l.invoices[i + 1..]
                          && r.value.categories == l.categories)
  {
    var k := InvoiceIndex(l.invoices, l.invoices[i].id).value;
    assert k == i;
    FilterOutUniqueId(l.invoices, i);
  }

  // ---------------------------------------------------------------------
  // The tables, updated in place

  class ExpensesDatabase {
    var invoices: seq<Invoice>
    var categories: seq<Category>

    function Snapshot(): Ledger
      reads this
    {
      Ledger(invoices, categories)
    }

    ghost predicate Valid()
      reads this
    {
      ValidLedger(Snapshot())
    }

    constructor (l: Ledger)
      requires ValidLedger(l)
      ensures Valid() && Snapshot() == l
    {
      invoices := l.invoices;
      categories := l.categories;
    }

    /** `CreateInvoiceHandler.execute`; `now` is the clock reading and
        `newId` the key the database generates. */
    method CreateInvoice(dto: CreateInvoiceDto, userId: string, newId: string, now: Instant) returns (res: Outcome)
      requires Valid()
      requires forall i :: 0 <= i < |invoices| ==> invoices[i].id != newId
      modifies this
      ensures Valid()
      ensures res == Admit(old(Snapshot()), dto.category, dto.amount, now.year)
      ensures categories == old(categories)
      ensures invoices == if res.Pass? then old(invoices) + [StoredInvoice(dto, userId, newId, now)]
                          else old(invoices)
    {
      var k := CategoryIndex(categories, dto.category);
      if k.None? {
        return Fail(NotFound("CategoryEntity"));
      }
      var totalPaid := SumPaidInvoices(InvoicesOfYear(invoices, now.year));
      if totalPaid + dto.amount >= categories[k.value].limit {
        return Fail(BadRequest("The limit is exceeded"));
      }
      invoices := invoices + [StoredInvoice(dto, userId, newId, now)];
      res := Pass;
    }

    /** `UpdateCategoryLimitHandler.execute`: the cascade loop rewrites
        statuses in place, then the limit is written. */
    method UpdateCategoryLimit(id: CategoryId, newLimit: int, currentYear: int) returns (res: Outcome)
      requires Valid()
      modifies this
      ensures Valid()
      ensures var r := ApplyUpdateCategoryLimit(old(Snapshot()), id, newLimit, currentYear);
              res == OutcomeOf(r) && Snapshot() == if r.Ok? then r.value else old(Snapshot())
    {
      var found := CategoryIndex(categories, id);
      if found.None? {
        return Fail(NotFound("CategoryEntity"));
      }
      var k := found.value;
      if categories[k].limit > newLimit {
        var i := 0;
        while i < |invoices|
          invariant 0 <= i <= |invoices| == |old(invoices)|
          invariant forall j :: 0 <= j < i ==> invoices[j] == CascadeOne(old(invoices)[j], id, currentYear)
          invariant forall j :: i <= j < |invoices| ==> invoices[j] == old(invoices)[j]
          invariant categories == old(categories)
        {
          var inv := invoices[i];
          var isThisYearInvoice := inv.createdAt.year == currentYear;
          var isNotPaid := inv.status == WaitingApproval || inv.status == InProgress;
          if inv.category == id && isThisYearInvoice && isNotPaid {
            invoices := invoices[i := inv.(status := Rejected)];
          }
          i := i + 1;
        }
        forall j | 0 <= j < |invoices|
          ensures invoices[j] == CascadeReject(old(invoices), id, currentYear)[j]
        {
          CascadeRejectAt(old(invoices), id, currentYear, j);
        }
      }
      categories := categories[k := categories[k].(limit := newLimit)];
      res := Pass;
    }

    /** `UpdateInvoiceStatusHandler.execute`. */
    method UpdateInvoiceStatus(invoiceId: string, status: Status, user: UserData) returns (res: Outcome)
      requires Valid()
      modifies this
      ensures Valid()
      ensures var r := ApplyUpdateInvoiceStatus(old(Snapshot()), invoiceId, status, user.role);
              res == OutcomeOf(r) && Snapshot() == if r.Ok? then r.value else old(Snapshot())
    {
      var found := InvoiceIndex(invoices, invoiceId);
      if found.None? {
        return Fail(NotFound("InvoiceEntity"));
      }
      var k := found.value;
      var isAdmin := user.role != User;
      if !isAdmin {
        return Fail(Forbidden("No access"));
      }
      if invoices[k].status == Paid {
        return Fail(BadRequest("Cannot change status of the paid invoice"));
      }
      invoices := invoices[k := invoices[k].(status := status)];
      res := Pass;
    }

    /** `DeleteInvoiceHandler.execute`. */
    method DeleteInvoice(invoiceId: string, userId: string, userRole: Role) returns (res: Outcome)
      requires Valid()
      modifies this
      ensures Valid()
      ensures var r := ApplyDeleteInvoice(old(Snapshot()), invoiceId, userId, userRole);
              res == OutcomeOf(r) && Snapshot() == if r.Ok? then r.value else old(Snapshot())
    {
      var found := InvoiceIndex(invoices, invoiceId);
      if found.None? {
        return Fail(NotFound("InvoiceEntity"));
      }
      var invoice := invoices[found.value];
      var invoiceNotProcessed := invoice.status == WaitingApproval || invoice.status == InProgress;
      var isAdmin := userRole == Admin || userRole == Manager;
      var isInvoiceOwner := userId == invoice.userId;
      var hasAccessToInvoice := isAdmin || isInvoiceOwner;
      if !invoiceNotProcessed {
        return Fail(BadRequest("The invoice was processed and cannot be deleted"));
      }
      if !hasAccessToInvoice {
        return Fail(Forbidden("No access"));
      }
      var keep := (x: Invoice) => x.id != invoiceId;
      FilterKeepsUniqueIds(invoices, keep);
      invoices := Filter(invoices, keep);
      res := Pass;
    }
  }
}
