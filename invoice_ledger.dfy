/** The records of the expenses service and `sumPaidInvoices`, the
    definition of committed spend that admission and the dashboard share. */
module InvoiceLedger {
  import opened Common

  datatype Status = Paid | InProgress | Rejected | WaitingApproval

  /** The string value each status has in the `InvoiceStatus` enumeration. */
  function StatusName(s: Status): string
  {
    match s
    case Paid => "PAID"
    case InProgress => "IN_PROGRESS"
    case Rejected => "REJECTED"
    case WaitingApproval => "WAITING_APPROVAL"
  }

  datatype CategoryId = Medicine | Education | Sport

  /** A creation timestamp: milliseconds since the epoch, and the calendar
      year they fall in (computing one from the other is left to the
      platform's date library). */
  datatype Instant = Instant(year: int, millis: int)

  /** An invoice row; `amount` is an integral currency amount. */
  datatype Invoice = Invoice(
    id: string,
    userId: string,
    category: CategoryId,
    amount: int,
    status: Status,
    description: string,
    attachmentUrl: Option<string>,
    createdAt: Instant)

  /** A category row: its annual limit and its position in listings. */
  datatype Category = Category(id: CategoryId, limit: int, order: int)

  /** The status list that `sumPaidInvoices` filters by. */
  predicate IsCommitted(s: Status)
  {
    s == InProgress || s == Paid || s == WaitingApproval
  }

  /** `reduce((sum, invoice) => sum + invoice.amount, acc)`, a left fold. */
  function SumAmounts(xs: seq<Invoice>, acc: int): int
  {
    if xs == [] then acc else SumAmounts(xs[1..], acc + xs[0].amount)
  }

  /** What one invoice adds to committed spend: its amount, unless rejected. */
  function Contribution(inv: Invoice): int
  {
    if inv.status == Rejected then 0 else inv.amount
  }

  /** Committed spend by structural recursion: the reference definition. */
  function Spend(xs: seq<Invoice>): int
  {
    if xs == [] then 0 else Contribution(xs[0]) + Spend(xs[1..])
  }

  /** Folding the amounts of the filtered list gives the reference sum. */
  lemma {:induction false} FoldCommittedIsSpend(xs: seq<Invoice>, acc: int)
    ensures SumAmounts(Filter(xs, (inv: Invoice) => IsCommitted(inv.status)), acc) == acc + Spend(xs)
  {
    var p := (inv: Invoice) => IsCommitted(inv.status);
    if xs != [] {
      FoldCommittedIsSpend(xs[1..], acc + Contribution(xs[0]));
      if p(xs[0]) {
        assert Filter(xs, p) == [xs[0]] + Filter(xs[1..], p);
        assert Filter(xs, p)[1..] == Filter(xs[1..], p);
      } else {
        assert Filter(xs, p) == Filter(xs[1..], p);
      }
    }
  }

  /** `sumPaidInvoices`: keep the committed invoices, then add their amounts.
      The result is committed spend: every invoice counts except a rejected one. */
  function SumPaidInvoices(xs: seq<Invoice>): (r: int)
    ensures r == Spend(xs)
  {
    FoldCommittedIsSpend(xs, 0);
    SumAmounts(Filter(xs, (inv: Invoice) => IsCommitted(inv.status)), 0)
  }

  /** Committed spend is additive over concatenation. */
  lemma {:induction false} SumPaidAppend(a: seq<Invoice>, b: seq<Invoice>)
    ensures SumPaidInvoices(a + b) == SumPaidInvoices(a) + SumPaidInvoices(b)
  {
    if a == [] {
      assert a + b == b;
    } else {
      assert (a + b)[1..] == a[1..] + b;
      SumPaidAppend(a[1..], b);
    }
  }

  /** The empty list sums to 0, and a single invoice adds its amount unless rejected. */
  lemma SumPaidBase(inv: Invoice)
    ensures SumPaidInvoices([]) == 0
    ensures SumPaidInvoices([inv]) == if inv.status == Rejected then 0 else inv.amount
  {
    assert [inv][1..] == [];
  }

  /** Committed spend of a filtered list, one element at a time. */
  lemma SumPaidFilterCons(x: Invoice, xs: seq<Invoice>, p: Invoice -> bool)
    ensures SumPaidInvoices(Filter([x] + xs, p)) ==
            (if p(x) then Contribution(x) else 0) + SumPaidInvoices(Filter(xs, p))
  {
    assert ([x] + xs)[1..] == xs;
    var head := if p(x) then [x] else [];
    assert Filter([x] + xs, p) == head + Filter(xs, p);
    SumPaidAppend(head, Filter(xs, p));
    SumPaidBase(x);
  }

  /** A rejected invoice contributes nothing wherever it stands in the list. */
  lemma RejectedContributesNothing(a: seq<Invoice>, inv: Invoice, b: seq<Invoice>)
    requires inv.status == Rejected
    ensures SumPaidInvoices(a + [inv] + b) == SumPaidInvoices(a + b)
  {
    SumPaidAppend(a + [inv], b);
    SumPaidAppend(a, [inv]);
    SumPaidAppend(a, b);
    SumPaidBase(inv);
  }

  /** Committed spend does not depend on the order of the list. */
  lemma {:induction false} SumPaidPermutation(a: seq<Invoice>, b: seq<Invoice>)
    requires multiset(a) == multiset(b)
    ensures SumPaidInvoices(a) == SumPaidInvoices(b)
    decreases |a|
  {
    if a == [] {
      assert |b| == |multiset(b)| == 0;
    } else {
      var x := a[0];
      assert x in multiset(b) by { assert a == [x] + a[1..]; }
      var i :| 0 <= i < |b| && b[i] == x;
      var rest := b[..i] + b[i + 1..];
      assert b == b[..i] + [x] + b[i + 1..];
      assert multiset(a[1..]) == multiset(rest) by {
        assert a == [x] + a[1..];
        assert multiset(a) == multiset{x} + multiset(a[1..]);
        MultisetRemoveAt(b, i);
        assert multiset(a[1..]) == multiset(a) - multiset{x};
        assert multiset(rest) == multiset(b) - multiset{x};
      }
      SumPaidPermutation(a[1..], rest);
      SumPaidAppend(b[..i] + [x], b[i + 1..]);
      SumPaidAppend(b[..i], [x]);
      SumPaidAppend(b[..i], b[i + 1..]);
      SumPaidBase(x);
    }
  }

  lemma MultisetRemoveAt<T>(b: seq<T>, i: int)
    requires 0 <= i < |b|
    ensures multiset(b) == multiset(b[..i] + b[i + 1..]) + multiset{b[i]}
  {
    assert b == b[..i] + [b[i]] + b[i + 1..];
    assert multiset(b) == multiset(b[..i]) + multiset{b[i]} + multiset(b[i + 1..]);
    assert multiset(b[..i] + b[i + 1..]) == multiset(b[..i]) + multiset(b[i + 1..]);
  }

  predicate NonNegativeAmounts(xs: seq<Invoice>)
  {
    forall i :: 0 <= i < |xs| ==> xs[i].amount >= 0
  }

  /** With non-negative amounts committed spend is non-negative. */
  lemma {:induction false} SumPaidNonNegative(xs: seq<Invoice>)
    requires NonNegativeAmounts(xs)
    ensures SumPaidInvoices(xs) >= 0
  {
    if xs != [] {
      SumPaidNonNegative(xs[1..]);
    }
  }

  /** With non-negative amounts, committed spend of a filtered list is at
      most that of the whole list. */
  lemma {:induction false} SumPaidFilterBound(xs: seq<Invoice>, p: Invoice -> bool)
    requires NonNegativeAmounts(xs)
    ensures SumPaidInvoices(Filter(xs, p)) <= SumPaidInvoices(xs)
  {
    if xs != [] {
      SumPaidFilterBound(xs[1..], p);
      var head := if p(xs[0]) then [xs[0]] else [];
      assert Filter(xs, p) == head + Filter(xs[1..], p);
      SumPaidAppend(head, Filter(xs[1..], p));
      SumPaidBase(xs[0]);
    }
  }

  /** With non-negative amounts, a narrower filter commits no more than a wider one. */
  lemma {:induction false} SumPaidFilterImplies(xs: seq<Invoice>, p: Invoice -> bool, q: Invoice -> bool)
    requires NonNegativeAmounts(xs)
    requires forall x :: p(x) ==> q(x)
    ensures SumPaidInvoices(Filter(xs, p)) <= SumPaidInvoices(Filter(xs, q))
  {
    if xs != [] {
      SumPaidFilterImplies(xs[1..], p, q);
      assert xs == [xs[0]] + xs[1..];
      SumPaidFilterCons(xs[0], xs[1..], p);
      SumPaidFilterCons(xs[0], xs[1..], q);
    }
  }

  /** Appending an invoice with a non-negative amount never lowers committed spend. */
  lemma SumPaidMonotone(xs: seq<Invoice>, inv: Invoice)
    requires inv.amount >= 0
    ensures SumPaidInvoices(xs) <= SumPaidInvoices(xs + [inv])
  {
    SumPaidAppend(xs, [inv]);
    SumPaidBase(inv);
  }
}
