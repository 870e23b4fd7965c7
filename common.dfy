/** Values shared by every service: optional values, the outcome of a
    handler (a thrown HTTP exception becomes an `Err`), the caller roles,
    and the list filter that the handlers apply to repository rows. */
module Common {

  datatype Option<+T> = None | Some(value: T)

  /** The exceptions the handlers throw, with their messages: the HTTP
      exceptions of the framework, and the user service's own exception
      type with an optional status code (absent when none is given). */
  datatype Error =
    | NotFound(message: string)
    | Forbidden(message: string)
    | BadRequest(message: string)
    | Api(message: string, status: Option<int>)

  /** What a handler returns, or the exception it throws. */
  datatype Result<+T> = Ok(value: T) | Err(error: Error)

  /** The outcome of a handler that returns nothing on success. */
  datatype Outcome = Pass | Fail(error: Error)

  /** The caller roles of `UserRole`. */
  datatype Role = Admin | User | Manager | Bookkeeper

  /** The caller identity that the authentication layer attaches to a request. */
  datatype UserData = UserData(id: string, role: Role)

  /** A user as the user directory returns it to the other services. */
  datatype Member = Member(id: string, email: string)

  /** The string value each role has in the `UserRole` enumeration. */
  function RoleName(r: Role): string
  {
    match r
    case Admin => "ADMIN"
    case User => "USER"
    case Manager => "MANAGER"
    case Bookkeeper => "BOOKKEEPER"
  }

  /** `xs.filter(p)`: the elements satisfying `p`, in their original order. */
  function Filter<T>(xs: seq<T>, p: T -> bool): (r: seq<T>)
    ensures |r| <= |xs|
    ensures forall i :: 0 <= i < |r| ==> r[i] in xs && p(r[i])
    ensures forall i :: 0 <= i < |xs| && p(xs[i]) ==> xs[i] in r
  {
    if xs == [] then []
    else (if p(xs[0]) then [xs[0]] else []) + Filter(xs[1..], p)
  }

  /** Filtering distributes over concatenation, so order is preserved. */
  lemma {:induction false} FilterAppend<T>(a: seq<T>, b: seq<T>, p: T -> bool)
    ensures Filter(a + b, p) == Filter(a, p) + Filter(b, p)
  {
    if a == [] {
      assert a + b == b;
    } else {
      assert (a + b)[1..] == a[1..] + b;
      FilterAppend(a[1..], b, p);
    }
  }

  /** A filter that every element passes keeps the whole list. */
  lemma {:induction false} FilterAll<T>(xs: seq<T>, p: T -> bool)
    requires forall i :: 0 <= i < |xs| ==> p(xs[i])
    ensures Filter(xs, p) == xs
  {
    if xs != [] {
      FilterAll(xs[1..], p);
    }
  }

  /** A filter that no element passes gives the empty list. */
  lemma {:induction false} FilterNone<T>(xs: seq<T>, p: T -> bool)
    requires forall i :: 0 <= i < |xs| ==> !p(xs[i])
    ensures Filter(xs, p) == []
  {
    if xs != [] {
      FilterNone(xs[1..], p);
    }
  }

  /** A filter that rejects exactly one element removes just that one. */
  lemma {:induction false} FilterRemovesOne<T>(a: seq<T>, x: T, b: seq<T>, p: T -> bool)
    requires forall j :: 0 <= j < |a| ==> p(a[j])
    requires forall j :: 0 <= j < |b| ==> p(b[j])
    requires !p(x)
    ensures Filter(a + [x] + b, p) == a + b
  {
    FilterAll(a, p);
    FilterAll(b, p);
    FilterAppend(a, [x], p);
    assert Filter([x], p) == [] by {
      assert [x][1..] == [];
    }
    assert Filter(a + [x], p) == a;
    FilterAppend(a + [x], b, p);
  }

  /** Filtering keeps a sub-multiset of the input. */
  lemma {:induction false} FilterSubMultiset<T>(xs: seq<T>, p: T -> bool)
    ensures multiset(Filter(xs, p)) <= multiset(xs)
  {
    if xs != [] {
      FilterSubMultiset(xs[1..], p);
      assert xs == [xs[0]] + xs[1..];
    }
  }

  /** `xs.find(p)` / `findOne`: the position of the first element satisfying `p`. */
  function FindFirst<T>(xs: seq<T>, p: T -> bool): (r: Option<nat>)
    ensures r.Some? ==> r.value < |xs| && p(xs[r.value])
    ensures r.Some? ==> forall j :: 0 <= j < r.value ==> !p(xs[j])
    ensures r.None? ==> forall j :: 0 <= j < |xs| ==> !p(xs[j])
  {
    if xs == [] then None
    else if p(xs[0]) then Some(0)
    else match FindFirst(xs[1..], p)
      case None => None
      case Some(k) => Some(k + 1)
  }

  /** Whether a handler returned or threw, forgetting what it returned. */
  function OutcomeOf<T>(r: Result<T>): Outcome
  {
    match r
    case Ok(_) => Pass
    case Err(e) => Fail(e)
  }

  /** No element occurs twice. */
  predicate NoDup<T(==)>(xs: seq<T>)
  {
    forall i, j :: 0 <= i < j < |xs| ==> xs[i] != xs[j]
  }
}
