/** The two pure helpers of the web client: building the query parameters
    of a list request, and the display label of an invoice status. */
module Frontend {
  import opened Common
  import opened Text
  import opened InvoiceLedger

  // ---------------------------------------------------------------------
  // Query parameters

  /** A parameter value as the client passes it. */
  datatype Value =
    | Arr(items: seq<string>)
    | Str(s: string)
    | Num(n: int)
    | Bool(b: bool)
    | Null
    | Undefined

  /** A named parameter, in the order `Object.entries` lists it. */
  type Param = (string, Value)

  /** JavaScript truthiness of a scalar value. */
  predicate Truthy(v: Value)
  {
    match v
    case Arr(_) => true
    case Str(s) => s != ""
    case Num(n) => n != 0
    case Bool(b) => b
    case Null => false
    case Undefined => false
  }

  function Quote(item: string): string
  {
    "\"" + item + "\""
  }

  /** A template literal over `value.map(...)`: the quoted items joined by
      commas, inside square brackets. */
  function EncodeArray(items: seq<string>): string
  {
    "[" + Join(seq(|items|, (i: int) requires 0 <= i < |items| => Quote(items[i])), ",") + "]"
  }

  /** `{ ...acc, [key]: value }`: an existing key keeps its place and takes
      the new value; a new key goes last. */
  function Put(acc: seq<Param>, key: string, v: Value): seq<Param>
  {
    match FindFirst(acc, (e: Param) => e.0 == key)
    case None => acc + [(key, v)]
    case Some(i) => acc[i := (key, v)]
  }

  /** The reducer of `transformQueryParams`: a non-empty array is encoded,
      an empty array or a falsy scalar is dropped, anything else is kept. */
  function Step(acc: seq<Param>, e: Param): seq<Param>
  {
    match e.1
    case Arr(items) => if |items| > 0 then Put(acc, e.0, Str(EncodeArray(items))) else acc
    case _ => if !Truthy(e.1) then acc else Put(acc, e.0, e.1)
  }

  function Reduce(entries: seq<Param>, acc: seq<Param>): seq<Param>
  {
    if entries == [] then acc else Reduce(entries[1..], Step(acc, entries[0]))
  }

  /** `transformQueryParams` up to the final `URLSearchParams` encoding:
      absent parameters give no entries (the empty query text). */
  function TransformQueryParams(params: Option<seq<Param>>): seq<Param>
  {
    match params
    case None => []
    case Some(entries) => Reduce(entries, [])
  }

  /** Whether an entry survives, and what it becomes: the reference
      definition, one entry at a time. */
  predicate Kept(v: Value)
  {
    if v.Arr? then |v.items| > 0 else Truthy(v)
  }

  function Transformed(v: Value): Value
  {
    if v.Arr? then Str(EncodeArray(v.items)) else v
  }

  function KeptEntries(entries: seq<Param>): seq<Param>
  {
    if entries == [] then []
    else (if Kept(entries[0].1) then [(entries[0].0, Transformed(entries[0].1))] else [])
         + KeptEntries(entries[1..])
  }

  /** No key occurs twice, as in the entries of an object. */
  predicate DistinctKeys(xs: seq<Param>)
  {
    forall i, j :: 0 <= i < j < |xs| ==> xs[i].0 != xs[j].0
  }

  predicate Absent(k: string, xs: seq<Param>)
  {
    forall j :: 0 <= j < |xs| ==> xs[j].0 != k
  }

  /** Only keys of the input appear in the reference result. */
  lemma {:induction false} KeptKeys(entries: seq<Param>, k: string)
    requires Absent(k, entries)
    ensures Absent(k, KeptEntries(entries))
  {
    if entries != [] {
      KeptKeys(entries[1..], k);
    }
  }

  /** Putting a new key appends it. */
  lemma PutNewKey(acc: seq<Param>, key: string, v: Value)
    requires Absent(key, acc)
    ensures Put(acc, key, v) == acc + [(key, v)]
  {
  }

  /** One reduction step on a new key appends the reference entry. */
  lemma StepNewKey(acc: seq<Param>, e: Param)
    requires Absent(e.0, acc)
    ensures Step(acc, e) == acc + (if Kept(e.1) then [(e.0, Transformed(e.1))] else [])
  {
    PutNewKey(acc, e.0, Transformed(e.1));
  }

  /** With the distinct keys of an object, the reduction appends the
      reference entries: each kept entry once, in input order. */
  lemma {:induction false} ReduceIsKept(entries: seq<Param>, acc: seq<Param>)
    requires DistinctKeys(entries)
    requires forall i :: 0 <= i < |entries| ==> Absent(entries[i].0, acc)
    ensures Reduce(entries, acc) == acc + KeptEntries(entries)
  {
    if entries != [] {
      var e := entries[0];
      var rest := entries[1..];
      StepNewKey(acc, e);
      var head := if Kept(e.1) then [(e.0, Transformed(e.1))] else [];
      var acc' := acc + head;
      forall i | 0 <= i < |rest|
        ensures Absent(rest[i].0, acc')
      {
        assert rest[i].0 != e.0;
      }
      assert DistinctKeys(rest);
      ReduceIsKept(rest, acc');
      assert Reduce(entries, acc) == Reduce(rest, Step(acc, e));
      assert KeptEntries(entries) == head + KeptEntries(rest);
      assert acc' + KeptEntries(rest) == acc + KeptEntries(entries);
    }
  }

  /** The query parameters: none when the parameters are absent;
      otherwise exactly the reference entries, in input order. */
  lemma TransformQueryParamsIsKept(params: Option<seq<Param>>)
    requires params.Some? ==> DistinctKeys(params.value)
    ensures params.None? ==> TransformQueryParams(params) == []
    ensures params.Some? ==> TransformQueryParams(params) == KeptEntries(params.value)
  {
    if params.Some? {
      ReduceIsKept(params.value, []);
    }
  }

  /** An entry is dropped exactly when it is an empty array or a falsy
      scalar (0, "", false, null, undefined); a kept array becomes its
      encoding and a kept scalar is passed on unchanged. */
  lemma {:induction false} KeptEntryAt(entries: seq<Param>, i: int)
    requires DistinctKeys(entries)
    requires 0 <= i < |entries|
    ensures var v := entries[i].1;
            var out := KeptEntries(entries);
            && (v.Arr? && v.items == [] ==> Absent(entries[i].0, out))
            && (!v.Arr? && !Truthy(v) ==> Absent(entries[i].0, out))
            && (v.Arr? && v.items != [] ==> (entries[i].0, Str(EncodeArray(v.items))) in out)
            && (!v.Arr? && Truthy(v) ==> entries[i] in out)
  {
    var e := entries[0];
    var rest := entries[1..];
    var head := if Kept(e.1) then [(e.0, Transformed(e.1))] else [];
    assert KeptEntries(entries) == head + KeptEntries(rest);
    if i == 0 {
      assert Absent(e.0, rest);
      KeptKeys(rest, e.0);
    } else {
      KeptEntryAt(rest, i - 1);
      assert rest[i - 1] == entries[i];
    }
  }

  /** `Unwrap` and `DecodeArray` have no counterpart in the client: they
      exist only to show, through `EncodeArrayRoundTrip`, that the
      template-literal array encoding is injective on items without commas.

      Strips the surrounding character pair. */
  function Unwrap(s: string): string
  {
    if |s| >= 2 then s[1..|s| - 1] else s
  }

  /** Reads an encoded array back into its items. */
  function DecodeArray(s: string): seq<string>
  {
    var pieces := Split(Unwrap(s), ',');
    seq(|pieces|, (i: int) requires 0 <= i < |pieces| => Unwrap(pieces[i]))
  }

  /** The array encoding is reversible for a non-empty list of items
      without commas. */
  lemma EncodeArrayRoundTrip(items: seq<string>)
    requires |items| >= 1
    requires forall i :: 0 <= i < |items| ==> ',' !in items[i]
    ensures DecodeArray(EncodeArray(items)) == items
  {
    var quoted := seq(|items|, (i: int) requires 0 <= i < |items| => Quote(items[i]));
    var body := Join(quoted, ",");
    assert EncodeArray(items) == "[" + body + "]";
    assert Unwrap("[" + body + "]") == body;
    forall i | 0 <= i < |quoted|
      ensures ',' !in quoted[i]
    {
      assert quoted[i] == "\"" + items[i] + "\"";
    }
    SplitJoin(quoted, ',');
    forall i | 0 <= i < |items|
      ensures Unwrap(quoted[i]) == items[i]
    {
      assert quoted[i][1..|quoted[i]| - 1] == items[i];
    }
  }

  // ---------------------------------------------------------------------
  // Status labels

  /** `translateInvoiceStatus`: the label of a status value; any other
      text is returned as it is. */
  function TranslateInvoiceStatus(status: string): string
  {
    if status == "PAID" then "Paid"
    else if status == "IN_PROGRESS" then "In Progress"
    else if status == "REJECTED" then "Rejected"
    else if status == "WAITING_APPROVAL" then "Waiting Approval"
    else status
  }

  /** Each status value gets its own label, different from every status
      value; text that is not a status value is returned unchanged. */
  lemma TranslateCases(s: Status, t: Status, other: string)
    requires other !in {"PAID", "IN_PROGRESS", "REJECTED", "WAITING_APPROVAL"}
    ensures s != t ==> TranslateInvoiceStatus(StatusName(s)) != TranslateInvoiceStatus(StatusName(t))
    ensures TranslateInvoiceStatus(StatusName(s)) != StatusName(t)
    ensures TranslateInvoiceStatus(other) == other
  {
  }

  /** Labelling a label changes nothing. */
  lemma TranslateIdempotent(status: string)
    ensures TranslateInvoiceStatus(TranslateInvoiceStatus(status)) == TranslateInvoiceStatus(status)
  {
  }
}
