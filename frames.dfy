/** The launch record table and the pandas operations the dashboard applies
    to it: boolean-mask row selection and the minimum and maximum of the
    payload column. */
module Frames {

  datatype Option<T> = None | Some(value: T)

  /** One launch record: the four columns the dashboard reads
      ('Launch Site', 'Payload Mass (kg)', 'class', 'Booster Version Category'). */
  datatype Row = Row(site: string, payload: int, cls: int, booster: string)

  /** The table is the sequence of its rows, in file order. */
  type Table = seq<Row>

  /** A boolean mask over the table, written as the condition it tests on
      each row; `Both` is the element-wise `&` of two masks. */
  datatype Cond =
    | PayloadAtLeast(low: int)
    | PayloadAtMost(high: int)
    | SiteIs(site: string)
    | ClassIs(cls: int)
    | Both(left: Cond, right: Cond)

  predicate Holds(c: Cond, r: Row) {
    match c
    case PayloadAtLeast(low) => r.payload >= low
    case PayloadAtMost(high) => r.payload <= high
    case SiteIs(site) => r.site == site
    case ClassIs(cls) => r.cls == cls
    case Both(left, right) => Holds(left, r) && Holds(right, r)
  }

  /** `df[mask]`: the rows on which the mask is true, each row unchanged and
      in its original order, each kept as often as it occurs. */
  function Select(t: Table, c: Cond): (s: Table)
    ensures |s| <= |t|
    ensures forall i :: 0 <= i < |s| ==> Holds(c, s[i])
  {
    if t == [] then []
    else (if Holds(c, t[0]) then [t[0]] else []) + Select(t[1..], c)
  }

  /** Masking keeps every row the mask is true on, as many times as the row
      occurs, and no other row. */
  lemma {:induction false} SelectCounts(t: Table, c: Cond, r: Row)
    ensures multiset(Select(t, c))[r] == if Holds(c, r) then multiset(t)[r] else 0
  {
    if t != [] {
      SelectCounts(t[1..], c, r);
      assert t == [t[0]] + t[1..];
    }
  }

  /** A row is kept by a mask exactly when it is in the table and the mask is
      true on it. */
  lemma {:induction false} SelectMembership(t: Table, c: Cond, r: Row)
    ensures r in Select(t, c) <==> r in t && Holds(c, r)
  {
    SelectCounts(t, c, r);
  }

  /** `s` is obtained from `t` by deleting elements, without reordering. */
  predicate IsSubsequence(s: Table, t: Table) {
    if s == [] then true
    else if t == [] then false
    else (s[0] == t[0] && IsSubsequence(s[1..], t[1..])) || IsSubsequence(s, t[1..])
  }

  /** Masking keeps the relative order of the rows it keeps. */
  lemma {:induction false} SelectIsSubsequence(t: Table, c: Cond)
    ensures IsSubsequence(Select(t, c), t)
  {
    if t != [] {
      var s := Select(t, c);
      SelectIsSubsequence(t[1..], c);
      if Holds(c, t[0]) {
        assert s[0] == t[0] && s[1..] == Select(t[1..], c);
      } else {
        assert s == Select(t[1..], c);
      }
    }
  }

  /** Masking a concatenation masks each part. */
  lemma {:induction false} SelectAppend(a: Table, b: Table, c: Cond)
    ensures Select(a + b, c) == Select(a, c) + Select(b, c)
  {
    if a == [] {
      assert a + b == b;
    } else {
      var head := if Holds(c, a[0]) then [a[0]] else [];
      assert (a + b)[0] == a[0] && (a + b)[1..] == a[1..] + b;
      assert Select(a + b, c) == head + Select(a[1..] + b, c);
      SelectAppend(a[1..], b, c);
      assert Select(a, c) == head + Select(a[1..], c);
    }
  }

  /** Masking twice is masking once with the `&` of the two masks. */
  lemma {:induction false} SelectSelect(t: Table, a: Cond, b: Cond)
    ensures Select(Select(t, a), b) == Select(t, Both(a, b))
  {
    if t != [] {
      SelectSelect(t[1..], a, b);
      if Holds(a, t[0]) {
        assert Select(t, a) == [t[0]] + Select(t[1..], a);
        SelectAppend([t[0]], Select(t[1..], a), b);
        assert [t[0]][1..] == [];
        assert Select([t[0]], b) == if Holds(b, t[0]) then [t[0]] else [];
      } else {
        assert Select(t, a) == Select(t[1..], a);
      }
      assert Select(t, Both(a, b))
          == (if Holds(a, t[0]) && Holds(b, t[0]) then [t[0]] else []) + Select(t[1..], Both(a, b));
    }
  }

  /** A row the mask is false on makes no difference wherever it stands. */
  lemma SelectSkipsRejected(a: Table, x: Row, b: Table, c: Cond)
    requires !Holds(c, x)
    ensures Select(a + [x] + b, c) == Select(a + b, c)
  {
    SelectAppend(a + [x], b, c);
    SelectAppend(a, [x], c);
    SelectAppend(a, b, c);
    assert Select([x], c) == [] by {
      assert [x][1..] == [];
    }
  }

  /** A mask that holds on no row of the table keeps nothing. */
  lemma {:induction false} SelectNothing(t: Table, c: Cond)
    requires forall r :: r in t ==> !Holds(c, r)
    ensures Select(t, c) == []
  {
    if t != [] {
      SelectNothing(t[1..], c);
    }
  }

  /** A mask that holds on every row keeps the whole table. */
  lemma {:induction false} SelectEverything(t: Table, c: Cond)
    requires forall r :: r in t ==> Holds(c, r)
    ensures Select(t, c) == t
  {
    if t != [] {
      SelectEverything(t[1..], c);
      assert t == [t[0]] + t[1..];
    }
  }

  /** `df['Payload Mass (kg)'].max()`; pandas gives NaN for an empty column,
      written here as `None`. */
  function MaxPayload(t: Table): (m: Option<int>)
    ensures m.Some? <==> t != []
    ensures m.Some? ==> forall r :: r in t ==> r.payload <= m.value
    ensures m.Some? ==> exists r :: r in t && r.payload == m.value
  {
    if t == [] then None
    else
      assert t == [t[0]] + t[1..];
      match MaxPayload(t[1..])
      case None => Some(t[0].payload)
      case Some(rest) => Some(if t[0].payload >= rest then t[0].payload else rest)
  }

  /** `df['Payload Mass (kg)'].min()`; NaN (here `None`) for an empty column. */
  function MinPayload(t: Table): (m: Option<int>)
    ensures m.Some? <==> t != []
    ensures m.Some? ==> forall r :: r in t ==> m.value <= r.payload
    ensures m.Some? ==> exists r :: r in t && r.payload == m.value
  {
    if t == [] then None
    else
      assert t == [t[0]] + t[1..];
      match MinPayload(t[1..])
      case None => Some(t[0].payload)
      case Some(rest) => Some(if t[0].payload <= rest then t[0].payload else rest)
  }
}
