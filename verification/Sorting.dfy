/** Stable sorting, and the multi-key order built from repeated stable sorts. */
module Sorting {
  import opened Text
  import opened Options
  import opened Values

  ghost predicate TotalPreorder<T(!new)>(leq: (T, T) -> bool) {
    && (forall a, b :: leq(a, b) || leq(b, a))
    && (forall a, b, c :: leq(a, b) && leq(b, c) ==> leq(a, c))
  }

  predicate Sorted<T>(s: seq<T>, leq: (T, T) -> bool) {
    forall i, j | 0 <= i < j < |s| :: leq(s[i], s[j])
  }

  function Insert<T>(x: T, s: seq<T>, leq: (T, T) -> bool): seq<T> {
    if s == [] || leq(x, s[0]) then [x] + s else [s[0]] + Insert(x, s[1..], leq)
  }

  /** The stable sort: an element goes in front of the elements it ties with. */
  function Sort<T>(s: seq<T>, leq: (T, T) -> bool): seq<T> {
    if s == [] then [] else Insert(s[0], Sort(s[1..], leq), leq)
  }

  function Filter<T>(s: seq<T>, p: T -> bool): (r: seq<T>)
    ensures |r| <= |s|
  {
    if s == [] then [] else if p(s[0]) then [s[0]] + Filter(s[1..], p) else Filter(s[1..], p)
  }

  lemma {:induction false} FilterMembers<T>(s: seq<T>, p: T -> bool)
    ensures forall x :: x in Filter(s, p) <==> x in s && p(x)
  {
    if s != [] {
      FilterMembers(s[1..], p);
      assert s == [s[0]] + s[1..];
    }
  }

  lemma {:induction false} FilteredWasThere<T>(s: seq<T>, p: T -> bool, i: nat)
    requires i < |Filter(s, p)|
    ensures exists j | 0 <= j < |s| :: s[j] == Filter(s, p)[i]
  {
    if !p(s[0]) {
      FilteredWasThere(s[1..], p, i);
      var j :| 0 <= j < |s| - 1 && s[1..][j] == Filter(s[1..], p)[i];
      assert s[j + 1] == Filter(s, p)[i];
    } else if i > 0 {
      FilteredWasThere(s[1..], p, i - 1);
      var j :| 0 <= j < |s| - 1 && s[1..][j] == Filter(s[1..], p)[i - 1];
      assert s[j + 1] == Filter(s, p)[i];
    }
  }

  lemma {:induction false} FilterSorted<T>(s: seq<T>, p: T -> bool, leq: (T, T) -> bool)
    requires Sorted(s, leq)
    ensures Sorted(Filter(s, p), leq)
  {
    if s != [] {
      FilterSorted(s[1..], p, leq);
      var rest := Filter(s[1..], p);
      forall i | 0 <= i < |rest| ensures leq(s[0], rest[i]) {
        FilteredWasThere(s[1..], p, i);
      }
    }
  }

  // ---------------------------------------------------------------- what the sort does

  lemma {:induction false} InsertPermutes<T>(x: T, s: seq<T>, leq: (T, T) -> bool)
    ensures multiset(Insert(x, s, leq)) == multiset{x} + multiset(s)
    ensures |Insert(x, s, leq)| == |s| + 1
  {
    if s != [] && !leq(x, s[0]) {
      InsertPermutes(x, s[1..], leq);
      assert s == [s[0]] + s[1..];
    }
  }

  lemma {:induction false} SortPermutes<T>(s: seq<T>, leq: (T, T) -> bool)
    ensures multiset(Sort(s, leq)) == multiset(s) && |Sort(s, leq)| == |s|
  {
    if s != [] {
      SortPermutes(s[1..], leq);
      InsertPermutes(s[0], Sort(s[1..], leq), leq);
      assert s == [s[0]] + s[1..];
    }
  }

  lemma SortMembers<T>(s: seq<T>, leq: (T, T) -> bool)
    ensures forall x :: x in Sort(s, leq) <==> x in s
  {
    SortPermutes(s, leq);
    assert forall x :: x in s <==> x in multiset(s);
    assert forall x :: x in Sort(s, leq) <==> x in multiset(Sort(s, leq));
  }

  lemma {:induction false} InsertSorted<T(!new)>(x: T, s: seq<T>, leq: (T, T) -> bool)
    requires TotalPreorder(leq) && Sorted(s, leq)
    ensures Sorted(Insert(x, s, leq), leq)
  {
    if s != [] {
      if leq(x, s[0]) {
        assert forall i | 0 <= i < |s| :: leq(x, s[i]);
      } else {
        InsertSorted(x, s[1..], leq);
        InsertPermutes(x, s[1..], leq);
        var t := Insert(x, s[1..], leq);
        forall i | 0 <= i < |t| ensures leq(s[0], t[i]) {
          assert t[i] in multiset(t);
          assert t[i] == x || t[i] in s[1..];
        }
      }
    }
  }

  lemma {:induction false} SortOrders<T(!new)>(s: seq<T>, leq: (T, T) -> bool)
    requires TotalPreorder(leq)
    ensures Sorted(Sort(s, leq), leq)
  {
    if s != [] {
      SortOrders(s[1..], leq);
      InsertSorted(s[0], Sort(s[1..], leq), leq);
    }
  }

  lemma {:induction false} FilterInsert<T(!new)>(x: T, s: seq<T>, p: T -> bool, leq: (T, T) -> bool)
    requires TotalPreorder(leq) && Sorted(s, leq)
    ensures Filter(Insert(x, s, leq), p) == if p(x) then Insert(x, Filter(s, p), leq) else Filter(s, p)
  {
    if s == [] {
      assert Filter([x], p) == if p(x) then [x] else [];
    } else if leq(x, s[0]) {
      assert ([x] + s)[1..] == s;
      FilterMembers(s, p);
      var kept := Filter(s, p);
      assert kept != [] ==> kept[0] in s && leq(x, kept[0]);
    } else {
      FilterInsert(x, s[1..], p, leq);
      var t := Insert(x, s[1..], leq);
      assert ([s[0]] + t)[1..] == t;
      var rest := Filter(s[1..], p);
      if p(x) && p(s[0]) {
        assert ([s[0]] + rest)[1..] == rest;
      }
    }
  }

  /** Sorting and selecting commute. */
  lemma {:induction false} FilterOfSort<T(!new)>(s: seq<T>, p: T -> bool, leq: (T, T) -> bool)
    requires TotalPreorder(leq)
    ensures Filter(Sort(s, leq), p) == Sort(Filter(s, p), leq)
  {
    if s != [] {
      FilterOfSort(s[1..], p, leq);
      SortOrders(s[1..], leq);
      FilterInsert(s[0], Sort(s[1..], leq), p, leq);
      var rest := Filter(s[1..], p);
      assert p(s[0]) ==> ([s[0]] + rest)[1..] == rest;
    }
  }

  lemma {:induction false} SortOfTies<T>(s: seq<T>, leq: (T, T) -> bool)
    requires forall a, b | a in s && b in s :: leq(a, b)
    ensures Sort(s, leq) == s
  {
    if s != [] {
      SortOfTies(s[1..], leq);
      assert s == [s[0]] + s[1..];
    }
  }

  predicate Tied<T>(leq: (T, T) -> bool, a: T, b: T) {
    leq(a, b) && leq(b, a)
  }

  /** Stability: the elements that tie with `x` keep their original order. */
  lemma SortStable<T(!new)>(s: seq<T>, leq: (T, T) -> bool, x: T)
    requires TotalPreorder(leq)
    ensures var tied := (y: T) => Tied(leq, x, y); Filter(Sort(s, leq), tied) == Filter(s, tied)
  {
    var tied := (y: T) => Tied(leq, x, y);
    FilterOfSort(s, tied, leq);
    FilterMembers(s, tied);
    SortOfTies(Filter(s, tied), leq);
  }

  // ---------------------------------------------------------------- two sorts in a row

  /** `both` orders by `major`, and by `minor` where `major` ties. */
  ghost predicate Refines<T(!new)>(both: (T, T) -> bool, major: (T, T) -> bool, minor: (T, T) -> bool) {
    forall a, b :: both(a, b) <==> major(a, b) && (major(b, a) ==> minor(a, b))
  }

  lemma RefinesPreorder<T(!new)>(both: (T, T) -> bool, major: (T, T) -> bool, minor: (T, T) -> bool)
    requires TotalPreorder(major) && TotalPreorder(minor) && Refines(both, major, minor)
    ensures TotalPreorder(both)
  {
    forall a, b, c | both(a, b) && both(b, c) ensures both(a, c) {
      assert major(a, c);
      assert major(c, a) ==> major(b, a) && major(c, b);
    }
  }

  lemma {:induction false} InsertMinorLeast<T(!new)>(x: T, s: seq<T>, both: (T, T) -> bool, major: (T, T) -> bool,
                                                     minor: (T, T) -> bool)
    requires Refines(both, major, minor)
    requires forall y | y in s :: minor(x, y)
    ensures Insert(x, s, major) == Insert(x, s, both)
  {
    if s != [] && !major(x, s[0]) {
      InsertMinorLeast(x, s[1..], both, major, minor);
    }
  }

  /** Two insertions commute when the one by `major` alone comes later in the `minor` order. */
  lemma {:induction false} InsertsCommute<T(!new)>(t: T, x: T, s: seq<T>, both: (T, T) -> bool, major: (T, T) -> bool,
                                                   minor: (T, T) -> bool)
    requires TotalPreorder(major) && TotalPreorder(minor) && Refines(both, major, minor)
    requires !minor(x, t)
    ensures Insert(t, Insert(x, s, both), major) == Insert(x, Insert(t, s, major), both)
  {
    if s == [] {
      assert Insert(x, s, both) == [x] && Insert(t, s, major) == [t];
      assert Insert(t, [x], major) == if major(t, x) then [t, x] else [x] + Insert(t, [], major);
      assert [t][1..] == [] && Insert(x, [t], both) == if both(x, t) then [x, t] else [t] + Insert(x, [], both);
    } else {
      InsertsCommuteStep(t, x, s, both, major, minor);
      InsertsCommute(t, x, s[1..], both, major, minor);
    }
  }

  lemma InsertsCommuteStep<T(!new)>(t: T, x: T, s: seq<T>, both: (T, T) -> bool, major: (T, T) -> bool,
                                    minor: (T, T) -> bool)
    requires TotalPreorder(major) && TotalPreorder(minor) && Refines(both, major, minor)
    requires !minor(x, t) && s != []
    ensures Insert(t, Insert(x, s[1..], both), major) == Insert(x, Insert(t, s[1..], major), both)
            ==> Insert(t, Insert(x, s, both), major) == Insert(x, Insert(t, s, major), both)
  {
    var rest := s[1..];
    var xs, ts := [x] + s, [t] + s;
    assert xs[1..] == s && ts[1..] == s;
    if both(x, s[0]) {
      assert Insert(x, s, both) == xs;
      if major(t, s[0]) {
        assert Insert(t, s, major) == ts;
      } else {
        assert !major(t, x);
        var tail := Insert(t, rest, major);
        assert ([s[0]] + tail)[1..] == tail;
      }
    } else {
      var tail := Insert(x, rest, both);
      assert ([s[0]] + tail)[1..] == tail;
      if major(t, s[0]) {
        assert Insert(t, s, major) == ts;
        assert !both(x, t);
      } else {
        var tail' := Insert(t, rest, major);
        assert ([s[0]] + tail')[1..] == tail';
      }
    }
  }

  lemma {:induction false} SortOfInsert<T(!new)>(x: T, s: seq<T>, both: (T, T) -> bool, major: (T, T) -> bool,
                                                 minor: (T, T) -> bool)
    requires TotalPreorder(major) && TotalPreorder(minor) && Refines(both, major, minor)
    requires Sorted(s, minor)
    requires Sort(s, major) == Sort(s, both)
    ensures Sort(Insert(x, s, minor), major) == Insert(x, Sort(s, both), both)
    decreases |s|
  {
    if s == [] {
    } else if minor(x, s[0]) {
      assert ([x] + s)[1..] == s;
      SortMembers(s, major);
      assert forall y | y in s :: minor(x, y);
      InsertMinorLeast(x, Sort(s, major), both, major, minor);
    } else {
      var t, rest := s[0], s[1..];
      SortAlike(rest, both, major, minor);
      SortAlike(s, both, major, minor);
      SortOfInsert(x, rest, both, major, minor);
      var tail := Insert(x, rest, minor);
      assert ([t] + tail)[1..] == tail;
      InsertsCommute(t, x, Sort(rest, both), both, major, minor);
    }
  }

  /** On rows already in `minor` order, sorting by `major` alone sorts by both. */
  lemma {:induction false} SortAlike<T(!new)>(s: seq<T>, both: (T, T) -> bool, major: (T, T) -> bool,
                                              minor: (T, T) -> bool)
    requires Refines(both, major, minor) && Sorted(s, minor)
    ensures Sort(s, major) == Sort(s, both)
  {
    if s != [] {
      SortAlike(s[1..], both, major, minor);
      SortMembers(s[1..], major);
      assert forall y | y in s[1..] :: minor(s[0], y);
      InsertMinorLeast(s[0], Sort(s[1..], major), both, major, minor);
    }
  }

  /** Sorting by the minor key and then, stably, by the major key is one sort by both. */
  lemma {:induction false} TwoSortsAreOne<T(!new)>(s: seq<T>, both: (T, T) -> bool, major: (T, T) -> bool,
                                                   minor: (T, T) -> bool)
    requires TotalPreorder(major) && TotalPreorder(minor) && Refines(both, major, minor)
    ensures Sort(Sort(s, minor), major) == Sort(s, both)
  {
    if s != [] {
      TwoSortsAreOne(s[1..], both, major, minor);
      var t := Sort(s[1..], minor);
      SortOrders(s[1..], minor);
      SortAlike(t, both, major, minor);
      SortOfInsert(s[0], t, both, major, minor);
    }
  }

  // ---------------------------------------------------------------- the rows of a search

  datatype SortKey = SortKey(field: string, desc: bool)

  /** The order of two set cells. Python raises TypeError for a number against a text; here every
      number comes first. */
  predicate CellLess(a: Value, b: Value)
    requires a != Null && b != Null
  {
    if Numeric(a) && Numeric(b) then AsNumber(a) < AsNumber(b)
    else if a.Text? && b.Text? then Less(a.s, b.s)
    else Numeric(a)
  }

  /** `(v is None, v) < (w is None, w)`. */
  predicate KeyLess(v: Value, w: Value) {
    if v == Null || w == Null then v != Null && w == Null else CellLess(v, w)
  }

  /** One key's order; `reverse=True` keeps ties in place, so it is the flipped order. */
  predicate KeyLeq(k: SortKey, a: Row, b: Row) {
    if k.desc then !KeyLess(Field(a, k.field), Field(b, k.field)) else !KeyLess(Field(b, k.field), Field(a, k.field))
  }

  function KeyOrder(k: SortKey): (Row, Row) -> bool {
    (a: Row, b: Row) => KeyLeq(k, a, b)
  }

  /** The full comparator: the first key that tells the rows apart decides. */
  predicate LexLeq(keys: seq<SortKey>, a: Row, b: Row) {
    keys == [] || (KeyLeq(keys[0], a, b) && (KeyLeq(keys[0], b, a) ==> LexLeq(keys[1..], a, b)))
  }

  function LexOrder(keys: seq<SortKey>): (Row, Row) -> bool {
    (a: Row, b: Row) => LexLeq(keys, a, b)
  }

  /** A cell that belongs in front: the smaller number, the text that is first at their first difference,
      a number before a text, any of them before an unset cell. */
  ghost predicate Ranks(v: Value, w: Value) {
    if v == Null then false
    else if w == Null then true
    else if Numeric(v) && Numeric(w) then AsNumber(v) < AsNumber(w)
    else if v.Text? && w.Text? then Precedes(v.s, w.s)
    else Numeric(v)
  }

  /** The key puts the first row in front: by its cells, turned round when it is descending. */
  ghost predicate Fronts(k: SortKey, a: Row, b: Row) {
    if k.desc then Ranks(Field(b, k.field), Field(a, k.field)) else Ranks(Field(a, k.field), Field(b, k.field))
  }

  ghost predicate Levels(k: SortKey, a: Row, b: Row) {
    !Fronts(k, a, b) && !Fronts(k, b, a)
  }

  /** The key at `t` is the first that tells the rows apart, and puts the first one in front. */
  ghost predicate FrontsAt(keys: seq<SortKey>, a: Row, b: Row, t: int) {
    0 <= t < |keys| && Fronts(keys[t], a, b) && forall u | 0 <= u < t :: Levels(keys[u], a, b)
  }

  lemma KeyMeans(k: SortKey, a: Row, b: Row)
    ensures KeyLeq(k, a, b) <==> !Fronts(k, b, a)
    ensures KeyLeq(k, b, a) <==> !Fronts(k, a, b)
  {
    var v, w := Field(a, k.field), Field(b, k.field);
    if v.Text? && w.Text? {
      LessIsPrecedes(v.s, w.s);
      LessIsPrecedes(w.s, v.s);
    }
  }

  lemma FrontsOneWay(k: SortKey, a: Row, b: Row)
    ensures !(Fronts(k, a, b) && Fronts(k, b, a))
  {
    KeyMeans(k, a, b);
    KeyLessAsymmetric(Field(a, k.field), Field(b, k.field));
  }

  /** The comparator lets a row stand before another exactly when the first key that tells them apart puts
      it in front, or no key tells them apart. */
  lemma {:induction false} ComparatorMeans(keys: seq<SortKey>, a: Row, b: Row)
    ensures LexOrder(keys)(a, b)
            <==> (exists t :: FrontsAt(keys, a, b, t)) || (forall u | 0 <= u < |keys| :: Levels(keys[u], a, b))
  {
    if keys != [] {
      var rest := keys[1..];
      ComparatorMeans(rest, a, b);
      KeyMeans(keys[0], a, b);
      FrontsOneWay(keys[0], a, b);
      assert forall u | 1 <= u < |keys| :: keys[u] == rest[u - 1];
      if Fronts(keys[0], a, b) {
        assert FrontsAt(keys, a, b, 0);
      } else if Levels(keys[0], a, b) {
        forall t ensures FrontsAt(rest, a, b, t) <==> FrontsAt(keys, a, b, t + 1) {
          assert 0 <= t < |rest| ==> rest[t] == keys[t + 1];
        }
        assert (exists t :: FrontsAt(keys, a, b, t)) <==> exists t :: FrontsAt(rest, a, b, t) by {
          if t :| FrontsAt(keys, a, b, t) {
            assert FrontsAt(rest, a, b, t - 1);
          }
        }
      } else {
        assert Fronts(keys[0], b, a);
      }
    }
  }

  lemma KeyLessTransitive(u: Value, v: Value, w: Value)
    requires !KeyLess(v, u) && !KeyLess(w, v)
    ensures !KeyLess(w, u)
  {
    if u.Text? && v.Text? && w.Text? {
      LessTotal(u.s, v.s);
      LessTotal(v.s, w.s);
      LessTotal(u.s, w.s);
      LessIrreflexive(u.s);
      if Less(w.s, u.s) && Less(u.s, v.s) {
        LessTransitive(w.s, u.s, v.s);
      }
    }
  }

  lemma KeyLessAsymmetric(u: Value, v: Value)
    ensures !(KeyLess(u, v) && KeyLess(v, u))
  {
    if u.Text? && v.Text? && Less(u.s, v.s) && Less(v.s, u.s) {
      LessTransitive(u.s, v.s, u.s);
      LessIrreflexive(u.s);
    }
  }

  lemma KeyOrderPreorder(k: SortKey)
    ensures TotalPreorder(KeyOrder(k))
  {
    var leq := KeyOrder(k);
    forall a, b ensures leq(a, b) || leq(b, a) {
      KeyLessAsymmetric(Field(a, k.field), Field(b, k.field));
    }
    forall a, b, c | leq(a, b) && leq(b, c) ensures leq(a, c) {
      if k.desc {
        KeyLessTransitive(Field(c, k.field), Field(b, k.field), Field(a, k.field));
      } else {
        KeyLessTransitive(Field(a, k.field), Field(b, k.field), Field(c, k.field));
      }
    }
  }

  lemma {:induction false} LexOrderPreorder(keys: seq<SortKey>)
    ensures TotalPreorder(LexOrder(keys))
  {
    if keys != [] {
      LexOrderPreorder(keys[1..]);
      KeyOrderPreorder(keys[0]);
      RefinesPreorder(LexOrder(keys), KeyOrder(keys[0]), LexOrder(keys[1..]));
    }
  }

  /** The sorts of `_sorted_rows`: the last key first. */
  function SortByKeys(rows: seq<Row>, keys: seq<SortKey>): seq<Row> {
    if keys == [] then rows else Sort(SortByKeys(rows, keys[1..]), KeyOrder(keys[0]))
  }

  method SortedRows(rows: seq<Row>, keys: seq<SortKey>) returns (sorted: seq<Row>)
    ensures sorted == Sort(rows, LexOrder(keys))
  {
    sorted := rows;
    var i := |keys|;
    while i > 0
      invariant 0 <= i <= |keys| && sorted == SortByKeys(rows, keys[i..])
    {
      i := i - 1;
      assert keys[i..][0] == keys[i] && keys[i..][1..] == keys[i + 1..];
      sorted := Sort(sorted, KeyOrder(keys[i]));
    }
    assert keys[0..] == keys;
    RepeatedSortIsLexicographic(rows, keys);
  }

  /** Repeated stable sorting is the one stable sort by the full comparator. */
  lemma {:induction false} RepeatedSortIsLexicographic(rows: seq<Row>, keys: seq<SortKey>)
    ensures SortByKeys(rows, keys) == Sort(rows, LexOrder(keys))
  {
    if keys == [] {
      SortOfTies(rows, LexOrder(keys));
    } else {
      RepeatedSortIsLexicographic(rows, keys[1..]);
      KeyOrderPreorder(keys[0]);
      LexOrderPreorder(keys[1..]);
      TwoSortsAreOne(rows, LexOrder(keys), KeyOrder(keys[0]), LexOrder(keys[1..]));
    }
  }

  /** What the callers of a sorted search rely on, for any number of keys: a permutation, in the
      order of the full comparator, with full ties in their original order. */
  lemma SortedRowsMeaning(rows: seq<Row>, keys: seq<SortKey>, x: Row)
    ensures var sorted := SortByKeys(rows, keys);
            var tied := (y: Row) => Tied(LexOrder(keys), x, y);
            multiset(sorted) == multiset(rows) && Sorted(sorted, LexOrder(keys))
            && Filter(sorted, tied) == Filter(rows, tied)
  {
    RepeatedSortIsLexicographic(rows, keys);
    LexOrderPreorder(keys);
    SortPermutes(rows, LexOrder(keys));
    SortOrders(rows, LexOrder(keys));
    SortStable(rows, LexOrder(keys), x);
  }
}
