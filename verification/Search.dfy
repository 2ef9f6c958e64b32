/** The reference backend's search: select by domain, sort by the order keys, cut to the limit. */
module Search {
  import opened Text
  import opened Options
  import opened Values
  import opened Domain
  import opened Sorting

  function Select(rows: seq<Row>, domain: seq<Token>): Evaluation<seq<Row>> {
    if rows == [] then Val([])
    else
      match DomainMatches(rows[0], domain)
      case Raises(e) => Raises(e)
      case Val(b) =>
        match Select(rows[1..], domain)
        case Raises(e) => Raises(e)
        case Val(rest) => Val(if b then [rows[0]] + rest else rest)
  }

  function Take<T>(s: seq<T>, limit: nat): seq<T> {
    if |s| <= limit then s else s[..limit]
  }

  function SearchRows(rows: seq<Row>, domain: seq<Token>, keys: seq<SortKey>, limit: nat): Evaluation<seq<Row>> {
    match Select(rows, domain)
    case Raises(e) => Raises(e)
    case Val(found) => Val(Take(SortByKeys(found, keys), limit))
  }

  /** When `p` says what the domain means on every row, a search is the sorted selection by `p`. */
  lemma SearchIsSortedFilter(rows: seq<Row>, domain: seq<Token>, keys: seq<SortKey>, limit: nat, p: Row -> bool)
    requires forall r | r in rows :: DomainMatches(r, domain) == Val(p(r))
    ensures SearchRows(rows, domain, keys, limit) == Val(Take(Sort(Filter(rows, p), LexOrder(keys)), limit))
  {
    SelectIsFilter(rows, domain, p);
    RepeatedSortIsLexicographic(Filter(rows, p), keys);
  }

  lemma {:induction false} SelectIsFilter(rows: seq<Row>, domain: seq<Token>, p: Row -> bool)
    requires forall r | r in rows :: DomainMatches(r, domain) == Val(p(r))
    ensures Select(rows, domain) == Val(Filter(rows, p))
  {
    if rows != [] {
      assert rows[0] in rows;
      SelectIsFilter(rows[1..], domain, p);
    }
  }

  // ---------------------------------------------------------------- rows with unique ids

  /** The record id, 0 for a row without an integer one. */
  function IdOf(r: Row): int {
    match Field(r, "id")
    case Num(n) => n
    case _ => 0
  }

  ghost predicate UniqueIds(rows: seq<Row>) {
    forall i, j | 0 <= i < j < |rows| :: IdOf(rows[i]) != IdOf(rows[j])
  }

  lemma {:induction false} FilterUnique(rows: seq<Row>, p: Row -> bool)
    requires UniqueIds(rows)
    ensures UniqueIds(Filter(rows, p))
  {
    if rows != [] {
      var rest := Filter(rows[1..], p);
      FilterUnique(rows[1..], p);
      FilterMembers(rows[1..], p);
      forall i | 0 <= i < |rest| ensures IdOf(rest[i]) != IdOf(rows[0]) {
        assert rest[i] in rest;
      }
    }
  }

  lemma {:induction false} InsertUnique(x: Row, s: seq<Row>, leq: (Row, Row) -> bool)
    requires UniqueIds(s) && forall r | r in s :: IdOf(r) != IdOf(x)
    ensures UniqueIds(Insert(x, s, leq))
  {
    if s != [] && !leq(x, s[0]) {
      var t := Insert(x, s[1..], leq);
      InsertUnique(x, s[1..], leq);
      InsertPermutes(x, s[1..], leq);
      forall i | 0 <= i < |t| ensures IdOf(t[i]) != IdOf(s[0]) {
        assert t[i] in multiset(t);
        assert t[i] == x || t[i] in s[1..];
      }
    }
  }

  lemma {:induction false} SortUnique(rows: seq<Row>, leq: (Row, Row) -> bool)
    requires UniqueIds(rows)
    ensures UniqueIds(Sort(rows, leq))
  {
    if rows != [] {
      SortUnique(rows[1..], leq);
      SortMembers(rows[1..], leq);
      InsertUnique(rows[0], Sort(rows[1..], leq), leq);
    }
  }

  lemma {:induction false} FilterTwice<T>(s: seq<T>, p: T -> bool, q: T -> bool)
    requires forall x | x in s :: q(x) ==> p(x)
    ensures Filter(Filter(s, p), q) == Filter(s, q)
  {
    if s != [] {
      assert s[0] in s;
      FilterTwice(s[1..], p, q);
      var rest := Filter(s[1..], p);
      assert ([s[0]] + rest)[1..] == rest;
    }
  }

  /** A test that is false before position `m` and true from there on selects the tail. */
  lemma {:induction false} FilterTail<T>(s: seq<T>, q: T -> bool, m: nat)
    requires m <= |s|
    requires forall i | 0 <= i < m :: !q(s[i])
    requires forall i | m <= i < |s| :: q(s[i])
    ensures Filter(s, q) == s[m..]
  {
    if s != [] {
      if m > 0 {
        FilterTail(s[1..], q, m - 1);
        assert s[m..] == s[1..][m - 1..];
      } else {
        FilterTail(s[1..], q, 0);
        assert s[0..] == [s[0]] + s[1..][0..];
      }
    }
  }
}
