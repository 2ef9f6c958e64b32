/** `history.changes`: the newest messages of several chatters, merged. */
module Changes {
  import opened Text
  import opened Options
  import opened Values
  import opened Domain
  import opened Sorting
  import opened Search

  const CHANGES_ORDER := [SortKey("date", true), SortKey("id", true)]

  /** `str(r.get("date") or "")`. */
  function DateText(r: Row): string {
    var v := Field(r, "date");
    if Truthy(v) then Show(v) else ""
  }

  /** `(str(date or ""), id or 0)`, compared. */
  predicate ChangeLess(a: Row, b: Row) {
    Less(DateText(a), DateText(b)) || (DateText(a) == DateText(b) && IdOf(a) < IdOf(b))
  }

  /** The final `rows.sort(..., reverse=True)`. */
  function ChangeOrder(): (Row, Row) -> bool {
    (a: Row, b: Row) => !ChangeLess(a, b)
  }

  function Ids(rows: seq<Row>): set<int> {
    set r | r in rows :: IdOf(r)
  }

  /** Rows of `found` whose id is new, appended in order. */
  function Merge(rows: seq<Row>, found: seq<Row>): seq<Row>
    decreases |found|
  {
    if found == [] then rows
    else Merge(if IdOf(found[0]) in Ids(rows) then rows else rows + [found[0]], found[1..])
  }

  /** Every domain's newest `limit`, merged from domain `i` on; None when a search fails. */
  function Gathered(messages: seq<Row>, domains: seq<seq<Token>>, limit: nat, rows: seq<Row>): Option<seq<Row>>
    decreases |domains|
  {
    if domains == [] then Some(rows)
    else
      match SearchRows(messages, domains[0], CHANGES_ORDER, limit)
      case Raises(_) => None
      case Val(found) => Gathered(messages, domains[1..], limit, Merge(rows, found))
  }

  /** The loop of `_run_history_changes`: `down` is the first search the backend refuses. */
  method HistoryChanges(messages: seq<Row>, domains: seq<seq<Token>>, limit: nat, down: nat)
    returns (r: Option<seq<Row>>)
    ensures r == if down < |domains| then None
                 else match Gathered(messages, domains, limit, [])
                      case None => None
                      case Some(rows) => Some(Take(Sort(rows, ChangeOrder()), limit))
  {
    var seen: set<int> := {};
    var rows: seq<Row> := [];
    var i := 0;
    while i < |domains|
      invariant 0 <= i <= |domains| && i <= down
      invariant seen == Ids(rows)
      invariant Gathered(messages, domains[i..], limit, rows) == Gathered(messages, domains, limit, [])
    {
      if i == down {
        return None;
      }
      assert domains[i..][0] == domains[i] && domains[i..][1..] == domains[i + 1..];
      var found := SearchRows(messages, domains[i], CHANGES_ORDER, limit);
      if found.Raises? {
        return None;
      }
      ghost var before := rows;
      var k := 0;
      while k < |found.value|
        invariant 0 <= k <= |found.value|
        invariant seen == Ids(rows)
        invariant Merge(rows, found.value[k..]) == Merge(before, found.value)
      {
        var row := found.value[k];
        assert found.value[k..][0] == row && found.value[k..][1..] == found.value[k + 1..];
        if IdOf(row) !in seen {
          seen := seen + {IdOf(row)};
          assert Ids(rows + [row]) == Ids(rows) + {IdOf(row)} by {
            assert forall x :: x in rows + [row] <==> x in rows || x == row;
          }
          rows := rows + [row];
        }
        k := k + 1;
      }
      assert found.value[k..] == [];
      i := i + 1;
    }
    assert domains[i..] == [];
    r := Some(Take(Sort(rows, ChangeOrder()), limit));
  }

  // ---------------------------------------------------------------- the reference

  predicate MatchesOne(r: Row, domain: seq<Token>) {
    DomainMatches(r, domain) == Val(true)
  }

  predicate MatchesAny(r: Row, domains: seq<seq<Token>>) {
    exists d | d in domains :: MatchesOne(r, d)
  }

  function OneTest(domain: seq<Token>): Row -> bool {
    (r: Row) => MatchesOne(r, domain)
  }

  function AnyTest(domains: seq<seq<Token>>): Row -> bool {
    (r: Row) => MatchesAny(r, domains)
  }

  /** All messages of all the domains, newest first. */
  function Union(messages: seq<Row>, domains: seq<seq<Token>>): seq<Row> {
    Sort(Filter(messages, AnyTest(domains)), ChangeOrder())
  }

  predicate Dated(r: Row) {
    Field(r, "id").Num? && Field(r, "date").Text? && Field(r, "date").s != ""
  }

  predicate Undated(r: Row) {
    Field(r, "id").Num? && Field(r, "date") == Null
  }

  /** A message table the domains can be asked of: unique ids, no domain raises, and every message
      that matches carries a date or none. */
  ghost predicate MessageTable(messages: seq<Row>, domains: seq<seq<Token>>) {
    && UniqueIds(messages)
    && (forall r, d | r in messages && d in domains :: DomainMatches(r, d).Val?)
    && (forall r | r in messages && MatchesAny(r, domains) :: Dated(r) || Undated(r))
  }

  lemma ChangeOrderPreorder()
    ensures TotalPreorder(ChangeOrder())
  {
    var leq := ChangeOrder();
    forall a, b ensures leq(a, b) || leq(b, a) {
      ChangeTotal(a, b);
    }
    forall a, b, c | leq(a, b) && leq(b, c) ensures leq(a, c) {
      ChangeTotal(a, b);
      ChangeTotal(b, c);
      ChangeTotal(a, c);
      if ChangeLess(a, c) {
        if ChangeLess(b, a) { ChangeTransitive(b, a, c); }
      }
    }
  }

  lemma ChangeTotal(a: Row, b: Row)
    ensures ChangeLess(a, b) || ChangeLess(b, a) || (DateText(a) == DateText(b) && IdOf(a) == IdOf(b))
    ensures !(ChangeLess(a, b) && ChangeLess(b, a))
  {
    var da, db := DateText(a), DateText(b);
    LessTotal(da, db);
    LessIrreflexive(da);
    if Less(da, db) && Less(db, da) {
      LessTransitive(da, db, da);
    }
  }

  lemma ChangeTransitive(a: Row, b: Row, c: Row)
    requires ChangeLess(a, b) && ChangeLess(b, c)
    ensures ChangeLess(a, c)
  {
    if Less(DateText(a), DateText(b)) && Less(DateText(b), DateText(c)) {
      LessTransitive(DateText(a), DateText(b), DateText(c));
    }
  }

  /** The search puts undated messages first and orders the dated ones as the merge does. */
  lemma SearchOrderMeaning(a: Row, b: Row)
    requires (Dated(a) || Undated(a)) && (Dated(b) || Undated(b))
    ensures LexOrder(CHANGES_ORDER)(a, b)
            <==> if Undated(a) == Undated(b) then ChangeOrder()(a, b) else Undated(a)
  {
    var rest := CHANGES_ORDER[1..];
    assert rest == [SortKey("id", true)] && rest[1..] == [];
    assert LexLeq(rest, a, b) <==> IdOf(a) >= IdOf(b);
    LessTotal(DateText(a), DateText(b));
    LessIrreflexive(DateText(a));
    ChangeTotal(a, b);
  }

  // ---------------------------------------------------------------- the first n, by counting

  function Ahead<T>(leq: (T, T) -> bool, x: T): T -> bool {
    (y: T) => leq(y, x) && !leq(x, y)
  }

  /** A test that holds up to position `m` and not from there on selects the head. */
  lemma {:induction false} FilterHead<T>(s: seq<T>, q: T -> bool, m: nat)
    requires m <= |s|
    requires forall i | 0 <= i < m :: q(s[i])
    requires forall i | m <= i < |s| :: !q(s[i])
    ensures |Filter(s, q)| == m
  {
    if s != [] {
      FilterHead(s[1..], q, if m > 0 then m - 1 else 0);
    }
  }

  /** No two different rows tie. */
  ghost predicate Untied(s: seq<Row>, leq: (Row, Row) -> bool) {
    forall a, b | a in s && b in s && leq(a, b) && leq(b, a) :: IdOf(a) == IdOf(b)
  }

  lemma AheadByPosition(s: seq<Row>, t: seq<Row>, leq: (Row, Row) -> bool, k: nat, i: nat)
    requires TotalPreorder(leq) && Untied(s, leq) && Sorted(t, leq) && UniqueIds(t) && forall x | x in t :: x in s
    requires k < |t| && i < |t|
    ensures Ahead(leq, t[i])(t[k]) <==> k < i
  {
    assert t[k] in s && t[i] in s;
    if k < i {
      assert IdOf(t[k]) != IdOf(t[i]);
    }
  }

  lemma PositionIsCount(s: seq<Row>, leq: (Row, Row) -> bool, i: nat)
    requires TotalPreorder(leq) && UniqueIds(s) && Untied(s, leq) && i < |Sort(s, leq)|
    ensures |Filter(s, Ahead(leq, Sort(s, leq)[i]))| == i
  {
    var t := Sort(s, leq);
    var x := t[i];
    SortMembers(s, leq);
    SortOrders(s, leq);
    SortUnique(s, leq);
    forall k | 0 <= k < |t| ensures Ahead(leq, x)(t[k]) <==> k < i {
      AheadByPosition(s, t, leq, k, i);
    }
    FilterHead(t, Ahead(leq, x), i);
    FilterOfSort(s, Ahead(leq, x), leq);
    SortPermutes(Filter(s, Ahead(leq, x)), leq);
  }

  /** A row is among the first `n` of a sort exactly when fewer than `n` rows lie ahead of it. */
  lemma FirstByCount(s: seq<Row>, leq: (Row, Row) -> bool, n: nat, x: Row)
    requires TotalPreorder(leq) && UniqueIds(s) && Untied(s, leq) && x in s
    ensures x in Take(Sort(s, leq), n) <==> |Filter(s, Ahead(leq, x))| < n
  {
    var t := Sort(s, leq);
    SortMembers(s, leq);
    var i :| 0 <= i < |t| && t[i] == x;
    PositionIsCount(s, leq, i);
    if i < n {
      assert Take(t, n)[i] == x;
    }
    if x in Take(t, n) {
      var k :| 0 <= k < |Take(t, n)| && Take(t, n)[k] == x;
      PositionIsCount(s, leq, k);
    }
  }

  function NewerTest(x: Row): Row -> bool {
    (y: Row) => ChangeLess(x, y)
  }

  function UndatedTest(d: seq<Token>): Row -> bool {
    (y: Row) => MatchesOne(y, d) && Undated(y)
  }

  function NewerDatedTest(d: seq<Token>, x: Row): Row -> bool {
    (y: Row) => MatchesOne(y, d) && Dated(y) && ChangeLess(x, y)
  }

  /** The rows of one domain that its search lists before a dated message. */
  function CountAhead(messages: seq<Row>, d: seq<Token>, x: Row): nat {
    |Filter(messages, UndatedTest(d))| + |Filter(messages, NewerDatedTest(d, x))|
  }

  lemma {:induction false} AheadOfDated(messages: seq<Row>, d: seq<Token>, x: Row)
    requires Dated(x) && forall r | r in messages && MatchesOne(r, d) :: Dated(r) || Undated(r)
    ensures |Filter(Filter(messages, OneTest(d)), Ahead(LexOrder(CHANGES_ORDER), x))| == CountAhead(messages, d, x)
  {
    if messages != [] {
      var y, rest := messages[0], messages[1..];
      assert y in messages;
      AheadOfDated(rest, d, x);
      if MatchesOne(y, d) {
        SearchOrderMeaning(x, y);
        SearchOrderMeaning(y, x);
        ChangeTotal(x, y);
        var mine := Filter(rest, OneTest(d));
        assert ([y] + mine)[1..] == mine;
      }
    }
  }

  /** Before an undated message a domain's search lists no more rows than are newer in the union. */
  lemma {:induction false} AheadOfUndated(messages: seq<Row>, domains: seq<seq<Token>>, d: seq<Token>, x: Row)
    requires Undated(x) && d in domains && forall r | r in messages && MatchesOne(r, d) :: Dated(r) || Undated(r)
    ensures |Filter(Filter(messages, OneTest(d)), Ahead(LexOrder(CHANGES_ORDER), x))|
            <= |Filter(Filter(messages, AnyTest(domains)), NewerTest(x))|
  {
    if messages != [] {
      var y, rest := messages[0], messages[1..];
      assert y in messages;
      AheadOfUndated(rest, domains, d, x);
      var mine, all := Filter(rest, OneTest(d)), Filter(rest, AnyTest(domains));
      assert ([y] + mine)[1..] == mine && ([y] + all)[1..] == all;
      if MatchesOne(y, d) {
        SearchOrderMeaning(x, y);
        SearchOrderMeaning(y, x);
        ChangeTotal(x, y);
      }
    }
  }

  /** Dated and newer in one domain is newer in the union. */
  lemma {:induction false} NewerInUnion(messages: seq<Row>, domains: seq<seq<Token>>, d: seq<Token>, x: Row)
    requires d in domains
    ensures |Filter(messages, NewerDatedTest(d, x))| <= |Filter(Filter(messages, AnyTest(domains)), NewerTest(x))|
  {
    if messages != [] {
      NewerInUnion(messages[1..], domains, d, x);
      var all := Filter(messages[1..], AnyTest(domains));
      assert ([messages[0]] + all)[1..] == all;
    }
  }

  // ---------------------------------------------------------------- what is fetched

  /** What one domain's search returns. */
  function Newest(messages: seq<Row>, d: seq<Token>, limit: nat): seq<Row> {
    Take(Sort(Filter(messages, OneTest(d)), LexOrder(CHANGES_ORDER)), limit)
  }

  lemma NewestMembers(messages: seq<Row>, domains: seq<seq<Token>>, d: seq<Token>, limit: nat)
    requires MessageTable(messages, domains) && d in domains
    ensures SearchRows(messages, d, CHANGES_ORDER, limit) == Val(Newest(messages, d, limit))
    ensures forall r | r in Newest(messages, d, limit) :: r in messages && MatchesOne(r, d)
  {
    var mine := Filter(messages, OneTest(d));
    SearchIsSortedFilter(messages, d, CHANGES_ORDER, limit, OneTest(d));
    FilterMembers(messages, OneTest(d));
    SortMembers(mine, LexOrder(CHANGES_ORDER));
    assert forall r | r in Newest(messages, d, limit) :: r in Sort(mine, LexOrder(CHANGES_ORDER));
  }

  lemma NewestByCount(messages: seq<Row>, domains: seq<seq<Token>>, d: seq<Token>, limit: nat, x: Row)
    requires MessageTable(messages, domains) && d in domains && x in messages && MatchesOne(x, d)
    ensures x in Newest(messages, d, limit)
            <==> |Filter(Filter(messages, OneTest(d)), Ahead(LexOrder(CHANGES_ORDER), x))| < limit
  {
    var mine := Filter(messages, OneTest(d));
    FilterMembers(messages, OneTest(d));
    FilterUnique(messages, OneTest(d));
    LexOrderPreorder(CHANGES_ORDER);
    forall a, b | a in mine && b in mine && LexOrder(CHANGES_ORDER)(a, b) && LexOrder(CHANGES_ORDER)(b, a)
      ensures IdOf(a) == IdOf(b)
    {
      assert MatchesAny(a, domains) && MatchesAny(b, domains);
      SearchOrderMeaning(a, b);
      SearchOrderMeaning(b, a);
      ChangeTotal(a, b);
    }
    FirstByCount(mine, LexOrder(CHANGES_ORDER), limit, x);
  }

  lemma UnionUntied(messages: seq<Row>, domains: seq<seq<Token>>)
    requires MessageTable(messages, domains)
    ensures var all := Filter(messages, AnyTest(domains));
            UniqueIds(all) && Untied(all, ChangeOrder()) && TotalPreorder(ChangeOrder())
  {
    var all := Filter(messages, AnyTest(domains));
    FilterUnique(messages, AnyTest(domains));
    ChangeOrderPreorder();
    forall a, b | a in all && b in all && ChangeOrder()(a, b) && ChangeOrder()(b, a) ensures IdOf(a) == IdOf(b) {
      ChangeTotal(a, b);
    }
  }

  lemma UnionByCount(messages: seq<Row>, domains: seq<seq<Token>>, limit: nat, x: Row)
    requires MessageTable(messages, domains) && x in messages && MatchesAny(x, domains)
    ensures x in Take(Union(messages, domains), limit)
            <==> |Filter(Filter(messages, AnyTest(domains)), NewerTest(x))| < limit
  {
    var all := Filter(messages, AnyTest(domains));
    FilterMembers(messages, AnyTest(domains));
    UnionUntied(messages, domains);
    FirstByCount(all, ChangeOrder(), limit, x);
    AheadIsNewer(all, x);
  }

  lemma {:induction false} AheadIsNewer(s: seq<Row>, x: Row)
    ensures Filter(s, Ahead(ChangeOrder(), x)) == Filter(s, NewerTest(x))
  {
    if s != [] {
      AheadIsNewer(s[1..], x);
      ChangeTotal(s[0], x);
    }
  }

  ghost predicate OfTable(rows: seq<Row>, messages: seq<Row>, domains: seq<seq<Token>>) {
    UniqueIds(rows) && forall r | r in rows :: r in messages && MatchesAny(r, domains)
  }

  lemma SameIdSameRow(messages: seq<Row>, a: Row, b: Row)
    requires UniqueIds(messages) && a in messages && b in messages && IdOf(a) == IdOf(b)
    ensures a == b
  {
  }

  lemma {:induction false} MergeKeeps(rows: seq<Row>, found: seq<Row>, messages: seq<Row>, domains: seq<seq<Token>>)
    requires UniqueIds(messages) && OfTable(rows, messages, domains)
    requires forall r | r in found :: r in messages && MatchesAny(r, domains)
    ensures OfTable(Merge(rows, found), messages, domains)
    ensures forall r | r in rows || r in found :: r in Merge(rows, found)
    decreases |found|
  {
    if found != [] {
      var x := found[0];
      var rows' := if IdOf(x) in Ids(rows) then rows else rows + [x];
      assert x in found && found == [x] + found[1..];
      if IdOf(x) in Ids(rows) {
        var y :| y in rows && IdOf(y) == IdOf(x);
        SameIdSameRow(messages, x, y);
      } else {
        forall i | 0 <= i < |rows| ensures IdOf(rows[i]) != IdOf(x) {
          assert rows[i] in rows && IdOf(rows[i]) in Ids(rows);
        }
        assert forall r :: r in rows' <==> r in rows || r == x;
      }
      MergeKeeps(rows', found[1..], messages, domains);
    }
  }

  lemma UnionMembers(messages: seq<Row>, domains: seq<seq<Token>>)
    ensures forall r :: r in Union(messages, domains) <==> r in messages && MatchesAny(r, domains)
  {
    FilterMembers(messages, AnyTest(domains));
    SortMembers(Filter(messages, AnyTest(domains)), ChangeOrder());
  }

  /** `s` descends strictly. */
  ghost predicate Descends(s: seq<Row>) {
    forall i, j | 0 <= i < j < |s| :: ChangeLess(s[j], s[i])
  }

  lemma SortDescends(rows: seq<Row>)
    requires UniqueIds(rows)
    ensures Descends(Sort(rows, ChangeOrder()))
  {
    ChangeOrderPreorder();
    SortOrders(rows, ChangeOrder());
    SortUnique(rows, ChangeOrder());
    var s := Sort(rows, ChangeOrder());
    forall i, j | 0 <= i < j < |s| ensures ChangeLess(s[j], s[i]) {
      assert ChangeOrder()(s[i], s[j]);
      ChangeTotal(s[i], s[j]);
    }
  }

  /** A strictly descending part of `u` that holds the first `n` of `u` starts with them. */
  lemma {:induction false} SameTop(u: seq<Row>, v: seq<Row>, n: nat)
    requires Descends(u) && Descends(v)
    requires forall r | r in v :: r in u
    requires forall r | r in Take(u, n) :: r in v
    ensures Take(u, n) == Take(v, n)
    decreases n
  {
    assert forall i | 0 <= i < |v| :: v[i] in u;
    if u != [] && n > 0 {
      StartsAlike(u, v, n);
      TakeHead(u, n);
      TakeHead(v, n);
      SameTop(u[1..], v[1..], n - 1);
    }
  }

  /** The first element agrees, and the tails are again a case of the same claim. */
  lemma StartsAlike(u: seq<Row>, v: seq<Row>, n: nat)
    requires Descends(u) && Descends(v) && u != [] && n > 0
    requires forall r | r in v :: r in u
    requires forall r | r in Take(u, n) :: r in v
    ensures v != [] && u[0] == v[0] && Descends(u[1..]) && Descends(v[1..])
    ensures forall r | r in v[1..] :: r in u[1..]
    ensures forall r | r in Take(u[1..], n - 1) :: r in v[1..]
  {
    TakeHead(u, n);
    assert u[0] in Take(u, n);
    SameHead(u, v);
    TailsKeep(u, v);
    forall r | r in Take(u[1..], n - 1) ensures r in v[1..] {
      assert r in Take(u, n) && r in u[1..];
      NotHead(u, r);
      assert r in v && v == [v[0]] + v[1..];
    }
  }

  lemma TakeHead<T>(s: seq<T>, n: nat)
    requires s != [] && n > 0
    ensures Take(s, n) == [s[0]] + Take(s[1..], n - 1)
  {
  }

  lemma NotHead(s: seq<Row>, r: Row)
    requires Descends(s) && s != [] && r in s[1..]
    ensures r != s[0]
  {
    var i :| 0 <= i < |s| - 1 && s[1..][i] == r;
    assert s[i + 1] == r;
    ChangeTotal(s[0], r);
  }

  lemma TailsKeep(u: seq<Row>, v: seq<Row>)
    requires Descends(u) && Descends(v) && u != [] && v != [] && u[0] == v[0]
    requires forall r | r in v :: r in u
    ensures Descends(u[1..]) && Descends(v[1..])
    ensures forall r | r in v[1..] :: r in u[1..]
  {
    assert u == [u[0]] + u[1..];
    forall r | r in v[1..] ensures r in u[1..] {
      NotHead(v, r);
      assert r in v;
    }
  }

  lemma SameHead(u: seq<Row>, v: seq<Row>)
    requires Descends(u) && Descends(v) && u != [] && u[0] in v
    requires forall r | r in v :: r in u
    ensures v != [] && v[0] == u[0]
  {
    assert v[0] in v;
    var k :| 0 <= k < |u| && u[k] == v[0];
    var j :| 0 <= j < |v| && v[j] == u[0];
    ChangeTotal(u[0], v[0]);
  }

  lemma {:induction false} MergeAddsOnlyFound(rows: seq<Row>, found: seq<Row>)
    ensures forall r | r in Merge(rows, found) :: r in rows || r in found
    decreases |found|
  {
    if found != [] {
      assert found == [found[0]] + found[1..];
      MergeAddsOnlyFound(if IdOf(found[0]) in Ids(rows) then rows else rows + [found[0]], found[1..]);
    }
  }

  ghost predicate Fetched(messages: seq<Row>, todo: seq<seq<Token>>, limit: nat, r: Row) {
    exists d | d in todo :: r in Newest(messages, d, limit)
  }

  /** The loop gathers rows of the table, each once: those it had, and what the searches return. */
  lemma {:induction false} GatheredHolds(messages: seq<Row>, domains: seq<seq<Token>>, todo: seq<seq<Token>>,
                                         limit: nat, rows: seq<Row>)
    requires MessageTable(messages, domains) && OfTable(rows, messages, domains)
    requires forall d | d in todo :: d in domains
    ensures var g := Gathered(messages, todo, limit, rows);
            g.Some? && OfTable(g.value, messages, domains)
            && forall r :: r in g.value <==> r in rows || Fetched(messages, todo, limit, r)
    decreases |todo|
  {
    if todo != [] {
      var d := todo[0];
      assert d in todo && todo == [d] + todo[1..];
      NewestMembers(messages, domains, d, limit);
      var found := Newest(messages, d, limit);
      MergeKeeps(rows, found, messages, domains);
      MergeAddsOnlyFound(rows, found);
      GatheredHolds(messages, domains, todo[1..], limit, Merge(rows, found));
      forall r ensures Fetched(messages, todo, limit, r) <==> r in found || Fetched(messages, todo[1..], limit, r) {
        if Fetched(messages, todo, limit, r) {
          var e :| e in todo && r in Newest(messages, e, limit);
          assert e != d ==> e in todo[1..];
        }
      }
    }
  }

  /** A dated message that belongs into the answer, and fewer than `limit` rows come before it in the
      search of some domain it matches: that domain's undated messages, and its newer dated ones. */
  ghost predicate Reached(messages: seq<Row>, domains: seq<seq<Token>>, limit: nat, x: Row) {
    exists d | d in domains :: MatchesOne(x, d) && CountAhead(messages, d, x) < limit
  }

  lemma FetchedDatedExactlyWhen(messages: seq<Row>, domains: seq<seq<Token>>, limit: nat, x: Row)
    requires MessageTable(messages, domains) && x in messages && MatchesAny(x, domains) && Dated(x)
    ensures Fetched(messages, domains, limit, x) <==> Reached(messages, domains, limit, x)
  {
    forall d | d in domains
      ensures x in Newest(messages, d, limit) <==> MatchesOne(x, d) && CountAhead(messages, d, x) < limit
    {
      NewestMembers(messages, domains, d, limit);
      if MatchesOne(x, d) {
        NewestByCount(messages, domains, d, limit, x);
        assert forall r | r in messages && MatchesOne(r, d) :: MatchesAny(r, domains);
        AheadOfDated(messages, d, x);
      }
    }
  }

  lemma UndatedIsFetched(messages: seq<Row>, domains: seq<seq<Token>>, limit: nat, x: Row)
    requires MessageTable(messages, domains) && x in Take(Union(messages, domains), limit)
    requires x in messages && MatchesAny(x, domains) && Undated(x)
    ensures Fetched(messages, domains, limit, x)
  {
    var d :| d in domains && MatchesOne(x, d);
    UnionByCount(messages, domains, limit, x);
    assert forall r | r in messages && MatchesOne(r, d) :: MatchesAny(r, domains);
    AheadOfUndated(messages, domains, d, x);
    NewestByCount(messages, domains, d, limit, x);
  }

  lemma TopGatheredExactlyWhen(messages: seq<Row>, domains: seq<seq<Token>>, limit: nat)
    requires MessageTable(messages, domains)
    ensures (forall x | x in Take(Union(messages, domains), limit) :: Fetched(messages, domains, limit, x))
            <==> forall x | x in Take(Union(messages, domains), limit) && Dated(x) ::
              Reached(messages, domains, limit, x)
  {
    UnionMembers(messages, domains);
    forall x | x in Take(Union(messages, domains), limit)
      ensures Undated(x) || Dated(x)
      ensures Fetched(messages, domains, limit, x) <==> !Dated(x) || Reached(messages, domains, limit, x)
    {
      assert x in Union(messages, domains);
      if Dated(x) {
        FetchedDatedExactlyWhen(messages, domains, limit, x);
      } else {
        UndatedIsFetched(messages, domains, limit, x);
      }
    }
  }

  lemma SameTopExactlyWhen(u: seq<Row>, v: seq<Row>, n: nat)
    requires Descends(u) && Descends(v) && forall r | r in v :: r in u
    ensures Take(u, n) == Take(v, n) <==> forall r | r in Take(u, n) :: r in v
  {
    if forall r | r in Take(u, n) :: r in v {
      SameTop(u, v, n);
    }
    assert forall r | r in Take(v, n) :: r in v;
  }

  /** The merge against the newest `limit` of the whole union, for any list of domains: it is exact
      exactly when every dated message among those is reached by a search. */
  lemma MergeIsExactExactlyWhen(messages: seq<Row>, domains: seq<seq<Token>>, limit: nat)
    requires MessageTable(messages, domains)
    ensures var g := Gathered(messages, domains, limit, []);
            g.Some?
            && (Take(Sort(g.value, ChangeOrder()), limit) == Take(Union(messages, domains), limit)
                <==> forall x | x in Take(Union(messages, domains), limit) && Dated(x) ::
                  Reached(messages, domains, limit, x))
  {
    GatheredHolds(messages, domains, domains, limit, []);
    var rows := Gathered(messages, domains, limit, []).value;
    var u, v := Union(messages, domains), Sort(rows, ChangeOrder());
    UnionMembers(messages, domains);
    SortMembers(rows, ChangeOrder());
    FilterUnique(messages, AnyTest(domains));
    SortDescends(Filter(messages, AnyTest(domains)));
    SortDescends(rows);
    TopGatheredExactlyWhen(messages, domains, limit);
    SameTopExactlyWhen(u, v, limit);
  }

  /** With a date on every matching message the merge is exact: taking the newest `limit` of each
      domain, dropping repeats, sorting and cutting gives the newest `limit` of the union. */
  lemma MergeIsExact(messages: seq<Row>, domains: seq<seq<Token>>, limit: nat)
    requires MessageTable(messages, domains)
    requires forall r | r in messages && MatchesAny(r, domains) :: Dated(r)
    ensures var g := Gathered(messages, domains, limit, []);
            g.Some? && Take(Sort(g.value, ChangeOrder()), limit) == Take(Union(messages, domains), limit)
  {
    MergeIsExactExactlyWhen(messages, domains, limit);
    UnionMembers(messages, domains);
    assert forall x | x in Take(Union(messages, domains), limit) :: x in Union(messages, domains);
    forall x | x in Take(Union(messages, domains), limit) ensures Reached(messages, domains, limit, x) {
      var d :| d in domains && MatchesOne(x, d);
      UnionByCount(messages, domains, limit, x);
      NewerInUnion(messages, domains, d, x);
      NoUndated(messages, domains, d);
    }
  }

  lemma {:induction false} NoUndated(messages: seq<Row>, domains: seq<seq<Token>>, d: seq<Token>)
    requires d in domains && forall r | r in messages && MatchesAny(r, domains) :: Dated(r)
    ensures Filter(messages, UndatedTest(d)) == []
  {
    if messages != [] {
      assert messages[0] in messages;
      NoUndated(messages[1..], domains, d);
    }
  }

  /** The union holds each matching message once, newest first. */
  lemma UnionMeaning(messages: seq<Row>, domains: seq<seq<Token>>)
    requires MessageTable(messages, domains)
    ensures multiset(Union(messages, domains)) == multiset(Filter(messages, AnyTest(domains)))
    ensures Descends(Union(messages, domains))
  {
    FilterUnique(messages, AnyTest(domains));
    SortPermutes(Filter(messages, AnyTest(domains)), ChangeOrder());
    SortDescends(Filter(messages, AnyTest(domains)));
  }

  // ---------------------------------------------------------------- one domain

  function DatedTest(d: seq<Token>): Row -> bool {
    (y: Row) => MatchesOne(y, d) && Dated(y)
  }

  /** In one domain, what is newer than a dated message is dated; an undated one has every dated one
      before it. */
  lemma {:induction false} NewerInOne(messages: seq<Row>, d: seq<Token>, x: Row)
    requires (Dated(x) || Undated(x)) && forall r | r in messages && MatchesOne(r, d) :: Dated(r) || Undated(r)
    ensures var newer := |Filter(Filter(messages, AnyTest([d])), NewerTest(x))|;
            if Dated(x) then newer == |Filter(messages, NewerDatedTest(d, x))|
            else newer >= |Filter(messages, DatedTest(d))|
  {
    if messages != [] {
      var y, rest := messages[0], messages[1..];
      assert y in messages;
      NewerInOne(rest, d, x);
      assert MatchesAny(y, [d]) <==> MatchesOne(y, d) by {
        assert d in [d];
      }
      var all := Filter(rest, AnyTest([d]));
      assert ([y] + all)[1..] == all;
      LessTotal(DateText(x), DateText(y));
    }
  }

  lemma {:induction false} NewerIsFewer(messages: seq<Row>, d: seq<Token>, x: Row)
    ensures |Filter(messages, NewerDatedTest(d, x))| <= |Filter(messages, DatedTest(d))|
    ensures x in messages && MatchesOne(x, d) && Dated(x) ==>
              |Filter(messages, NewerDatedTest(d, x))| < |Filter(messages, DatedTest(d))|
  {
    if messages != [] {
      NewerIsFewer(messages[1..], d, x);
      ChangeTotal(x, x);
      assert messages == [messages[0]] + messages[1..];
    }
  }

  lemma {:induction false} DatedAmongAll(messages: seq<Row>, d: seq<Token>)
    ensures |Filter(messages, DatedTest(d))| <= |Filter(messages, AnyTest([d]))|
  {
    if messages != [] {
      DatedAmongAll(messages[1..], d);
      assert d in [d];
    }
  }

  lemma UnionAt(messages: seq<Row>, d: seq<Token>, m: nat) returns (x: Row)
    requires MessageTable(messages, [d]) && m < |Filter(messages, DatedTest(d))|
    ensures x in messages && MatchesOne(x, d)
    ensures |Filter(Filter(messages, AnyTest([d])), NewerTest(x))| == m
  {
    var all := Filter(messages, AnyTest([d]));
    DatedAmongAll(messages, d);
    SortPermutes(all, ChangeOrder());
    x := Union(messages, [d])[m];
    UnionMembers(messages, [d]);
    assert x in Union(messages, [d]);
    UnionUntied(messages, [d]);
    PositionIsCount(all, ChangeOrder(), m);
    AheadIsNewer(all, x);
  }

  /** The last dated message of the answer: as many are newer as there is room for. */
  lemma LastDated(messages: seq<Row>, d: seq<Token>, limit: nat, t: nat) returns (x: Row)
    requires MessageTable(messages, [d]) && limit > 0 && 0 < t == |Filter(messages, DatedTest(d))|
    ensures x in Take(Union(messages, [d]), limit) && Dated(x)
    ensures |Filter(messages, NewerDatedTest(d, x))| == (if t < limit then t else limit) - 1
  {
    x := UnionAt(messages, d, (if t < limit then t else limit) - 1);
    assert MatchesAny(x, [d]) by {
      assert d in [d];
    }
    assert forall r | r in messages && MatchesOne(r, d) :: MatchesAny(r, [d]) by {
      assert d in [d];
    }
    UnionByCount(messages, [d], limit, x);
    NewerInOne(messages, d, x);
  }

  /** One chatter, with `u` undated and `t` dated matches: the answer is exact exactly when there is
      nothing to show, no undated match, no dated one, or room for all of them. */
  lemma OneChatterExactExactlyWhen(messages: seq<Row>, d: seq<Token>, limit: nat)
    requires MessageTable(messages, [d])
    ensures var u, t := |Filter(messages, UndatedTest(d))|, |Filter(messages, DatedTest(d))|;
            var g := Gathered(messages, [d], limit, []);
            g.Some?
            && (Take(Sort(g.value, ChangeOrder()), limit) == Take(Union(messages, [d]), limit)
                <==> limit == 0 || u == 0 || t == 0 || u + t <= limit)
  {
    var u, t := |Filter(messages, UndatedTest(d))|, |Filter(messages, DatedTest(d))|;
    MergeIsExactExactlyWhen(messages, [d], limit);
    forall x | x in Take(Union(messages, [d]), limit) && Dated(x)
      ensures Reached(messages, [d], limit, x) <==> u + |Filter(messages, NewerDatedTest(d, x))| < limit
      ensures |Filter(messages, NewerDatedTest(d, x))| < limit && |Filter(messages, NewerDatedTest(d, x))| < t
    {
      OneReach(messages, d, limit, x);
    }
    if limit > 0 && t > 0 {
      var x := LastDated(messages, d, limit, t);
      assert Reached(messages, [d], limit, x) <==> u + (if t < limit then t else limit) - 1 < limit;
    }
  }

  lemma OneReach(messages: seq<Row>, d: seq<Token>, limit: nat, x: Row)
    requires MessageTable(messages, [d]) && x in Take(Union(messages, [d]), limit) && Dated(x)
    ensures Reached(messages, [d], limit, x) <==> CountAhead(messages, d, x) < limit
    ensures |Filter(messages, NewerDatedTest(d, x))| < limit
    ensures |Filter(messages, NewerDatedTest(d, x))| < |Filter(messages, DatedTest(d))|
  {
    UnionMembers(messages, [d]);
    assert x in Union(messages, [d]);
    assert forall r | r in messages && MatchesOne(r, d) :: MatchesAny(r, [d]) by {
      assert d in [d];
    }
    UnionByCount(messages, [d], limit, x);
    NewerInOne(messages, d, x);
    NewerIsFewer(messages, d, x);
    assert MatchesOne(x, d) && d in [d];
  }

  /** The smallest failing chatter: an undated message, a dated one, and room for one. */
  lemma UndatedMessageHidesDated(undated: Row, dated: Row)
    requires undated == map["id" := Num(1)] && dated == map["id" := Num(2), "date" := Text("2026-01-01 00:00:00")]
    ensures var g := Gathered([undated, dated], [[]], 1, []);
            g.Some? && Take(Sort(g.value, ChangeOrder()), 1) != Take(Union([undated, dated], [[]]), 1)
  {
    var both: seq<Row>, empty: seq<Token> := [undated, dated], [];
    assert Undated(undated) && Dated(dated) && MatchesOne(undated, empty) && MatchesOne(dated, empty);
    assert both[1..] == [dated] && [dated][1..] == [];
    assert Filter([dated], UndatedTest(empty)) == [] && Filter([dated], DatedTest(empty)) == [dated];
    assert Filter(both, UndatedTest(empty)) == [undated] && Filter(both, DatedTest(empty)) == [dated];
    assert [empty] == [[]];
    OneChatterExactExactlyWhen(both, empty, 1);
  }
}
