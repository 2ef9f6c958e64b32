/** The resumable feed of completed stock moves: `history.movements_feed`. */
module Feed {
  import opened Text
  import opened Options
  import opened Values
  import opened Domain
  import opened Sorting
  import opened Search
  import opened Dates
  import Marker

  const LIMIT_DEFAULT := 50
  const LIMIT_MAX := 200
  const FEED_ORDER := [SortKey("write_date", false), SortKey("id", false)]

  /** A position in (write_date, id) order, with the date in Odoo's own text. */
  datatype Cursor = Cursor(date: string, id: int)

  /** The cursor on the wire. */
  datatype Wire = Wire(date: Value, id: Value)

  datatype Code = BadArgs | ModuleDisabled | UpstreamUnavailable

  datatype Answer =
    | Refused(code: Code)
    | Page(items: seq<Row>, next: Wire, complete: bool)

  // ---------------------------------------------------------------- arguments

  /** `int(str(raw).strip())`. */
  function ReadInt(raw: Value): Option<int> {
    match raw
    case Num(n) => Some(n)
    case Text(t) =>
      var s := Marker.Strip(t);
      if s == "" then None
      else if s[0] == '-' || s[0] == '+' then
        (if s[1..] == "" then None
         else match Digits(s[1..], 0) case None => None case Some(n) => Some(if s[0] == '-' then -n else n))
      else Digits(s, 0)
    case _ => None
  }

  function FeedCursor(w: Wire): Option<Cursor> {
    match IsoToOdoo(if Truthy(w.date) then Show(w.date) else "")
    case None => None
    case Some(date) =>
      var id := if w.id == Null || w.id == Text("") then Some(0) else ReadInt(w.id);
      if id.None? || id.value < 0 then None else Some(Cursor(date, id.value))
  }

  function HistoryLimit(raw: Value): (r: Option<nat>)
    ensures r.Some? ==> 1 <= r.value <= LIMIT_MAX
  {
    if raw == Null || raw == Text("") then Some(LIMIT_DEFAULT)
    else
      match ReadInt(raw)
      case None => None
      case Some(n) => if 1 <= n <= LIMIT_MAX then Some(n) else None
  }

  // ---------------------------------------------------------------- the read

  function FeedDomain(c: Cursor): seq<Token> {
    [Triple("state", Eq(Text("done"))),
     Or, Triple("write_date", Gt(Text(c.date))),
     And, Triple("write_date", Eq(Text(c.date))), Triple("id", Gt(Num(c.id)))]
  }

  function WireOf(date: Value, id: Value): Wire {
    Wire(match OdooToIso(date) case None => Null case Some(s) => Text(s),
         match ReadInt(id) case None => Null case Some(n) => Num(n))
  }

  /** One feed request against a store; `enabled` is the module scope, `up` whether the backend answers. */
  function RunFeed(rows: seq<Row>, w: Wire, limit: Value, enabled: bool, up: bool): Answer {
    match FeedCursor(w)
    case None => Refused(BadArgs)
    case Some(c) =>
      match HistoryLimit(limit)
      case None => Refused(BadArgs)
      case Some(n) =>
        if !enabled then Refused(ModuleDisabled)
        else if !up then Refused(UpstreamUnavailable)
        else
          match SearchRows(rows, FeedDomain(c), FEED_ORDER, n)
          case Raises(_) => Refused(UpstreamUnavailable)
          case Val(items) => PageOf(items, c, n)
  }

  /** The page around the rows found: its `next` is the last row's key, or the cursor again. */
  function PageOf(items: seq<Row>, c: Cursor, n: nat): Answer {
    if items == [] then Page([], WireOf(Text(c.date), Num(c.id)), true)
    else
      var last := items[|items| - 1];
      Page(items, WireOf(Field(last, "write_date"), Field(last, "id")), |items| < n)
  }

  // ---------------------------------------------------------------- what it should return

  /** A `stock.move` row: an integer id, and a write date in Odoo's form (or none at all). */
  ghost predicate MoveRow(r: Row) {
    && Field(r, "id").Num? && IdOf(r) > 0
    && (Field(r, "write_date") == Null || (Field(r, "write_date").Text? && OdooDate(Field(r, "write_date").s)))
  }

  ghost predicate MoveTable(rows: seq<Row>) {
    UniqueIds(rows) && forall r | r in rows :: MoveRow(r)
  }

  predicate Done(r: Row) {
    Field(r, "state") == Text("done")
  }

  predicate After(c: Cursor, r: Row) {
    && Field(r, "write_date").Text?
    && (Less(c.date, Field(r, "write_date").s) || (Field(r, "write_date").s == c.date && IdOf(r) > c.id))
  }

  /** The done moves strictly above the cursor. */
  predicate Above(c: Cursor, r: Row) {
    Done(r) && After(c, r)
  }

  function AboveTest(c: Cursor): Row -> bool {
    (r: Row) => Above(c, r)
  }

  /** Everything the feed still owes from a cursor, in (write_date, id) order. */
  function Owed(rows: seq<Row>, c: Cursor): seq<Row> {
    Sort(Filter(rows, AboveTest(c)), LexOrder(FEED_ORDER))
  }

  lemma FeedDomainMeansAbove(r: Row, c: Cursor)
    requires MoveRow(r) && OdooDate(c.date)
    ensures DomainMatches(r, FeedDomain(c)) == Val(Above(c, r))
  {
    var date, id := Triple("write_date", Eq(Text(c.date))), Triple("id", Gt(Num(c.id)));
    var forest := [Leaf("state", Eq(Text("done"))),
                   Either(Leaf("write_date", Gt(Text(c.date))),
                          Both(Leaf("write_date", Eq(Text(c.date))), Leaf("id", Gt(Num(c.id)))))];
    FlattenedDomainMeansConjunction(forest, r);
    FeedForest(c, forest);
    StateTriple(r);
    DateTriples(r, c);
    var rest := forest[1..];
    assert rest[1..] == [];
    assert MeaningAll(rest, r) == Join(true, Meaning(forest[1], r), Val(true));
    assert MeaningAll(forest, r) == Join(true, Meaning(forest[0], r), MeaningAll(rest, r));
  }

  lemma FeedForest(c: Cursor, forest: seq<Tree>)
    requires forest == [Leaf("state", Eq(Text("done"))),
                        Either(Leaf("write_date", Gt(Text(c.date))),
                               Both(Leaf("write_date", Eq(Text(c.date))), Leaf("id", Gt(Num(c.id)))))]
    ensures FlattenAll(forest) == FeedDomain(c)
  {
    assert forest[1..][1..] == [];
    var date, id := Triple("write_date", Eq(Text(c.date))), Triple("id", Gt(Num(c.id)));
    assert Flatten(forest[1].right) == [And] + [date] + [id];
    assert Flatten(forest[1]) == [Or] + [Triple("write_date", Gt(Text(c.date)))] + [And, date, id];
    assert FlattenAll(forest[1..]) == Flatten(forest[1]) + [];
    assert FlattenAll(forest) == [Triple("state", Eq(Text("done")))] + Flatten(forest[1]);
  }

  lemma StateTriple(r: Row)
    ensures EvalTriple(r, "state", Eq(Text("done"))) == Val(CellText(Field(r, "state")) == "done")
    ensures CellText(Field(r, "state")) == "done" <==> Done(r)
  {
    var v := Field(r, "state");
    if v.Num? {
      assert "done"[0] in "done" && !IsDigit('d');
    }
    assert "True"[0] != "done"[0] && "False"[0] != "done"[0];
  }

  lemma DateTriples(r: Row, c: Cursor)
    requires MoveRow(r) && OdooDate(c.date)
    ensures Meaning(Either(Leaf("write_date", Gt(Text(c.date))),
                           Both(Leaf("write_date", Eq(Text(c.date))), Leaf("id", Gt(Num(c.id))))), r)
            == Val(After(c, r))
  {
    var v := Field(r, "write_date");
    assert c.date != "" && Show(Text(c.date)) == c.date;
    assert EvalTriple(r, "write_date", Gt(Text(c.date))) == Val(v.Text? && Less(c.date, v.s));
    assert EvalTriple(r, "write_date", Eq(Text(c.date))) == Val(v.Text? && v.s == c.date);
    assert EvalTriple(r, "id", Gt(Num(c.id))) == Val(c.id < IdOf(r));
    var tie := Both(Leaf("write_date", Eq(Text(c.date))), Leaf("id", Gt(Num(c.id))));
    assert Meaning(tie, r) == Val(v.Text? && v.s == c.date && c.id < IdOf(r));
  }

  /** A successful request returns the first `limit` of what is owed, and hands out its last key. */
  lemma PageIsPrefixOfOwed(rows: seq<Row>, c: Cursor, n: nat)
    requires MoveTable(rows) && OdooDate(c.date)
    ensures SearchRows(rows, FeedDomain(c), FEED_ORDER, n) == Val(Take(Owed(rows, c), n))
  {
    forall r | r in rows ensures DomainMatches(r, FeedDomain(c)) == Val(AboveTest(c)(r)) {
      FeedDomainMeansAbove(r, c);
    }
    SearchIsSortedFilter(rows, FeedDomain(c), FEED_ORDER, n, AboveTest(c));
  }

  // ---------------------------------------------------------------- paging over a fixed store

  function CursorOf(r: Row): Cursor
    requires Field(r, "write_date").Text?
  {
    Cursor(Field(r, "write_date").s, IdOf(r))
  }

  lemma OwedMembers(rows: seq<Row>, c: Cursor)
    ensures forall r :: r in Owed(rows, c) <==> r in rows && Above(c, r)
  {
    FilterMembers(rows, AboveTest(c));
    SortMembers(Filter(rows, AboveTest(c)), LexOrder(FEED_ORDER));
  }

  lemma FeedOrderMeaning(a: Row, b: Row)
    requires MoveRow(a) && MoveRow(b) && Field(a, "write_date").Text? && Field(b, "write_date").Text?
    requires LexOrder(FEED_ORDER)(a, b) && IdOf(a) != IdOf(b)
    ensures After(CursorOf(a), b) && !After(CursorOf(b), a)
  {
    var rest := FEED_ORDER[1..];
    assert rest == [SortKey("id", false)] && rest[1..] == [];
    assert LexLeq(rest, a, b) ==> IdOf(a) <= IdOf(b);
    var da, db := Field(a, "write_date").s, Field(b, "write_date").s;
    LessTotal(da, db);
    LessIrreflexive(da);
    if Less(da, db) && Less(db, da) {
      LessTransitive(da, db, da);
    }
  }

  /** What is owed is strictly ascending: each row lies after every earlier one, and not before. */
  lemma OwedAscends(rows: seq<Row>, c: Cursor, i: nat, j: nat)
    requires MoveTable(rows) && i < j < |Owed(rows, c)|
    ensures var s := Owed(rows, c);
            Above(c, s[i]) && Above(c, s[j]) && After(CursorOf(s[i]), s[j]) && !After(CursorOf(s[j]), s[i])
  {
    var s := Owed(rows, c);
    OwedMembers(rows, c);
    assert s[i] in s && s[j] in s;
    LexOrderPreorder(FEED_ORDER);
    SortOrders(Filter(rows, AboveTest(c)), LexOrder(FEED_ORDER));
    FilterUnique(rows, AboveTest(c));
    SortUnique(Filter(rows, AboveTest(c)), LexOrder(FEED_ORDER));
    FeedOrderMeaning(s[i], s[j]);
  }

  lemma AfterTransitive(c: Cursor, a: Row, r: Row)
    requires After(c, a) && After(CursorOf(a), r)
    ensures After(c, r)
  {
    var da, dr := Field(a, "write_date").s, Field(r, "write_date").s;
    if Less(c.date, da) && Less(da, dr) {
      LessTransitive(c.date, da, dr);
    }
  }

  lemma NotAfterItself(r: Row)
    requires Field(r, "write_date").Text?
    ensures !After(CursorOf(r), r)
  {
    LessIrreflexive(Field(r, "write_date").s);
  }

  /** Moving the cursor to the m-th owed row leaves exactly the rows after it. */
  lemma CursorAdvances(rows: seq<Row>, c: Cursor, m: nat)
    requires MoveTable(rows) && 0 < m <= |Owed(rows, c)|
    ensures Above(c, Owed(rows, c)[m - 1])
    ensures Owed(rows, CursorOf(Owed(rows, c)[m - 1])) == Owed(rows, c)[m..]
  {
    var s := Owed(rows, c);
    OwedMembers(rows, c);
    var last := s[m - 1];
    assert last in s;
    var next := CursorOf(last);
    var leq := LexOrder(FEED_ORDER);
    forall r | r in rows && AboveTest(next)(r) ensures AboveTest(c)(r) {
      AfterTransitive(c, last, r);
    }
    FilterTwice(rows, AboveTest(c), AboveTest(next));
    LexOrderPreorder(FEED_ORDER);
    FilterOfSort(Filter(rows, AboveTest(c)), AboveTest(next), leq);
    forall i | 0 <= i < |s| ensures AboveTest(next)(s[i]) <==> i >= m {
      AboveByPosition(rows, c, m - 1, i);
    }
    FilterTail(s, AboveTest(next), m);
  }

  /** Above a row owed are the rows owed behind it. */
  lemma AboveByPosition(rows: seq<Row>, c: Cursor, k: nat, i: nat)
    requires MoveTable(rows) && k < |Owed(rows, c)| && i < |Owed(rows, c)|
             && Field(Owed(rows, c)[k], "write_date").Text?
    ensures AboveTest(CursorOf(Owed(rows, c)[k]))(Owed(rows, c)[i]) <==> i > k
  {
    var s := Owed(rows, c);
    OwedMembers(rows, c);
    assert s[i] in s && s[k] in s;
    if i == k {
      NotAfterItself(s[k]);
    } else if i < k {
      OwedAscends(rows, c, i, k);
    } else {
      OwedAscends(rows, c, k, i);
    }
  }

  /** The cursor of a page survives its round trip over the wire. */
  lemma WireCursor(date: string, id: int)
    requires OdooDate(date) && id >= 0
    ensures FeedCursor(WireOf(Text(date), Num(id))) == Some(Cursor(date, id))
  {
    DateRoundTrip(date);
    IsoOfOdoo(date);
  }

  /** The cursor behind a page. */
  function Next(items: seq<Row>, c: Cursor): Cursor {
    if items == [] || !Field(items[|items| - 1], "write_date").Text? then c else CursorOf(items[|items| - 1])
  }

  /** One request: the first rows owed, the cursor behind them, and `complete` only at the end. */
  lemma FeedStep(rows: seq<Row>, w: Wire, limit: Value, c: Cursor, n: nat)
    requires MoveTable(rows) && FeedCursor(w) == Some(c) && HistoryLimit(limit) == Some(n)
    ensures var a := RunFeed(rows, w, limit, true, true);
            a.Page? && a.items == Take(Owed(rows, c), n) && (a.complete <==> |Owed(rows, c)| < n)
            && FeedCursor(a.next) == Some(Next(a.items, c))
  {
    var items := Take(Owed(rows, c), n);
    PageIsPrefixOfOwed(rows, c, n);
    assert RunFeed(rows, w, limit, true, true) == PageOf(items, c, n);
    PageCursor(rows, c, n);
  }

  lemma PageCursor(rows: seq<Row>, c: Cursor, n: nat)
    requires MoveTable(rows) && OdooDate(c.date) && c.id >= 0 && n > 0
    ensures var items := Take(Owed(rows, c), n);
            FeedCursor(PageOf(items, c, n).next) == Some(Next(items, c))
  {
    var items := Take(Owed(rows, c), n);
    if items == [] {
      WireCursor(c.date, c.id);
    } else {
      var last := items[|items| - 1];
      OwedMembers(rows, c);
      assert last in Owed(rows, c);
      WireCursor(Field(last, "write_date").s, IdOf(last));
    }
  }

  /** Behind a page lie exactly the rows owed after it. */
  lemma OwedAfterPage(rows: seq<Row>, c: Cursor, n: nat)
    requires MoveTable(rows) && n > 0
    ensures var items := Take(Owed(rows, c), n);
            Owed(rows, Next(items, c)) == Owed(rows, c)[|items|..]
  {
    var s := Owed(rows, c);
    var items := Take(s, n);
    if items == [] {
      assert s[0..] == s;
    } else {
      OwedMembers(rows, c);
      assert items[|items| - 1] == s[|items| - 1] && s[|items| - 1] in s;
      CursorAdvances(rows, c, |items|);
    }
  }

  lemma PagedOrAbove(rows: seq<Row>, c: Cursor, n: nat, r: Row)
    requires MoveTable(rows) && n > 0 && r in rows && Above(c, r)
    ensures var items := Take(Owed(rows, c), n); r in items || Above(Next(items, c), r)
  {
    var s := Owed(rows, c);
    var items := Take(s, n);
    OwedAfterPage(rows, c, n);
    OwedMembers(rows, c);
    OwedMembers(rows, Next(items, c));
    assert s == items + s[|items|..];
  }

  /** The concatenated items of a server's answers, each request following the last one's `next`. */
  function PagesOf(answer: (Wire, Value) -> Answer, w: Wire, limits: seq<Value>): seq<Row>
    decreases |limits|
  {
    if limits == [] then []
    else
      match answer(w, limits[0])
      case Refused(_) => []
      case Page(items, next, complete) => if complete then items else items + PagesOf(answer, next, limits[1..])
  }

  function Server(rows: seq<Row>): (Wire, Value) -> Answer {
    (w: Wire, limit: Value) => RunFeed(rows, w, limit, true, true)
  }

  function Pages(rows: seq<Row>, w: Wire, limits: seq<Value>): seq<Row> {
    PagesOf(Server(rows), w, limits)
  }

  function TotalOf(size: Value -> Option<nat>, limits: seq<Value>): nat {
    if limits == [] then 0
    else (match size(limits[0]) case None => 0 case Some(n) => n) + TotalOf(size, limits[1..])
  }

  function Total(limits: seq<Value>): nat {
    TotalOf(HistoryLimit, limits)
  }

  lemma TakeTwice<T>(s: seq<T>, n: nat, m: nat)
    requires n <= |s|
    ensures Take(s, n) + Take(s[n..], m) == Take(s, n + m)
  {
    assert s == s[..n] + s[n..];
  }

  lemma PageThenRest<T>(s: seq<T>, n: nat, m: nat, items: seq<T>, rest: seq<T>, complete: bool)
    requires items == Take(s, n) && (complete <==> |s| < n) && (!complete ==> rest == Take(s[n..], m))
    ensures (if complete then items else items + rest) == Take(s, n + m)
  {
    if !complete {
      TakeTwice(s, n, m);
    }
  }

  /** What one answer owes the next: the first rows owed, and a cursor behind them. */
  ghost predicate Serves(answer: (Wire, Value) -> Answer, good: Wire -> bool, owed: Wire -> seq<Row>,
                         size: Value -> Option<nat>) {
    forall w, l | good(w) && size(l).Some? ::
      var a := answer(w, l);
      var n := size(l).value;
      && a.Page? && a.items == Take(owed(w), n) && (a.complete <==> |owed(w)| < n)
      && (!a.complete ==> good(a.next) && owed(a.next) == owed(w)[n..])
  }

  lemma {:induction false} PagesConcatenate(answer: (Wire, Value) -> Answer, good: Wire -> bool, owed: Wire -> seq<Row>,
                                            size: Value -> Option<nat>, w: Wire, limits: seq<Value>)
    requires Serves(answer, good, owed, size) && good(w) && forall l | l in limits :: size(l).Some?
    ensures PagesOf(answer, w, limits) == Take(owed(w), TotalOf(size, limits))
    decreases |limits|
  {
    if limits != [] {
      var a, n := answer(w, limits[0]), size(limits[0]).value;
      if !a.complete {
        PagesConcatenate(answer, good, owed, size, a.next, limits[1..]);
      }
      PageThenRest(owed(w), n, TotalOf(size, limits[1..]), a.items, PagesOf(answer, a.next, limits[1..]), a.complete);
    }
  }

  function CursorGood(): Wire -> bool {
    (w: Wire) => FeedCursor(w).Some?
  }

  function OwedBehind(rows: seq<Row>): Wire -> seq<Row> {
    (w: Wire) => match FeedCursor(w) case None => [] case Some(c) => Owed(rows, c)
  }

  /** Following `next`, with any limits: the pages are exactly what was owed, in order, each row once,
      cut at the sum of the limits. */
  lemma PagingIsExact(rows: seq<Row>, w: Wire, limits: seq<Value>)
    requires MoveTable(rows) && FeedCursor(w).Some?
    requires forall l | l in limits :: HistoryLimit(l).Some?
    ensures Pages(rows, w, limits) == Take(Owed(rows, FeedCursor(w).value), Total(limits))
  {
    FeedServes(rows);
    PagesConcatenate(Server(rows), CursorGood(), OwedBehind(rows), HistoryLimit, w, limits);
  }

  lemma FeedServes(rows: seq<Row>)
    requires MoveTable(rows)
    ensures Serves(Server(rows), CursorGood(), OwedBehind(rows), HistoryLimit)
  {
    forall w, l | CursorGood()(w) && HistoryLimit(l).Some?
      ensures var a := Server(rows)(w, l);
              var n := HistoryLimit(l).value;
              && a.Page? && a.items == Take(OwedBehind(rows)(w), n) && (a.complete <==> |OwedBehind(rows)(w)| < n)
              && (!a.complete ==> CursorGood()(a.next) && OwedBehind(rows)(a.next) == OwedBehind(rows)(w)[n..])
    {
      var items, next, complete := FirstPage(rows, w, l, FeedCursor(w).value, HistoryLimit(l).value);
    }
  }

  lemma FirstPage(rows: seq<Row>, w: Wire, limit: Value, c: Cursor, n: nat)
    returns (items: seq<Row>, next: Wire, complete: bool)
    requires MoveTable(rows) && FeedCursor(w) == Some(c) && HistoryLimit(limit) == Some(n)
    ensures RunFeed(rows, w, limit, true, true) == Page(items, next, complete)
    ensures items == Take(Owed(rows, c), n) && (complete <==> |Owed(rows, c)| < n)
    ensures !complete ==> FeedCursor(next).Some? && Owed(rows, FeedCursor(next).value) == Owed(rows, c)[n..]
  {
    FeedStep(rows, w, limit, c, n);
    var a := RunFeed(rows, w, limit, true, true);
    items, next, complete := a.items, a.next, a.complete;
    OwedAfterPage(rows, c, n);
  }

  lemma {:induction false} TotalAtLeast(limits: seq<Value>)
    requires forall l | l in limits :: HistoryLimit(l).Some?
    ensures Total(limits) >= |limits|
  {
    if limits != [] {
      TotalAtLeast(limits[1..]);
    }
  }

  /** Paging ends: as many requests as rows owed deliver them all. */
  lemma PagingTerminates(rows: seq<Row>, w: Wire, limits: seq<Value>)
    requires MoveTable(rows) && FeedCursor(w).Some?
    requires forall l | l in limits :: HistoryLimit(l).Some?
    requires |limits| >= |Owed(rows, FeedCursor(w).value)|
    ensures Pages(rows, w, limits) == Owed(rows, FeedCursor(w).value)
  {
    PagingIsExact(rows, w, limits);
    TotalAtLeast(limits);
  }

  /** Every done move above the cursor is owed, once, in strictly ascending (write_date, id) order. */
  lemma OwedIsExact(rows: seq<Row>, c: Cursor)
    requires MoveTable(rows)
    ensures multiset(Owed(rows, c)) == multiset(Filter(rows, AboveTest(c)))
    ensures forall r :: r in Owed(rows, c) <==> r in rows && Done(r) && After(c, r)
    ensures UniqueIds(Owed(rows, c))
    ensures forall i, j | 0 <= i < j < |Owed(rows, c)| ::
              Owed(rows, c)[i] in rows && After(c, Owed(rows, c)[i])
              && After(CursorOf(Owed(rows, c)[i]), Owed(rows, c)[j])
  {
    OwedMembers(rows, c);
    SortPermutes(Filter(rows, AboveTest(c)), LexOrder(FEED_ORDER));
    FilterUnique(rows, AboveTest(c));
    SortUnique(Filter(rows, AboveTest(c)), LexOrder(FEED_ORDER));
    forall i, j | 0 <= i < j < |Owed(rows, c)|
      ensures Owed(rows, c)[i] in rows && After(c, Owed(rows, c)[i])
              && After(CursorOf(Owed(rows, c)[i]), Owed(rows, c)[j])
    {
      OwedAscends(rows, c, i, j);
      assert Owed(rows, c)[i] in Owed(rows, c);
    }
  }

  // ---------------------------------------------------------------- paging while moves are written

  /** The wire cursor before request `i`, when request `k` meets the store `stores[k]`. */
  function WireAt(stores: seq<seq<Row>>, w: Wire, limits: seq<Value>, i: nat): Wire
    requires i <= |stores| == |limits|
  {
    if i == 0 then w
    else
      match RunFeed(stores[i - 1], WireAt(stores, w, limits, i - 1), limits[i - 1], true, true)
      case Refused(_) => WireAt(stores, w, limits, i - 1)
      case Page(_, next, _) => next
  }

  /** The items of request `i`. */
  function PageAt(stores: seq<seq<Row>>, w: Wire, limits: seq<Value>, i: nat): seq<Row>
    requires i < |stores| == |limits|
  {
    match RunFeed(stores[i], WireAt(stores, w, limits, i), limits[i], true, true)
    case Refused(_) => []
    case Page(items, _, _) => items
  }

  /** The cursor in hand before request `i`. */
  function CursorAt(stores: seq<seq<Row>>, w: Wire, limits: seq<Value>, i: nat): Cursor
    requires i <= |stores| == |limits|
  {
    match FeedCursor(WireAt(stores, w, limits, i)) case None => Cursor("", 0) case Some(c) => c
  }

  function Delivered(stores: seq<seq<Row>>, w: Wire, limits: seq<Value>, i: nat): seq<Row>
    requires i <= |stores| == |limits|
  {
    if i == 0 then [] else Delivered(stores, w, limits, i - 1) + PageAt(stores, w, limits, i - 1)
  }

  /** A session of requests, each following the last one's `next`. Between two of them moves may be
      added, removed or rewritten at will: `stores[i]` is what request `i` meets. */
  ghost predicate Session(stores: seq<seq<Row>>, w: Wire, limits: seq<Value>) {
    && |stores| == |limits| && FeedCursor(w).Some?
    && (forall l | l in limits :: HistoryLimit(l).Some?)
    && (forall i | 0 <= i < |stores| :: MoveTable(stores[i]))
  }

  lemma {:induction false} RequestAt(stores: seq<seq<Row>>, w: Wire, limits: seq<Value>, i: nat) returns (n: nat)
    requires Session(stores, w, limits) && i < |stores|
    ensures FeedCursor(WireAt(stores, w, limits, i)).Some?
    ensures n > 0 && PageAt(stores, w, limits, i) == Take(Owed(stores[i], CursorAt(stores, w, limits, i)), n)
    ensures CursorAt(stores, w, limits, i + 1) == Next(PageAt(stores, w, limits, i), CursorAt(stores, w, limits, i))
    ensures FeedCursor(WireAt(stores, w, limits, i + 1)).Some?
    decreases i
  {
    if i > 0 {
      var m := RequestAt(stores, w, limits, i - 1);
    }
    var wi := WireAt(stores, w, limits, i);
    assert limits[i] in limits;
    n := HistoryLimit(limits[i]).value;
    FeedStep(stores[i], wi, limits[i], FeedCursor(wi).value, n);
  }

  /** A cursor only moves forward: what it has passed it never meets again. */
  lemma PassedStaysPassed(rows: seq<Row>, c: Cursor, n: nat, r: Row)
    requires MoveTable(rows) && n > 0 && !After(c, r)
    ensures r !in Take(Owed(rows, c), n) && !After(Next(Take(Owed(rows, c), n), c), r)
  {
    var items := Take(Owed(rows, c), n);
    OwedMembers(rows, c);
    assert forall x | x in items :: x in Owed(rows, c);
    if items != [] {
      var last := items[|items| - 1];
      assert last in items && After(c, last);
      if After(CursorOf(last), r) {
        AfterTransitive(c, last, r);
      }
    }
  }

  /** When a move that appears between two requests and then stays is delivered or still ahead, however
      long the session goes on: exactly when it lies above the cursor in hand when it appears. That
      is a later date, or the cursor's own date with a higher id. */
  lemma {:induction false} NewMoveIsSeenExactlyWhen(stores: seq<seq<Row>>, w: Wire, limits: seq<Value>, j: nat, i: nat,
                                                    r: Row)
    requires Session(stores, w, limits) && j <= i <= |stores| && Done(r)
    requires forall h | j <= h < i :: r in stores[h]
    ensures After(CursorAt(stores, w, limits, j), r)
            <==> Above(CursorAt(stores, w, limits, i), r) || Paged(stores, w, limits, j, i, r)
    decreases i
  {
    if j == i {
      assert !Paged(stores, w, limits, j, i, r);
    } else {
      NewMoveIsSeenExactlyWhen(stores, w, limits, j, i - 1, r);
      RequestSees(stores, w, limits, i - 1, r);
      PagedOneMore(stores, w, limits, j, i, r);
    }
  }

  lemma PagedOneMore(stores: seq<seq<Row>>, w: Wire, limits: seq<Value>, j: nat, i: nat, r: Row)
    requires j < i <= |stores| == |limits|
    ensures Paged(stores, w, limits, j, i, r)
            <==> Paged(stores, w, limits, j, i - 1, r) || r in PageAt(stores, w, limits, i - 1)
  {
  }

  /** One request delivers a done move of its store, or leaves it ahead, exactly when it lay ahead. */
  lemma RequestSees(stores: seq<seq<Row>>, w: Wire, limits: seq<Value>, i: nat, r: Row)
    requires Session(stores, w, limits) && i < |stores| && r in stores[i] && Done(r)
    ensures After(CursorAt(stores, w, limits, i), r)
            <==> r in PageAt(stores, w, limits, i) || Above(CursorAt(stores, w, limits, i + 1), r)
    ensures Above(CursorAt(stores, w, limits, i), r) <==> After(CursorAt(stores, w, limits, i), r)
  {
    var n := RequestAt(stores, w, limits, i);
    AboveIsPagedOrAbove(stores[i], CursorAt(stores, w, limits, i), n, r);
  }

  /** Was the move on a page from request `j` up to, not including, request `i`? */
  predicate Paged(stores: seq<seq<Row>>, w: Wire, limits: seq<Value>, j: nat, i: nat, r: Row)
    requires j <= i <= |stores| == |limits|
    decreases i
  {
    j < i && (Paged(stores, w, limits, j, i - 1, r) || r in PageAt(stores, w, limits, i - 1))
  }

  lemma AboveIsPagedOrAbove(rows: seq<Row>, c: Cursor, n: nat, r: Row)
    requires MoveTable(rows) && n > 0 && r in rows && Done(r)
    ensures var items := Take(Owed(rows, c), n); After(c, r) <==> r in items || Above(Next(items, c), r)
  {
    if After(c, r) {
      PagedOrAbove(rows, c, n, r);
    } else {
      PassedStaysPassed(rows, c, n, r);
    }
  }

  /** Whatever is new or changed lies above the cursor then in hand. */
  ghost predicate WrittenAbove(before: seq<Row>, now: seq<Row>, c: Cursor) {
    forall r | r in now && r !in before && Done(r) :: After(c, r)
  }

  /** No done move is skipped: after request `i` every done move of that store above the first cursor
      has been delivered, or still lies above the cursor in hand. */
  lemma {:induction false} NoMoveSkipped(stores: seq<seq<Row>>, w: Wire, limits: seq<Value>, i: nat, r: Row)
    requires Session(stores, w, limits) && 0 < i <= |stores|
    requires forall h | 0 < h < |stores| :: WrittenAbove(stores[h - 1], stores[h], CursorAt(stores, w, limits, h))
    requires r in stores[i - 1] && Above(CursorAt(stores, w, limits, 0), r)
    ensures r in Delivered(stores, w, limits, i) || Above(CursorAt(stores, w, limits, i), r)
    decreases i
  {
    if i > 1 && r in stores[i - 2] {
      NoMoveSkipped(stores, w, limits, i - 1, r);
    } else if i > 1 {
      assert WrittenAbove(stores[i - 2], stores[i - 1], CursorAt(stores, w, limits, i - 1));
    }
    RequestSees(stores, w, limits, i - 1, r);
    DeliveredAfter(stores, w, limits, i);
  }

  lemma DeliveredAfter(stores: seq<seq<Row>>, w: Wire, limits: seq<Value>, i: nat)
    requires 0 < i <= |stores| == |limits|
    ensures Delivered(stores, w, limits, i)
            == Delivered(stores, w, limits, i - 1) + PageAt(stores, w, limits, i - 1)
  {
  }

  /** So a move written in the cursor's own second under a lower id is lost. */
  lemma SameSecondLowerIdIsLost(stores: seq<seq<Row>>, w: Wire, limits: seq<Value>, j: nat, i: nat, r: Row)
    requires Session(stores, w, limits) && j <= i < |stores| && Done(r) && forall h | j <= h <= i :: r in stores[h]
    requires var c := CursorAt(stores, w, limits, j); Field(r, "write_date") == Text(c.date) && IdOf(r) <= c.id
    ensures r !in PageAt(stores, w, limits, i)
  {
    LessIrreflexive(CursorAt(stores, w, limits, j).date);
    NewMoveIsSeenExactlyWhen(stores, w, limits, j, i + 1, r);
  }

  // ---------------------------------------------------------------- arguments and refusals

  lemma {:induction false} NumeralStays(n: nat)
    ensures Marker.Strip(Numeral(n)) == Numeral(n) && IsDigit(Numeral(n)[0]) && Digits(Numeral(n), 0) == Some(n)
  {
    NumeralReads(n);
    assert Numeral(n)[0] in Numeral(n) && Numeral(n)[|Numeral(n)| - 1] in Numeral(n);
    StripTight(Numeral(n));
  }

  /** A limit is 50 when none is given, a number from 1 to 200 however it is written, and else refused. */
  lemma LimitMeans(n: nat)
    ensures HistoryLimit(Null) == HistoryLimit(Text("")) == Some(50)
    ensures HistoryLimit(Num(n)) == HistoryLimit(Text(Numeral(n))) == if 1 <= n <= 200 then Some(n) else None
    ensures HistoryLimit(Num(-1 - n)) == None && HistoryLimit(Flag(true)) == None && HistoryLimit(Flag(false)) == None
  {
    NumeralStays(n);
  }

  lemma CursorOfIso(date: string, id: Value)
    requires OdooDate(date)
    ensures var n := if id == Null || id == Text("") then Some(0) else ReadInt(id);
            FeedCursor(Wire(Text(IsoText(date)), id))
            == if n.None? || n.value < 0 then None else Some(Cursor(date, n.value))
  {
    OdooOfIso(date);
  }

  /** A cursor is a timestamp in ISO text and an id of 0 or more, 0 when none is given. */
  lemma CursorMeans(date: string, n: nat, id: Value)
    requires OdooDate(date)
    ensures FeedCursor(Wire(Text(IsoText(date)), Num(n))) == Some(Cursor(date, n))
    ensures FeedCursor(Wire(Text(IsoText(date)), Text(Numeral(n)))) == Some(Cursor(date, n))
    ensures FeedCursor(Wire(Text(IsoText(date)), Null)) == Some(Cursor(date, 0))
    ensures FeedCursor(Wire(Text(IsoText(date)), Text(""))) == Some(Cursor(date, 0))
    ensures FeedCursor(Wire(Text(IsoText(date)), Num(-1 - n))) == None
    ensures FeedCursor(Wire(Null, id)) == FeedCursor(Wire(Text(""), id)) == None
  {
    CursorOfIso(date, Num(n));
    CursorOfIso(date, Text(Numeral(n)));
    CursorOfIso(date, Null);
    CursorOfIso(date, Text(""));
    CursorOfIso(date, Num(-1 - n));
    NumeralStays(n);
    NoDate(id);
  }

  lemma NoDate(id: Value)
    ensures FeedCursor(Wire(Null, id)) == FeedCursor(Wire(Text(""), id)) == None
  {
  }

  /** Arguments are judged before the scope, and the scope before the backend is asked; what passes them
      all is a page of the moves owed. */
  lemma FeedAnswersExactlyWhen(rows: seq<Row>, w: Wire, limit: Value, enabled: bool, up: bool)
    requires MoveTable(rows)
    ensures var a := RunFeed(rows, w, limit, enabled, up);
            var good := FeedCursor(w).Some? && HistoryLimit(limit).Some?;
            && (a == Refused(BadArgs) <==> !good)
            && (a == Refused(ModuleDisabled) <==> good && !enabled)
            && (a == Refused(UpstreamUnavailable) <==> good && enabled && !up)
            && (a.Page? <==> good && enabled && up)
            && (a.Page? ==> a.items == Take(Owed(rows, FeedCursor(w).value), HistoryLimit(limit).value)
                            && (a.complete <==> |a.items| < HistoryLimit(limit).value))
  {
    if FeedCursor(w).Some? && HistoryLimit(limit).Some? {
      PageIsPrefixOfOwed(rows, FeedCursor(w).value, HistoryLimit(limit).value);
    }
  }
}
