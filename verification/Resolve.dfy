/** From human terms to what a field accepts: references, options, and the gate that checks them. */
module Resolve {
  import opened Options
  import opened Text
  import opened Values
  import Domain
  import Marker

  /** A record of a referenced model. */
  datatype Ref = Ref(id: Option<nat>, name: string, code: string)

  datatype Choice = Choice(key: Value, text: string)

  /** What the live schema says of a field: a relation to other records, a closed set, or nothing. */
  datatype Meta = Relation(model: string) | Closed(choices: seq<Choice>) | Free

  /** A value in a document: one value, several, or x2many lines that are passed through. */
  datatype Cell = Scalar(v: Value) | Several(vs: seq<Value>) | Lines(id: int)

  type Doc = map<string, Cell>

  type Tables = map<string, seq<Ref>>

  type Schema = map<string, Meta>

  function Tidy(s: string): string {
    Domain.Lower(Marker.Strip(s))
  }

  function Upper(s: string): (t: string)
    ensures |t| == |s|
  {
    seq(|s|, i requires 0 <= i < |s| => if 'a' <= s[i] <= 'z' then s[i] - 'a' + 'A' else s[i])
  }

  predicate AllDigits(s: string) {
    s != "" && forall c | c in s :: IsDigit(c)
  }

  predicate AllLetters(s: string) {
    forall c | c in s :: 'a' <= c <= 'z' || 'A' <= c <= 'Z'
  }

  /** A search in table order, cut at `limit`. */
  function Pick(rows: seq<Ref>, p: Ref -> bool, limit: nat): seq<Ref>
    decreases |rows|
  {
    if rows == [] || limit == 0 then []
    else if p(rows[0]) then [rows[0]] + Pick(rows[1..], p, limit - 1)
    else Pick(rows[1..], p, limit)
  }

  function Candidates(rows: seq<Ref>, v: string): seq<Ref> {
    var byCode := if 2 <= |v| <= 3 && AllLetters(v) then Pick(rows, (r: Ref) => r.code == Upper(v), 2) else [];
    if byCode != [] then byCode
    else Pick(rows, (r: Ref) => Contains(Domain.Lower(r.name), Domain.Lower(v)), 8)
  }

  /** `_resolve_reference`: a numeral is an id; otherwise exactly one record must be meant. */
  function Reference(rows: seq<Ref>, value: Value): Option<Value> {
    var v := Marker.Strip(Show(value));
    if v == "" then None
    else if AllDigits(v) then
      (match Digits(v, 0) case None => None case Some(n) => Some(Num(n)))
    else
      var found := Candidates(rows, v);
      var exact := Pick(found, (r: Ref) => Tidy(r.name) == Domain.Lower(v), |found|);
      var pool := if exact != [] then exact else found;
      if |pool| != 1 || pool[0].id.None? then None else Some(Num(pool[0].id.value))
  }

  predicate IsKey(choices: seq<Choice>, value: Value, v: string) {
    exists c | c in choices :: Same(c.key, value) || Show(c.key) == v
  }

  function Named(choices: seq<Choice>, v: string): seq<Value> {
    if choices == [] then []
    else
      var c, rest := choices[0], Named(choices[1..], v);
      if Tidy(c.text) == Domain.Lower(v) || Tidy(Show(c.key)) == Domain.Lower(v) then [c.key] + rest else rest
  }

  /** `_resolve_option`: a stored key is itself; otherwise one key must be meant. */
  function Selection(choices: seq<Choice>, value: Value): Option<Value> {
    var v := Marker.Strip(Show(value));
    if v == "" then None
    else if IsKey(choices, value, v) then Some(value)
    else
      var hits := Named(choices, v);
      if hits == [] || exists h | h in hits :: Show(h) != Show(hits[0]) then None else Some(hits[0])
  }

  function MetaOf(schema: Schema, field: string): Meta {
    if field in schema then schema[field] else Free
  }

  function One(tables: Tables, meta: Meta, value: Value): Option<Value> {
    match meta
    case Free => Some(value)
    case Relation(m) => Reference(if m in tables then tables[m] else [], value)
    case Closed(cs) => if cs == [] then Some(value) else Selection(cs, value)
  }

  function Each(tables: Tables, meta: Meta, vs: seq<Value>): Option<seq<Value>> {
    if vs == [] then Some([])
    else
      match (One(tables, meta, vs[0]), Each(tables, meta, vs[1..]))
      case (Some(v), Some(rest)) => Some([v] + rest)
      case _ => None
  }

  predicate Skipped(c: Cell) {
    c.Lines? || (c.Scalar? && (c.v == Null || c.v == Text("")))
  }

  function ResolveCell(tables: Tables, meta: Meta, c: Cell): Option<Cell> {
    if Skipped(c) then Some(c)
    else
      match c
      case Scalar(v) => (match One(tables, meta, v) case None => None case Some(r) => Some(Scalar(r)))
      case Several(vs) => (match Each(tables, meta, vs) case None => None case Some(rs) => Some(Several(rs)))
      case Lines(_) => Some(c)
  }

  /** Every field of the document resolves. */
  predicate Resolvable(tables: Tables, schema: Schema, doc: Doc) {
    forall f | f in doc :: ResolveCell(tables, MetaOf(schema, f), doc[f]).Some?
  }

  function Resolved(tables: Tables, schema: Schema, doc: Doc): Doc
    requires Resolvable(tables, schema, doc)
  {
    map f | f in doc :: ResolveCell(tables, MetaOf(schema, f), doc[f]).value
  }

  /** `_resolve_writes`: fields in any order; the first one that cannot be resolved ends it. */
  method ResolveWrites(tables: Tables, schema: Schema, doc: Doc) returns (r: Option<Doc>)
    ensures r.Some? <==> Resolvable(tables, schema, doc)
    ensures r.Some? ==> r.value == Resolved(tables, schema, doc)
  {
    var resolved := doc;
    var todo := doc.Keys;
    while todo != {}
      invariant todo <= doc.Keys && resolved.Keys == doc.Keys
      invariant forall f | f in doc && f !in todo ::
                  ResolveCell(tables, MetaOf(schema, f), doc[f]) == Some(resolved[f])
      invariant forall f | f in todo :: resolved[f] == doc[f]
      decreases todo
    {
      var f :| f in todo;
      var c := ResolveCell(tables, MetaOf(schema, f), doc[f]);
      if c.None? {
        return None;
      }
      resolved := resolved[f := c.value];
      todo := todo - {f};
    }
    r := Some(resolved);
  }

  /** The values of a cell the gate looks at. */
  function Entries(c: Cell): seq<Value> {
    match c
    case Scalar(v) => [v]
    case Several(vs) => vs
    case Lines(_) => []
  }

  predicate Passes(tables: Tables, meta: Meta, c: Cell) {
    Skipped(c) || forall v | v in Entries(c) :: One(tables, meta, v).Some?
  }

  method GateCell(tables: Tables, meta: Meta, c: Cell) returns (passes: bool)
    ensures passes <==> Passes(tables, meta, c)
  {
    if Skipped(c) {
      return true;
    }
    passes := AllPass(Entries(c), v => One(tables, meta, v).Some?);
  }

  method AllPass(vs: seq<Value>, ok: Value -> bool) returns (passes: bool)
    ensures passes <==> forall v | v in vs :: ok(v)
  {
    for i := 0 to |vs|
      invariant forall k | 0 <= k < i :: ok(vs[k])
    {
      if !ok(vs[i]) {
        return false;
      }
    }
    passes := true;
  }

  /** `_choice_gate`: value by value, until one is no member of its set. */
  method ChoiceGate(tables: Tables, schema: Schema, doc: Doc) returns (refused: Option<string>)
    ensures refused.None? <==> forall f | f in doc :: Passes(tables, MetaOf(schema, f), doc[f])
    ensures refused.Some? ==> refused.value in doc && !Passes(tables, MetaOf(schema, refused.value), doc[refused.value])
  {
    var todo := doc.Keys;
    while todo != {}
      invariant todo <= doc.Keys
      invariant forall f | f in doc && f !in todo :: Passes(tables, MetaOf(schema, f), doc[f])
      decreases todo
    {
      var f :| f in todo;
      todo := todo - {f};
      var passes := GateCell(tables, MetaOf(schema, f), doc[f]);
      if !passes {
        return Some(f);
      }
    }
    refused := None;
  }

  // ---------------------------------------------------------------- what PROPOSE promises COMMIT

  lemma {:induction false} EachIsAll(tables: Tables, meta: Meta, vs: seq<Value>)
    ensures Each(tables, meta, vs).Some? <==> forall v | v in vs :: One(tables, meta, v).Some?
  {
    if vs != [] {
      EachIsAll(tables, meta, vs[1..]);
      assert forall v :: v in vs <==> v == vs[0] || v in vs[1..];
    }
  }

  /** The gate passes a document exactly when the commit's resolution of it succeeds. */
  lemma GateMirrorsResolution(tables: Tables, schema: Schema, doc: Doc)
    ensures (forall f | f in doc :: Passes(tables, MetaOf(schema, f), doc[f])) <==> Resolvable(tables, schema, doc)
  {
    forall f | f in doc
      ensures Passes(tables, MetaOf(schema, f), doc[f]) <==> ResolveCell(tables, MetaOf(schema, f), doc[f]).Some?
    {
      if doc[f].Several? {
        EachIsAll(tables, MetaOf(schema, f), doc[f].vs);
      } else if doc[f].Scalar? {
        assert Entries(doc[f]) == [doc[f].v] && doc[f].v in Entries(doc[f]);
      }
    }
  }

  /** What one value resolves to: itself in a free field or one with no options, else the record or the
      option it means. A model without a table has no records. */
  predicate IsResolved(tables: Tables, meta: Meta, v: Value, r: Value) {
    match meta
    case Free => r == v
    case Relation(m) => Reference(if m in tables then tables[m] else [], v) == Some(r)
    case Closed(cs) => if cs == [] then r == v else Selection(cs, v) == Some(r)
  }

  lemma {:induction false} EachMeans(tables: Tables, meta: Meta, vs: seq<Value>, rs: seq<Value>)
    ensures Each(tables, meta, vs) == Some(rs)
            <==> |rs| == |vs| && forall i | 0 <= i < |vs| :: IsResolved(tables, meta, vs[i], rs[i])
  {
    if vs != [] && rs != [] {
      EachMeans(tables, meta, vs[1..], rs[1..]);
      assert rs == [rs[0]] + rs[1..];
      assert (forall i | 0 <= i < |vs| - 1 && |rs| == |vs| :: IsResolved(tables, meta, vs[1..][i], rs[1..][i]))
             <==> (forall i | 1 <= i < |vs| && |rs| == |vs| :: IsResolved(tables, meta, vs[i], rs[i])) by {
        assert forall i | 1 <= i < |vs| && |rs| == |vs| :: vs[i] == vs[1..][i - 1] && rs[i] == rs[1..][i - 1];
      }
    }
  }

  /** Unset and empty values and x2many lines are left alone; any other cell becomes exactly the cell of
      what its values resolve to. */
  lemma CellMeans(tables: Tables, meta: Meta, c: Cell, r: Cell)
    ensures ResolveCell(tables, meta, c) == Some(r)
            <==> match c
                 case Lines(_) => r == c
                 case Scalar(v) =>
                   if v == Null || v == Text("") then r == c else r.Scalar? && IsResolved(tables, meta, v, r.v)
                 case Several(vs) =>
                   r.Several? && |r.vs| == |vs| && forall i | 0 <= i < |vs| :: IsResolved(tables, meta, vs[i], r.vs[i])
  {
    if c.Several? && r.Several? {
      EachMeans(tables, meta, c.vs, r.vs);
    }
  }

  /** The keys of a closed set are legible: none is blank or set in blanks. */
  predicate TidyMeta(meta: Meta) {
    meta.Closed? ==> forall c | c in meta.choices :: Marker.Strip(Show(c.key)) != ""
  }

  lemma ReferenceIsNumber(rows: seq<Ref>, value: Value)
    requires Reference(rows, value).Some?
    ensures Reference(rows, value).value.Num? && Reference(rows, value).value.n >= 0
  {
    var v := Marker.Strip(Show(value));
    if AllDigits(v) {
      DigitsAreNatural(v, 0);
    }
  }

  lemma {:induction false} DigitsAreNatural(s: string, acc: nat)
    requires Digits(s, acc).Some?
    ensures Digits(s, acc).value >= 0
  {
    if s != [] {
      DigitsAreNatural(s[1..], 10 * acc + (s[0] - '0') as int);
    }
  }

  lemma NumberResolvesToItself(rows: seq<Ref>, n: nat)
    ensures Reference(rows, Num(n)) == Some(Num(n))
  {
    var s := Numeral(n);
    NumeralReads(n);
    assert s[0] in s && s[|s| - 1] in s;
    assert Marker.Strip(s) == s;
  }

  lemma {:induction false} NamedAreKeys(choices: seq<Choice>, v: string)
    ensures forall h | h in Named(choices, v) :: exists c | c in choices :: c.key == h
  {
    if choices != [] {
      NamedAreKeys(choices[1..], v);
      assert choices == [choices[0]] + choices[1..];
    }
  }

  lemma OneIsStable(tables: Tables, meta: Meta, value: Value)
    requires TidyMeta(meta) && One(tables, meta, value).Some?
    ensures One(tables, meta, One(tables, meta, value).value) == One(tables, meta, value)
  {
    match meta
    case Free =>
    case Relation(m) =>
      var rows := if m in tables then tables[m] else [];
      ReferenceIsNumber(rows, value);
      NumberResolvesToItself(rows, Reference(rows, value).value.n);
    case Closed(cs) =>
      if cs != [] {
        SelectionIsStable(cs, value);
      }
  }

  lemma SelectionIsStable(choices: seq<Choice>, value: Value)
    requires forall c | c in choices :: Marker.Strip(Show(c.key)) != ""
    requires Selection(choices, value).Some?
    ensures Selection(choices, Selection(choices, value).value) == Selection(choices, value)
  {
    var v := Marker.Strip(Show(value));
    if !IsKey(choices, value, v) {
      var h := Named(choices, v)[0];
      NamedAreKeys(choices, v);
      assert h in Named(choices, v);
      var c: Choice :| c in choices && c.key == h;
      assert Same(c.key, h);
    }
  }

  lemma {:induction false} EachIsStable(tables: Tables, meta: Meta, vs: seq<Value>)
    requires TidyMeta(meta) && Each(tables, meta, vs).Some?
    ensures Each(tables, meta, Each(tables, meta, vs).value) == Each(tables, meta, vs)
  {
    if vs != [] {
      EachIsStable(tables, meta, vs[1..]);
      OneIsStable(tables, meta, vs[0]);
      var r := Each(tables, meta, vs).value;
      assert r[1..] == Each(tables, meta, vs[1..]).value;
    }
  }

  lemma CellIsStable(tables: Tables, meta: Meta, c: Cell)
    requires TidyMeta(meta) && ResolveCell(tables, meta, c).Some?
    ensures ResolveCell(tables, meta, ResolveCell(tables, meta, c).value) == ResolveCell(tables, meta, c)
  {
    if !Skipped(c) {
      match c
      case Scalar(v) => OneIsStable(tables, meta, v);
      case Several(vs) => EachIsStable(tables, meta, vs);
    }
  }

  /** Resolution is idempotent: a resolved document resolves, to itself. */
  lemma ResolutionIsIdempotent(tables: Tables, schema: Schema, doc: Doc)
    requires Resolvable(tables, schema, doc) && forall f | f in doc :: TidyMeta(MetaOf(schema, f))
    ensures Resolvable(tables, schema, Resolved(tables, schema, doc))
    ensures Resolved(tables, schema, Resolved(tables, schema, doc)) == Resolved(tables, schema, doc)
  {
    var once := Resolved(tables, schema, doc);
    forall f | f in once
      ensures ResolveCell(tables, MetaOf(schema, f), once[f]) == Some(once[f])
    {
      CellIsStable(tables, MetaOf(schema, f), doc[f]);
    }
  }

  /** The value is itself a stored key. */
  predicate IsStored(choices: seq<Choice>, value: Value) {
    exists c | c in choices :: Same(c.key, value)
  }

  /** The value only reads like a stored key, after `str` and stripping. */
  predicate ReadsAsStored(choices: seq<Choice>, value: Value) {
    exists c | c in choices :: Show(c.key) == Marker.Strip(Show(value))
  }

  /** What a resolution writes is a stored key exactly when the value is one, or does not read like one
      and is therefore looked up; a value that only reads like a key is written as it came. */
  lemma SelectionIsAKeyExactlyWhen(choices: seq<Choice>, value: Value)
    requires Selection(choices, value).Some?
    ensures IsStored(choices, Selection(choices, value).value)
            <==> IsStored(choices, value) || !ReadsAsStored(choices, value)
    ensures !IsStored(choices, value) && ReadsAsStored(choices, value) ==> Selection(choices, value) == Some(value)
  {
    var v := Marker.Strip(Show(value));
    if !IsKey(choices, value, v) {
      NamedAreKeys(choices, v);
      var h := Named(choices, v)[0];
      assert h in Named(choices, v);
      var c: Choice :| c in choices && c.key == h;
      assert Same(c.key, h);
    }
  }

  /** So a padded key is written with its padding. */
  lemma PaddedKeyIsWritten(choices: seq<Choice>)
    requires choices == [Choice(Text("draft"), "Draft")]
    ensures Selection(choices, Text(" draft ")) == Some(Text(" draft ")) && !IsStored(choices, Text(" draft "))
  {
    var c := choices[0];
    assert c in choices && Show(c.key) == "draft";
    assert |" draft "| != |"draft"|;
    PaddedStrips();
  }

  lemma PaddedStrips()
    ensures Marker.Strip(" draft ") == "draft"
  {
    assert " draft "[1..] == "draft ";
    assert Marker.StripLeft("draft ") == "draft ";
    assert "draft "[..5] == "draft";
    assert Marker.StripRight("draft") == "draft";
  }

  /** A bare numeral passes as an id without any record having to exist. */
  lemma NumeralNeedsNoRecord(n: nat)
    ensures Reference([], Num(n)) == Some(Num(n))
  {
    NumberResolvesToItself([], n);
  }

  /** The choice reads as the term: its label, or its key. */
  predicate ReadsAs(c: Choice, v: string) {
    Tidy(c.text) == Domain.Lower(v) || Tidy(Show(c.key)) == Domain.Lower(v)
  }

  lemma {:induction false} NamedMembers(choices: seq<Choice>, v: string)
    ensures forall j | 0 <= j < |choices| && ReadsAs(choices[j], v) :: choices[j].key in Named(choices, v)
    ensures forall k | k in Named(choices, v) ::
              exists j :: 0 <= j < |choices| && ReadsAs(choices[j], v) && choices[j].key == k
  {
    if choices != [] {
      var rest := choices[1..];
      NamedMembers(rest, v);
      forall j | 0 <= j < |choices| && ReadsAs(choices[j], v) ensures choices[j].key in Named(choices, v) {
        assert j > 0 ==> choices[j] == rest[j - 1];
      }
      forall k | k in Named(choices, v)
        ensures exists j :: 0 <= j < |choices| && ReadsAs(choices[j], v) && choices[j].key == k
      {
        if k in Named(rest, v) {
          var j :| 0 <= j < |rest| && ReadsAs(rest[j], v) && rest[j].key == k;
          assert choices[j + 1] == rest[j];
        }
      }
    }
  }

  /** The choice at `i` is the first that reads as the term. */
  predicate FirstReads(choices: seq<Choice>, v: string, i: int) {
    0 <= i < |choices| && ReadsAs(choices[i], v) && forall j | 0 <= j < i :: !ReadsAs(choices[j], v)
  }

  /** It is, and all that read as the term have its key. */
  predicate IsMeant(choices: seq<Choice>, v: string, i: int) {
    && FirstReads(choices, v, i)
    && forall j | 0 <= j < |choices| && ReadsAs(choices[j], v) :: Show(choices[j].key) == Show(choices[i].key)
  }

  lemma {:induction false} FirstNamed(choices: seq<Choice>, v: string)
    ensures Named(choices, v) != [] ==>
              exists i :: FirstReads(choices, v, i) && choices[i].key == Named(choices, v)[0]
  {
    if choices != [] && !ReadsAs(choices[0], v) && Named(choices, v) != [] {
      var rest := choices[1..];
      FirstNamed(rest, v);
      var i :| FirstReads(rest, v, i) && rest[i].key == Named(rest, v)[0];
      forall j | 0 <= j < i + 1 ensures !ReadsAs(choices[j], v) {
        assert j > 0 ==> choices[j] == rest[j - 1];
      }
      assert FirstReads(choices, v, i + 1) && choices[i + 1].key == Named(choices, v)[0];
    } else if Named(choices, v) != [] {
      assert FirstReads(choices, v, 0);
    }
  }

  lemma MeantByName(choices: seq<Choice>, v: string)
    ensures var hits := Named(choices, v);
            && (forall i | IsMeant(choices, v, i) :: hits != [] && hits[0] == choices[i].key)
            && ((exists i :: IsMeant(choices, v, i))
                <==> hits != [] && forall h | h in hits :: Show(h) == Show(hits[0]))
  {
    var hits := Named(choices, v);
    NamedMembers(choices, v);
    FirstNamed(choices, v);
    if hits != [] {
      var f :| FirstReads(choices, v, f) && choices[f].key == hits[0];
      assert forall i | FirstReads(choices, v, i) :: i == f;
      if forall h | h in hits :: Show(h) == Show(hits[0]) {
        assert IsMeant(choices, v, f);
      }
    }
  }

  /** A value that is, or reads as, a stored key is written as it is; any other exactly as the key of the
      choice it means, and as nothing when it means none or several. */
  lemma SelectionMeans(choices: seq<Choice>, value: Value, r: Value)
    ensures var v := Marker.Strip(Show(value));
            Selection(choices, value) == Some(r)
            <==> v != "" && if IsStored(choices, value) || ReadsAsStored(choices, value) then r == value
                            else exists i :: IsMeant(choices, v, i) && r == choices[i].key
  {
    var v := Marker.Strip(Show(value));
    assert IsKey(choices, value, v) <==> IsStored(choices, value) || ReadsAsStored(choices, value);
    MeantByName(choices, v);
  }

  // ---------------------------------------------------------------- the one record that is meant

  /** How many rows before `i` pass the test. */
  function Rank(rows: seq<Ref>, p: Ref -> bool, i: nat): nat
    requires i <= |rows|
  {
    if i == 0 then 0 else Rank(rows, p, i - 1) + if p(rows[i - 1]) then 1 else 0
  }

  /** A search cut at `limit` shows the row at `i`. */
  predicate Shown(rows: seq<Ref>, p: Ref -> bool, limit: nat, i: int) {
    0 <= i < |rows| && p(rows[i]) && Rank(rows, p, i) < limit
  }

  lemma {:induction false} RankGrows(rows: seq<Ref>, p: Ref -> bool, n: nat, i: nat)
    requires n <= i <= |rows|
    ensures Rank(rows, p, n) <= Rank(rows, p, i)
  {
    if n < i {
      RankGrows(rows, p, n, i - 1);
    }
  }

  /** `at` lists where the found rows stand, from `n` on and in order, and these are the rows there that
      the search shows. */
  ghost predicate StandsAt(rows: seq<Ref>, p: Ref -> bool, limit: nat, n: nat, found: seq<Ref>, at: seq<int>) {
    && |at| == |found|
    && (forall k | 0 <= k < |at| :: n <= at[k] && Shown(rows, p, limit, at[k]) && found[k] == rows[at[k]])
    && (forall k, l | 0 <= k < l < |at| :: at[k] < at[l])
    && (forall i | n <= i && Shown(rows, p, limit, i) :: i in at)
  }

  lemma {:induction false} Places(rows: seq<Ref>, p: Ref -> bool, limit: nat, n: nat) returns (at: seq<int>)
    requires n <= |rows| && Rank(rows, p, n) <= limit
    ensures StandsAt(rows, p, limit, n, Pick(rows[n..], p, limit - Rank(rows, p, n)), at)
    decreases |rows| - n
  {
    at := [];
    if n == |rows| || Rank(rows, p, n) == limit {
      forall i | n <= i < |rows| ensures !Shown(rows, p, limit, i) {
        RankGrows(rows, p, n, i);
      }
    } else {
      assert rows[n..][0] == rows[n] && rows[n..][1..] == rows[n + 1..];
      at := Places(rows, p, limit, n + 1);
      if p(rows[n]) {
        at := [n] + at;
      }
    }
  }

  function Keep(rows: seq<Ref>, q: Ref -> bool): seq<Ref> {
    if rows == [] then [] else (if q(rows[0]) then [rows[0]] else []) + Keep(rows[1..], q)
  }

  lemma {:induction false} PickIsKeep(rows: seq<Ref>, q: Ref -> bool, limit: nat)
    requires |rows| <= limit
    ensures Pick(rows, q, limit) == Keep(rows, q)
  {
    if rows != [] {
      PickIsKeep(rows[1..], q, if q(rows[0]) then limit - 1 else limit);
    }
  }

  function Any(): Ref -> bool {
    (r: Ref) => true
  }

  lemma {:induction false} KeepAll(rows: seq<Ref>)
    ensures Keep(rows, Any()) == rows
  {
    if rows != [] {
      KeepAll(rows[1..]);
    }
  }

  /** The row at `i` is the only one shown that passes. */
  ghost predicate OnlyOne(rows: seq<Ref>, p: Ref -> bool, limit: nat, q: Ref -> bool, i: int) {
    Shown(rows, p, limit, i) && q(rows[i]) && forall j | Shown(rows, p, limit, j) && q(rows[j]) :: j == i
  }

  /** The record a term means among those a search shows: the only one called exactly so, or when none is,
      the only one shown. */
  ghost predicate Means(rows: seq<Ref>, p: Ref -> bool, limit: nat, exact: Ref -> bool, i: int) {
    || OnlyOne(rows, p, limit, exact, i)
    || (OnlyOne(rows, p, limit, Any(), i) && forall j | Shown(rows, p, limit, j) :: !exact(rows[j]))
  }

  function CodeTest(v: string): Ref -> bool {
    (r: Ref) => 2 <= |v| <= 3 && AllLetters(v) && r.code == Upper(v)
  }

  function NameTest(v: string): Ref -> bool {
    (r: Ref) => Contains(Domain.Lower(r.name), Domain.Lower(v))
  }

  function ExactTest(v: string): Ref -> bool {
    (r: Ref) => Tidy(r.name) == Domain.Lower(v)
  }

  lemma {:induction false} SamePick(rows: seq<Ref>, p: Ref -> bool, q: Ref -> bool, limit: nat)
    requires forall r | r in rows :: p(r) == q(r)
    ensures Pick(rows, p, limit) == Pick(rows, q, limit)
    decreases |rows|
  {
    if rows != [] && limit > 0 {
      assert rows[0] in rows;
      SamePick(rows[1..], p, q, if p(rows[0]) then limit - 1 else limit);
    }
  }

  /** A search shows a row at all exactly when some row passes and there is room for one. */
  lemma {:induction false} FirstIsShown(rows: seq<Ref>, p: Ref -> bool, limit: nat)
    requires limit > 0
    ensures Pick(rows, p, limit) != [] <==> exists i :: 0 <= i < |rows| && p(rows[i])
    decreases |rows|
  {
    if rows != [] {
      FirstIsShown(rows[1..], p, limit);
      if i :| 0 <= i < |rows| && p(rows[i]) {
        assert i > 0 ==> p(rows[1..][i - 1]);
      }
      if i :| 0 <= i < |rows| - 1 && p(rows[1..][i]) {
        assert p(rows[i + 1]);
      }
    }
  }

  /** Some record has the term as its code, and the term may be one. */
  ghost predicate IsCode(rows: seq<Ref>, v: string) {
    exists i :: 0 <= i < |rows| && CodeTest(v)(rows[i])
  }

  lemma CandidatesAre(rows: seq<Ref>, v: string)
    ensures Candidates(rows, v) == if IsCode(rows, v) then Pick(rows, CodeTest(v), 2) else Pick(rows, NameTest(v), 8)
  {
    FirstIsShown(rows, CodeTest(v), 2);
    if 2 <= |v| <= 3 && AllLetters(v) {
      SamePick(rows, (r: Ref) => r.code == Upper(v), CodeTest(v), 2);
    }
    SamePick(rows, (r: Ref) => Contains(Domain.Lower(r.name), Domain.Lower(v)), NameTest(v), 8);
  }

  lemma {:induction false} SameKeep(rows: seq<Ref>, q: Ref -> bool, limit: nat, p: Ref -> bool)
    requires |rows| <= limit && forall r | r in rows :: p(r) == q(r)
    ensures Pick(rows, p, limit) == Keep(rows, q)
  {
    SamePick(rows, p, q, limit);
    PickIsKeep(rows, q, limit);
  }

  /** The only place in a list that passes. */
  ghost predicate OnlyAt(found: seq<Ref>, q: Ref -> bool, k: int) {
    0 <= k < |found| && q(found[k]) && forall l | 0 <= l < |found| && q(found[l]) :: l == k
  }

  lemma {:induction false} KeepOne(found: seq<Ref>, q: Ref -> bool)
    ensures Keep(found, q) == [] <==> forall l | 0 <= l < |found| :: !q(found[l])
    ensures |Keep(found, q)| == 1 ==> exists k :: OnlyAt(found, q, k)
    ensures forall k | OnlyAt(found, q, k) :: Keep(found, q) == [found[k]]
  {
    if found != [] {
      var rest := found[1..];
      KeepOne(rest, q);
      if q(found[0]) && |Keep(found, q)| == 1 {
        assert Keep(rest, q) == [];
        forall l | 1 <= l < |found| ensures !q(found[l]) {
          assert found[l] == rest[l - 1];
        }
        assert OnlyAt(found, q, 0);
      } else if |Keep(found, q)| == 1 {
        var k :| OnlyAt(rest, q, k);
        assert forall l | 0 <= l < |found| && q(found[l]) :: l > 0 && q(rest[l - 1]);
        assert OnlyAt(found, q, k + 1);
      }
      forall k | OnlyAt(found, q, k) ensures Keep(found, q) == [found[k]] {
        if k == 0 {
          assert forall l | 0 <= l < |rest| && q(rest[l]) :: q(found[l + 1]);
        } else {
          assert forall l | 0 <= l < |rest| && q(rest[l]) :: q(found[l + 1]);
          assert OnlyAt(rest, q, k - 1);
        }
      }
    }
  }

  /** What is left of a search is one row exactly when only one of those shown passes. */
  lemma KeptIsOne(rows: seq<Ref>, p: Ref -> bool, limit: nat, q: Ref -> bool)
    ensures var kept := Keep(Pick(rows, p, limit), q);
            && (kept == [] <==> forall j | Shown(rows, p, limit, j) :: !q(rows[j]))
            && (|kept| == 1 ==> exists i :: OnlyOne(rows, p, limit, q, i))
            && (forall i | OnlyOne(rows, p, limit, q, i) :: kept == [rows[i]])
  {
    var found := Pick(rows, p, limit);
    var kept := Keep(found, q);
    var at := Places(rows, p, limit, 0);
    assert rows[0..] == rows;
    KeepOne(found, q);
    if kept == [] {
      forall j | Shown(rows, p, limit, j) ensures !q(rows[j]) {
        var k :| 0 <= k < |at| && at[k] == j;
        assert !q(found[k]);
      }
    }
    if |kept| == 1 {
      var k :| OnlyAt(found, q, k);
      forall j | Shown(rows, p, limit, j) && q(rows[j]) ensures j == at[k] {
        var l :| 0 <= l < |at| && at[l] == j;
        assert q(found[l]);
      }
      assert OnlyOne(rows, p, limit, q, at[k]);
    }
    forall i | OnlyOne(rows, p, limit, q, i) ensures kept == [rows[i]] {
      var k :| 0 <= k < |at| && at[k] == i;
      forall l | 0 <= l < |found| && q(found[l]) ensures l == k {
        assert Shown(rows, p, limit, at[l]) && at[l] == i;
      }
      assert OnlyAt(found, q, k);
    }
  }

  /** A term that is no numeral resolves exactly to the record it means: among the first two with that
      code when the term may be a code and some record has it, else among the first eight whose name
      contains it. Several or none resolve to nothing. */
  lemma ReferenceMeans(rows: seq<Ref>, value: Value, n: nat)
    requires var v := Marker.Strip(Show(value)); v != "" && !AllDigits(v)
    ensures var v := Marker.Strip(Show(value));
            Reference(rows, value) == Some(Num(n))
            <==> exists i :: 0 <= i < |rows| && rows[i].id == Some(n)
                             && if IsCode(rows, v) then Means(rows, CodeTest(v), 2, ExactTest(v), i)
                                else Means(rows, NameTest(v), 8, ExactTest(v), i)
  {
    var v := Marker.Strip(Show(value));
    CandidatesAre(rows, v);
    if IsCode(rows, v) {
      PoolMeans(rows, CodeTest(v), 2, value, n);
    } else {
      PoolMeans(rows, NameTest(v), 8, value, n);
    }
  }

  lemma PoolMeans(rows: seq<Ref>, p: Ref -> bool, limit: nat, value: Value, n: nat)
    requires var v := Marker.Strip(Show(value)); v != "" && !AllDigits(v) && Candidates(rows, v) == Pick(rows, p, limit)
    ensures var v := Marker.Strip(Show(value));
            Reference(rows, value) == Some(Num(n))
            <==> exists i :: 0 <= i < |rows| && rows[i].id == Some(n) && Means(rows, p, limit, ExactTest(v), i)
  {
    var v := Marker.Strip(Show(value));
    var found, exact := Pick(rows, p, limit), Keep(Pick(rows, p, limit), ExactTest(v));
    SameKeep(found, ExactTest(v), |found|, (r: Ref) => Tidy(r.name) == Domain.Lower(v));
    KeptIsOne(rows, p, limit, ExactTest(v));
    KeptIsOne(rows, p, limit, Any());
    KeepAll(found);
    var pool := if exact != [] then exact else found;
    assert Reference(rows, value) == if |pool| != 1 || pool[0].id.None? then None else Some(Num(pool[0].id.value));
    if |pool| == 1 {
      var i := TheOne(rows, p, limit, ExactTest(v));
    }
    forall i | Means(rows, p, limit, ExactTest(v), i) ensures 0 <= i < |rows| && pool == [rows[i]] {
    }
  }

  lemma TheOne(rows: seq<Ref>, p: Ref -> bool, limit: nat, exact: Ref -> bool) returns (i: int)
    requires var found := Pick(rows, p, limit);
             |Keep(found, exact)| == 1 || (Keep(found, exact) == [] && |found| == 1)
    ensures Means(rows, p, limit, exact, i)
  {
    var found := Pick(rows, p, limit);
    KeptIsOne(rows, p, limit, exact);
    if Keep(found, exact) != [] {
      i :| OnlyOne(rows, p, limit, exact, i);
    } else {
      KeptIsOne(rows, p, limit, Any());
      KeepAll(found);
      i :| OnlyOne(rows, p, limit, Any(), i);
    }
  }
}
