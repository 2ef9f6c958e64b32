/** The SKU shown on a product-supplier row: looked up once for a whole page. */
module Sku {
  import opened Options
  import opened Values

  /** A `product.product` row: its id, its template, its internal reference. */
  datatype Product = Product(id: int, tmpl: Option<int>, code: string)

  /** A `product.supplierinfo` row as read: the ids its references unwrap to. */
  datatype Link = Link(product: Option<int>, tmpl: Option<int>, partner: Option<int>)

  datatype CodeKey = ById(id: int) | ByTmpl(tmpl: int)

  type Codes = map<CodeKey, string>

  function Wanted<T>(xs: seq<Option<T>>): set<T> {
    set x | x in xs && x.Some? :: x.value
  }

  function ProductIds(rows: seq<Link>): set<int> {
    Wanted(seq(|rows|, i requires 0 <= i < |rows| => rows[i].product))
  }

  function TmplIds(rows: seq<Link>): set<int> {
    Wanted(seq(|rows|, i requires 0 <= i < |rows| => rows[i].tmpl))
  }

  /** `[["id", "in", ids]]`, in the table's own order. */
  function WithId(products: seq<Product>, ids: set<int>): seq<Product> {
    if products == [] then []
    else if products[0].id in ids then [products[0]] + WithId(products[1..], ids)
    else WithId(products[1..], ids)
  }

  /** `[["product_tmpl_id", "in", tmpls]]`, in the table's own order. */
  function WithTmpl(products: seq<Product>, tmpls: set<int>): seq<Product> {
    if products == [] then []
    else if products[0].tmpl.Some? && products[0].tmpl.value in tmpls then
      [products[0]] + WithTmpl(products[1..], tmpls)
    else WithTmpl(products[1..], tmpls)
  }

  function Cut<T>(s: seq<T>, limit: nat): seq<T> {
    if |s| <= limit then s else s[..limit]
  }

  function TmplLimit(tmpls: set<int>): nat {
    if |tmpls| * 20 > 200 then |tmpls| * 20 else 200
  }

  /** The first code a list of products has for a template. */
  function FirstCode(found: seq<Product>, tmpl: int): Option<string> {
    if found == [] then None
    else if found[0].tmpl == Some(tmpl) && found[0].code != "" then Some(found[0].code)
    else FirstCode(found[1..], tmpl)
  }

  /** The last code a list of products has for an id. */
  function LastCode(found: seq<Product>, id: int): Option<string> {
    if found == [] then None
    else
      var later := LastCode(found[1..], id);
      if later.Some? then later
      else if found[0].id == id && found[0].code != "" then Some(found[0].code)
      else None
  }

  function Lookup(codes: Codes, k: CodeKey): Option<string> {
    if k in codes then Some(codes[k]) else None
  }

  /** What the two batched searches of a page resolve. */
  ghost predicate CodesOf(codes: Codes, products: seq<Product>, rows: seq<Link>) {
    var ids, tmpls := ProductIds(rows), TmplIds(rows);
    && (forall id :: Lookup(codes, ById(id)) == LastCode(Cut(WithId(products, ids), |ids|), id))
    && (forall t :: Lookup(codes, ByTmpl(t)) == FirstCode(Cut(WithTmpl(products, tmpls), TmplLimit(tmpls)), t))
  }

  /** `_batch_default_codes`: two searches, two loops that fill the map. */
  method BatchDefaultCodes(products: seq<Product>, rows: seq<Link>) returns (codes: Codes)
    ensures CodesOf(codes, products, rows)
  {
    var ids, tmpls := ProductIds(rows), TmplIds(rows);
    var byId := Cut(WithId(products, ids), |ids|);
    var byTmpl := Cut(WithTmpl(products, tmpls), TmplLimit(tmpls));
    codes := map[];
    var i := 0;
    while i < |byId|
      invariant 0 <= i <= |byId|
      invariant forall id :: Lookup(codes, ById(id)) == LastCode(byId[..i], id)
      invariant forall t :: ByTmpl(t) !in codes
    {
      LastCodeSnoc(byId[..i], byId[i]);
      assert byId[..i + 1] == byId[..i] + [byId[i]];
      if byId[i].code != "" {
        codes := codes[ById(byId[i].id) := byId[i].code];
      }
      i := i + 1;
    }
    assert byId[..i] == byId;
    i := 0;
    while i < |byTmpl|
      invariant 0 <= i <= |byTmpl|
      invariant forall id :: Lookup(codes, ById(id)) == LastCode(byId, id)
      invariant forall t :: Lookup(codes, ByTmpl(t)) == FirstCode(byTmpl[..i], t)
    {
      var p := byTmpl[i];
      FirstCodeSnoc(byTmpl[..i], p);
      assert byTmpl[..i + 1] == byTmpl[..i] + [p];
      if p.tmpl.Some? && p.code != "" && ByTmpl(p.tmpl.value) !in codes {
        codes := codes[ByTmpl(p.tmpl.value) := p.code];
      }
      i := i + 1;
    }
    assert byTmpl[..i] == byTmpl;
  }

  lemma {:induction false} LastCodeSnoc(s: seq<Product>, p: Product)
    ensures forall id :: LastCode(s + [p], id) == if p.id == id && p.code != "" then Some(p.code) else LastCode(s, id)
  {
    if s == [] {
      assert s + [p] == [p] && [p][1..] == [];
    } else {
      assert (s + [p])[1..] == s[1..] + [p];
      LastCodeSnoc(s[1..], p);
    }
  }

  lemma {:induction false} FirstCodeSnoc(s: seq<Product>, p: Product)
    ensures forall t :: FirstCode(s + [p], t) ==
              if FirstCode(s, t).Some? then FirstCode(s, t)
              else if p.tmpl == Some(t) && p.code != "" then Some(p.code) else None
  {
    if s == [] {
      assert s + [p] == [p] && [p][1..] == [];
    } else {
      assert (s + [p])[1..] == s[1..] + [p];
      FirstCodeSnoc(s[1..], p);
    }
  }

  datatype Projection = Projection(supplier: Option<int>, sku: Option<string>)

  /** The two keys `_project_product_supplier_row` adds to a row. */
  function Project(row: Link, codes: Codes): Projection {
    var direct := if row.product.Some? then Lookup(codes, ById(row.product.value)) else None;
    var sku := if direct.None? && row.tmpl.Some? then Lookup(codes, ByTmpl(row.tmpl.value)) else direct;
    Projection(row.partner, sku)
  }

  // ---------------------------------------------------------------- page against single row

  ghost predicate UniqueProducts(products: seq<Product>) {
    forall i, j | 0 <= i < j < |products| :: products[i].id != products[j].id
  }

  lemma {:induction false} WithIdWithin(products: seq<Product>, ids: set<int>)
    requires UniqueProducts(products)
    ensures |WithId(products, ids)| <= |ids|
    ensures forall p | p in WithId(products, ids) :: p in products
  {
    if products != [] {
      var rest := products[1..];
      if products[0].id in ids {
        var less := ids - {products[0].id};
        WithIdWithin(rest, less);
        WithIdDrop(rest, ids, products[0].id);
      } else {
        WithIdWithin(rest, ids);
      }
    }
  }

  lemma {:induction false} WithIdDrop(products: seq<Product>, ids: set<int>, id: int)
    requires forall p | p in products :: p.id != id
    ensures WithId(products, ids) == WithId(products, ids - {id})
  {
    if products != [] {
      assert products[0] in products;
      WithIdDrop(products[1..], ids, id);
    }
  }

  /** An id search never needs more than one row per id, so a wanted id finds its code whatever else
      the page asks for. */
  lemma {:induction false} CodeById(products: seq<Product>, ids: set<int>, id: int)
    requires id in ids
    ensures LastCode(WithId(products, ids), id) == LastCode(products, id)
  {
    if products != [] {
      CodeById(products[1..], ids, id);
      if products[0].id in ids {
        var rest := WithId(products[1..], ids);
        assert ([products[0]] + rest)[1..] == rest;
      }
    }
  }

  lemma {:induction false} CodeByTmpl(products: seq<Product>, tmpls: set<int>, t: int)
    requires t in tmpls
    ensures FirstCode(WithTmpl(products, tmpls), t) == FirstCode(products, t)
  {
    if products != [] {
      CodeByTmpl(products[1..], tmpls, t);
      if products[0].tmpl.Some? && products[0].tmpl.value in tmpls {
        var rest := WithTmpl(products[1..], tmpls);
        assert ([products[0]] + rest)[1..] == rest;
      }
    }
  }

  lemma WantedBy(rows: seq<Link>, row: Link)
    requires row in rows
    ensures row.product.Some? ==> row.product.value in ProductIds(rows)
    ensures row.tmpl.Some? ==> row.tmpl.value in TmplIds(rows)
  {
    var i :| 0 <= i < |rows| && rows[i] == row;
    var ps := seq(|rows|, i requires 0 <= i < |rows| => rows[i].product);
    var ts := seq(|rows|, i requires 0 <= i < |rows| => rows[i].tmpl);
    assert ps[i] == row.product && ps[i] in ps;
    assert ts[i] == row.tmpl && ts[i] in ts;
  }

  /** What any complete code map shows for a row: the product's own code, else the first coded
      variant of its template. */
  function Reference(products: seq<Product>, row: Link): Projection {
    var direct := if row.product.Some? then LastCode(products, row.product.value) else None;
    Projection(row.partner, if direct.None? && row.tmpl.Some? then FirstCode(products, row.tmpl.value) else direct)
  }

  /** Where a list of products has a template's first code, its length when nowhere. */
  function FirstAt(found: seq<Product>, tmpl: int): nat {
    if found == [] || (found[0].tmpl == Some(tmpl) && found[0].code != "") then 0 else 1 + FirstAt(found[1..], tmpl)
  }

  lemma {:induction false} FirstInCut(found: seq<Product>, tmpl: int, limit: nat)
    ensures FirstCode(Cut(found, limit), tmpl) == if FirstAt(found, tmpl) < limit then FirstCode(found, tmpl) else None
    ensures FirstAt(found, tmpl) <= |found|
  {
    if found != [] && limit > 0 {
      FirstInCut(found[1..], tmpl, limit - 1);
      assert |found| > limit ==> found[..limit][1..] == found[1..][..limit - 1];
    } else if found != [] {
      FirstInCut(found[1..], tmpl, 0);
    }
  }

  /** The page's template search reaches the row's code, or the row does not need it: it has no
      template, its own product has a code, or no variant of the template has one. */
  predicate Reached(products: seq<Product>, rows: seq<Link>, row: Link) {
    || row.tmpl.None?
    || (row.product.Some? && LastCode(products, row.product.value).Some?)
    || FirstCode(products, row.tmpl.value).None?
    || FirstAt(WithTmpl(products, TmplIds(rows)), row.tmpl.value) < TmplLimit(TmplIds(rows))
  }

  /** A row projected with the codes of its page. */
  lemma ProjectionByReach(products: seq<Product>, rows: seq<Link>, row: Link, codes: Codes)
    requires UniqueProducts(products) && row in rows && CodesOf(codes, products, rows)
    ensures Project(row, codes)
            == if Reached(products, rows, row) then Reference(products, row) else Projection(row.partner, None)
  {
    WantedBy(rows, row);
    WithIdWithin(products, ProductIds(rows));
    if row.product.Some? {
      CodeById(products, ProductIds(rows), row.product.value);
    }
    if row.tmpl.Some? {
      var tmpls := TmplIds(rows);
      CodeByTmpl(products, tmpls, row.tmpl.value);
      FirstInCut(WithTmpl(products, tmpls), row.tmpl.value, TmplLimit(tmpls));
    }
  }

  /** A page's row shows its own product's code, else its template's first coded variant, exactly when
      the page's search reaches that variant. */
  lemma ProjectionIsReferenceExactlyWhen(products: seq<Product>, rows: seq<Link>, row: Link, codes: Codes)
    requires UniqueProducts(products) && row in rows && CodesOf(codes, products, rows)
    ensures Project(row, codes) == Reference(products, row) <==> Reached(products, rows, row)
  {
    ProjectionByReach(products, rows, row, codes);
  }

  /** A page shares one code map. A row of it shows what it would show alone exactly when both searches
      reach its code, or neither does. */
  lemma BatchEqualsSingleExactlyWhen(products: seq<Product>, rows: seq<Link>, row: Link, shared: Codes, own: Codes)
    requires UniqueProducts(products) && row in rows
    requires CodesOf(shared, products, rows) && CodesOf(own, products, [row])
    ensures Project(row, shared) == Project(row, own)
            <==> (Reached(products, rows, row) <==> Reached(products, [row], row))
  {
    ProjectionByReach(products, rows, row, shared);
    ProjectionByReach(products, [row], row, own);
  }

  /** A search answered in full reaches every code. */
  lemma FullSearchReaches(products: seq<Product>, rows: seq<Link>, row: Link)
    requires row in rows && |WithTmpl(products, TmplIds(rows))| <= TmplLimit(TmplIds(rows))
    ensures Reached(products, rows, row)
  {
    if row.tmpl.Some? {
      WantedBy(rows, row);
      CodeByTmpl(products, TmplIds(rows), row.tmpl.value);
      FirstInside(WithTmpl(products, TmplIds(rows)), row.tmpl.value);
    }
  }

  // ---------------------------------------------------------------- what a page shows

  /** The variant at `i` is the template's first with a code. */
  predicate FirstCoded(products: seq<Product>, tmpl: int, i: int) {
    && 0 <= i < |products| && products[i].tmpl == Some(tmpl) && products[i].code != ""
    && forall j | 0 <= j < i :: products[j].tmpl != Some(tmpl) || products[j].code == ""
  }

  lemma {:induction false} FirstCodeMeans(products: seq<Product>, tmpl: int)
    ensures FirstCode(products, tmpl).None? ==>
              forall j | 0 <= j < |products| :: products[j].tmpl != Some(tmpl) || products[j].code == ""
    ensures FirstCode(products, tmpl).None? ==> forall j :: !FirstCoded(products, tmpl, j)
    ensures FirstCode(products, tmpl).Some? ==>
              exists i :: FirstCoded(products, tmpl, i) && products[i].code == FirstCode(products, tmpl).value
  {
    if products != [] {
      if products[0].tmpl == Some(tmpl) && products[0].code != "" {
        assert FirstCoded(products, tmpl, 0);
      } else {
        FirstCodeMeans(products[1..], tmpl);
        if FirstCode(products, tmpl).Some? {
          var i :| FirstCoded(products[1..], tmpl, i) && products[1..][i].code == FirstCode(products, tmpl).value;
          forall j | 0 <= j < i + 1 ensures products[j].tmpl != Some(tmpl) || products[j].code == "" {
            if j > 0 {
              assert products[j] == products[1..][j - 1];
            }
          }
          assert FirstCoded(products, tmpl, i + 1);
        }
      }
    }
  }

  /** The product with this id and a code of its own. */
  predicate Coded(products: seq<Product>, id: int, i: int) {
    0 <= i < |products| && products[i].id == id && products[i].code != ""
  }

  lemma {:induction false} LastCodeMeans(products: seq<Product>, id: int)
    ensures LastCode(products, id).None? ==> forall j :: !Coded(products, id, j)
    ensures LastCode(products, id).Some? ==>
              exists i :: Coded(products, id, i) && products[i].code == LastCode(products, id).value
  {
    if products != [] {
      LastCodeMeans(products[1..], id);
      if LastCode(products[1..], id).Some? {
        var i :| Coded(products[1..], id, i) && products[1..][i].code == LastCode(products, id).value;
        assert Coded(products, id, i + 1);
      } else {
        forall j | j > 0 && LastCode(products, id).None? ensures !Coded(products, id, j) {
          assert !Coded(products[1..], id, j - 1);
        }
        assert LastCode(products, id).Some? ==> Coded(products, id, 0);
      }
    }
  }

  /** The SKU a row is owed: the code of its own product, else that of its template's first coded variant. */
  ghost predicate OwesSku(products: seq<Product>, row: Link, sku: Option<string>) {
    if row.product.Some? && exists i :: Coded(products, row.product.value, i) then
      exists i :: Coded(products, row.product.value, i) && sku == Some(products[i].code)
    else if row.tmpl.Some? && exists i :: FirstCoded(products, row.tmpl.value, i) then
      exists i :: FirstCoded(products, row.tmpl.value, i) && sku == Some(products[i].code)
    else sku == None
  }

  /** No template of the page has more than 20 variants, or all of them have 200 at most. */
  predicate FitsSearch(products: seq<Product>, tmpls: set<int>) {
    (forall t | t in tmpls :: |WithTmpl(products, {t})| <= 20) || |WithTmpl(products, tmpls)| <= 200
  }

  /** The search asks for 20 variants a template, and never for fewer than 200 in all. */
  lemma SearchBound(tmpls: set<int>)
    ensures TmplLimit(tmpls) >= 200 && TmplLimit(tmpls) >= 20 * |tmpls|
    ensures TmplLimit(tmpls) == 200 || TmplLimit(tmpls) == 20 * |tmpls|
  {
  }

  /** Then one page of any size shows every row the SKU it is owed. */
  lemma TwentyVariantsShowAll(products: seq<Product>, rows: seq<Link>, row: Link, codes: Codes)
    requires UniqueProducts(products) && row in rows && CodesOf(codes, products, rows)
    requires FitsSearch(products, TmplIds(rows))
    ensures OwesSku(products, row, Project(row, codes).sku) && Project(row, codes).supplier == row.partner
  {
    var tmpls := TmplIds(rows);
    SearchBound(tmpls);
    if |WithTmpl(products, tmpls)| > 200 {
      TwentyEach(products, tmpls);
    }
    FullSearchReaches(products, rows, row);
    ProjectionIsReferenceExactlyWhen(products, rows, row, codes);
    if row.product.Some? {
      LastCodeMeans(products, row.product.value);
    }
    if row.tmpl.Some? {
      FirstCodeMeans(products, row.tmpl.value);
    }
  }

  lemma {:induction false} TwentyEach(products: seq<Product>, tmpls: set<int>)
    requires forall t | t in tmpls :: |WithTmpl(products, {t})| <= 20
    ensures |WithTmpl(products, tmpls)| <= 20 * |tmpls|
    decreases tmpls
  {
    if |tmpls| == 0 {
      NoTmpls(products);
    } else {
      var t := AnyOf(tmpls);
      TwentyEach(products, tmpls - {t});
      WithoutTmpl(products, tmpls, t);
    }
  }

  lemma AnyOf<T>(s: set<T>) returns (x: T)
    requires s != {}
    ensures x in s
  {
    x :| x in s;
  }

  lemma {:induction false} NoTmpls(products: seq<Product>)
    ensures WithTmpl(products, {}) == []
  {
    if products != [] {
      NoTmpls(products[1..]);
    }
  }

  lemma {:induction false} WithoutTmpl(products: seq<Product>, tmpls: set<int>, t: int)
    requires t in tmpls
    ensures |WithTmpl(products, tmpls)| == |WithTmpl(products, tmpls - {t})| + |WithTmpl(products, {t})|
  {
    if products != [] {
      WithoutTmpl(products[1..], tmpls, t);
    }
  }

  lemma {:induction false} FirstInside(found: seq<Product>, tmpl: int)
    ensures FirstAt(found, tmpl) < |found| <==> FirstCode(found, tmpl).Some?
    ensures FirstAt(found, tmpl) <= |found|
  {
    if found != [] {
      FirstInside(found[1..], tmpl);
    }
  }

  function Variants(n: nat, from: int, tmpl: int, code: string): seq<Product> {
    seq(n, i => Product(from + i, Some(tmpl), code))
  }

  lemma {:induction false} AllVariants(products: seq<Product>, tmpl: int, tmpls: set<int>)
    requires forall p | p in products :: p.tmpl == Some(tmpl)
    ensures WithTmpl(products, tmpls) == if tmpl in tmpls then products else []
  {
    if products != [] {
      assert products[0] in products;
      AllVariants(products[1..], tmpl, tmpls);
      assert products == [products[0]] + products[1..];
    }
  }

  lemma {:induction false} WithTmplConcat(a: seq<Product>, b: seq<Product>, tmpls: set<int>)
    ensures WithTmpl(a + b, tmpls) == WithTmpl(a, tmpls) + WithTmpl(b, tmpls)
  {
    if a == [] {
      assert a + b == b;
    } else {
      assert (a + b)[1..] == a[1..] + b;
      WithTmplConcat(a[1..], b, tmpls);
    }
  }

  lemma {:induction false} Uncoded(found: seq<Product>, t: int)
    requires forall p | p in found :: p.tmpl != Some(t) || p.code == ""
    ensures FirstCode(found, t) == None
  {
    if found != [] {
      assert found[0] in found;
      Uncoded(found[1..], t);
    }
  }

  lemma TwoTemplates(sevens: seq<Product>, eights: seq<Product>, tmpls: set<int>)
    requires forall p | p in sevens :: p.tmpl == Some(7)
    requires forall p | p in eights :: p.tmpl == Some(8)
    ensures WithTmpl(sevens + eights, tmpls)
            == (if 7 in tmpls then sevens else []) + (if 8 in tmpls then eights else [])
  {
    WithTmplConcat(sevens, eights, tmpls);
    AllVariants(sevens, 7, tmpls);
    AllVariants(eights, 8, tmpls);
  }

  function ForTmpl(t: int): Link {
    Link(None, Some(t), None)
  }

  lemma TmplsAsked()
    ensures TmplIds([ForTmpl(7), ForTmpl(8)]) == {7, 8} && TmplIds([ForTmpl(8)]) == {8}
  {
    WantedBy([ForTmpl(7), ForTmpl(8)], ForTmpl(7));
    WantedBy([ForTmpl(7), ForTmpl(8)], ForTmpl(8));
    WantedBy([ForTmpl(8)], ForTmpl(8));
  }

  /** Such a page: a sibling template with 200 variants fills the page's search, and a
      row loses the SKU it has when it is projected alone. */
  lemma TruncatedPageLosesSku(products: seq<Product>, shared: Codes, own: Codes)
    requires products == Variants(200, 1, 7, "A") + [Product(201, Some(8), "B")]
    requires CodesOf(shared, products, [ForTmpl(7), ForTmpl(8)]) && CodesOf(own, products, [ForTmpl(8)])
    ensures Project(ForTmpl(8), own).sku == Some("B") && Project(ForTmpl(8), shared).sku == None
  {
    var many, one := Variants(200, 1, 7, "A"), [Product(201, Some(8), "B")];
    TmplsAsked();
    TwoTemplates(many, one, {7, 8});
    TwoTemplates(many, one, {8});
    assert FirstCode(one, 8) == Some("B");
    assert Lookup(own, ByTmpl(8)) == FirstCode(one, 8);
    assert Cut(many + one, 200) == many;
    Uncoded(many, 8);
  }
}
