/** Which record an upsert takes for its own, in terms of the stored fields. */
module Identity {
  import opened Options
  import opened Values
  import opened Domain
  import opened Governance
  import opened Verbs
  import opened Backend
  import opened Protocol
  import opened Invariants
  import opened Endings

  /** The partners, or other records of a model, whose field is the given value or reads like it. */
  function With(s: Store, model: string, f: string, x: Value): set<Key> {
    set k | k in s.rows && k.model == model && Alike(Field(s.rows[k], f), x)
  }

  /** A question that is put only when there is a value to ask for. */
  function Asked(s: Store, model: string, f: string, x: Value): set<Key> {
    if Truthy(x) then With(s, model, f, x) else {}
  }

  /** It is answered. */
  predicate Answered(x: Value, o: Oracle, i: nat) {
    Truthy(x) ==> i !in o.downProbes
  }

  /** The links of a product and a partner; both are needed to ask. */
  function Links(s: Store, product: Value, partner: Value): set<Key> {
    Asked(s, "product.supplierinfo", "product_tmpl_id", product)
    * Asked(s, "product.supplierinfo", "partner_id", partner)
  }

  predicate LinkAnswered(product: Value, partner: Value, o: Oracle) {
    Truthy(product) && Truthy(partner) ==> 0 !in o.downProbes
  }

  /** The suppliers a new supplier may be: those with its email, or without one, those with its name. */
  function SameSuppliers(s: Store, args: Row): set<Key> {
    if Truthy(Field(args, "email")) then SuppliersWith(s, "email", args["email"])
    else SuppliersWith(s, "name", Field(args, "name"))
  }

  /** The suppliers among them. */
  function SuppliersWith(s: Store, f: string, x: Value): set<Key> {
    set k | k in With(s, "res.partner", f, x) && IsSupplier(s.rows[k])
  }

  predicate IsSupplier(row: Row) {
    Numeric(Field(row, "supplier_rank")) && AsNumber(Field(row, "supplier_rank")) > 0
  }

  /** The two questions, in order: each is answered and finds one record, or the next is asked. */
  ghost predicate FindsOne(up1: bool, hits1: set<Key>, up2: bool, hits2: set<Key>, k: Key) {
    up1 && (hits1 == {k} || (hits1 == {} && up2 && hits2 == {k}))
  }

  ghost predicate FindsNone(up1: bool, hits1: set<Key>, up2: bool, hits2: set<Key>) {
    up1 && hits1 == {} && up2 && hits2 == {}
  }

  /** The commit patches exactly the one record found, and creates exactly when none is. */
  ghost predicate Converges(e: Effect, o: Oracle, up1: bool, hits1: set<Key>, up2: bool, hits2: set<Key>) {
    && (forall k :: (e.Patched? && e.key == k) <==>
                      !o.resolveDown && o.readUp && Goes(o.write) && FindsOne(up1, hits1, up2, hits2, k))
    && (e.Created? <==> !o.resolveDown && Goes(o.write) && FindsNone(up1, hits1, up2, hits2))
  }

  // ---------------------------------------------------------------- domains of triples

  /** A list of triples matches exactly when every triple holds. */
  lemma {:induction false} TriplesMatch(row: Row, terms: seq<Token>, pos: nat)
    requires pos <= |terms| && forall i | 0 <= i < |terms| :: terms[i].Triple?
    ensures EvalFrom(row, terms, pos) == Val(true)
            <==> forall i | pos <= i < |terms| :: EvalTriple(row, terms[i].field, terms[i].test) == Val(true)
    decreases |terms| - pos
  {
    if pos < |terms| {
      TriplesMatch(row, terms, pos + 1);
    }
  }

  /** A key of field names is probed when all of them have values, and then matches the rows that have
      them all. */
  lemma FieldKeyMeans(k: DedupKey, fields: seq<string>, doc: Row, row: Row)
    requires (k == Group(fields)) || (|fields| == 1 && k == Single(fields[0]))
    ensures ProbeDomain(k, doc).Some? <==> forall i | 0 <= i < |fields| :: Truthy(Field(doc, fields[i]))
    ensures ProbeDomain(k, doc).Some? ==>
              (DomainTest(ProbeDomain(k, doc).value)(row)
               <==> forall i | 0 <= i < |fields| :: Alike(Field(row, fields[i]), Field(doc, fields[i])))
  {
    assert forall f :: f in fields <==> exists i :: 0 <= i < |fields| && fields[i] == f;
    if ProbeDomain(k, doc).Some? {
      var terms := ProbeDomain(k, doc).value;
      assert |terms| == |fields| && forall i | 0 <= i < |fields| ::
               terms[i] == Triple(fields[i], Eq(Field(doc, fields[i])));
      TriplesMatch(row, terms, 0);
      forall i | 0 <= i < |fields|
        ensures EvalTriple(row, terms[i].field, terms[i].test) == Val(true)
                <==> Alike(Field(row, fields[i]), Field(doc, fields[i]))
      {
        OperatorsMean(row, fields[i], terms[i].test);
      }
    }
  }

  lemma SupplierDomainMeans(args: Row, row: Row)
    requires Truthy(Field(args, "name"))
    ensures var f := if Truthy(Field(args, "email")) then "email" else "name";
            && ProbeKeys(CreateSupplier, args) == SupplierProbe(args) && |SupplierProbe(args)| == 1
            && SupplierProbe(args)[0].Resolved?
            && (DomainTest(SupplierProbe(args)[0].triples)(row)
                <==> Alike(Field(row, f), Field(args, f)) && IsSupplier(row))
  {
    var terms := SupplierProbe(args)[0].triples;
    TriplesMatch(row, terms, 0);
    OperatorsMean(row, terms[0].field, terms[0].test);
    OperatorsMean(row, terms[1].field, terms[1].test);
  }

  // ---------------------------------------------------------------- the probes

  /** What a key finds when it is probed. */
  ghost function KeyHits(s: Store, model: string, k: DedupKey, doc: Row): set<Key> {
    if ProbeDomain(k, doc).Some? then Hits(s, model, DomainTest(ProbeDomain(k, doc).value)) else {}
  }

  predicate KeyUp(k: DedupKey, doc: Row, down: set<nat>, i: nat) {
    ProbeDomain(k, doc).Some? ==> i !in down
  }

  lemma OneProbe(s: Store, model: string, keys: seq<DedupKey>, doc: Row, down: set<nat>, i: nat, lkey: LedgerKey)
    requires i < |keys|
    ensures var f := ProbeKeysFrom(s, model, keys, doc, down, i, lkey);
            var up, hits := KeyUp(keys[i], doc, down, i), KeyHits(s, model, keys[i], doc);
            && (up && hits == {} ==> f == ProbeKeysFrom(s, model, keys, doc, down, i + 1, LedgerKeyOf(keys[i])))
            && (up && hits != {} ==> !f.NoMatch? && forall id :: (f.Match? && f.id == id) <==> hits == {Key(model, id)})
            && (!up ==> f.Stuck?)
  {
    var hits := KeyHits(s, model, keys[i], doc);
    if KeyUp(keys[i], doc, down, i) && hits != {} {
      var test := DomainTest(ProbeDomain(keys[i], doc).value);
      forall id ensures Probe(s, model, test) == One(id) <==> hits == {Key(model, id)} {
        if hits == {Key(model, id)} {
          assert Probe(s, model, test) != Many;
        }
      }
    }
  }

  lemma LastProbe(s: Store, model: string, keys: seq<DedupKey>, doc: Row, down: set<nat>, lkey: LedgerKey)
    ensures ProbeKeysFrom(s, model, keys, doc, down, |keys|, lkey) == NoMatch(lkey)
  {
  }

  /** One key or two, as every shipped upsert has. */
  lemma ProbesMean(s: Store, model: string, keys: seq<DedupKey>, doc: Row, down: set<nat>, lkey: LedgerKey, up1: bool,
                   hits1: set<Key>, up2: bool, hits2: set<Key>)
    requires 1 <= |keys| <= 2
    requires up1 == KeyUp(keys[0], doc, down, 0) && hits1 == KeyHits(s, model, keys[0], doc)
    requires if |keys| == 2 then up2 == KeyUp(keys[1], doc, down, 1) && hits2 == KeyHits(s, model, keys[1], doc)
             else up2 && hits2 == {}
    ensures var f := ProbeKeysFrom(s, model, keys, doc, down, 0, lkey);
            && (f.NoMatch? <==> FindsNone(up1, hits1, up2, hits2))
            && (forall id :: (f.Match? && f.id == id) <==> FindsOne(up1, hits1, up2, hits2, Key(model, id)))
  {
    OneProbe(s, model, keys, doc, down, 0, lkey);
    if |keys| == 2 {
      OneProbe(s, model, keys, doc, down, 1, LedgerKeyOf(keys[0]));
    }
    LastProbe(s, model, keys, doc, down, LedgerKeyOf(keys[|keys| - 1]));
  }

  // ---------------------------------------------------------------- the commits

  lemma UpsertConvergesOn(s: Store, pol: Policy, digest: string -> string, ws: string, p: Proposal, key: string,
                          o: Oracle, up1: bool, hits1: set<Key>, up2: bool, hits2: set<Key>)
    requires StoreOk(s) && IsUpsert(p)
    requires var f := UpsertProbes(s, p.verb, Lookup(p.verb), p.args, Resolve(p.native, o), key, o);
             && (f.NoMatch? <==> FindsNone(up1, hits1, up2, hits2))
             && (forall id :: (f.Match? && f.id == id) <==>
                                FindsOne(up1, hits1, up2, hits2, Key(Lookup(p.verb).doctype, id)))
    requires forall k | k in hits1 || k in hits2 :: k.model == Lookup(p.verb).doctype
    ensures Converges(Perform(s, pol, digest, ws, p, key, o).effect, o, up1, hits1, up2, hits2)
  {
    WritesExactlyWhen(s, pol, digest, ws, p, key, o);
    var e := Perform(s, pol, digest, ws, p, key, o).effect;
    ConvergesBy(s, p, key, digest, o, e, up1, hits1, up2, hits2);
  }

  lemma ConvergesBy(s: Store, p: Proposal, key: string, digest: string -> string, o: Oracle, e: Effect, up1: bool,
                    hits1: set<Key>, up2: bool, hits2: set<Key>)
    requires IsUpsert(p) && WritesAsSaid(s, p, key, digest, o, e)
    requires var f := UpsertProbes(s, p.verb, Lookup(p.verb), p.args, Resolve(p.native, o), key, o);
             && (f.NoMatch? <==> FindsNone(up1, hits1, up2, hits2))
             && (forall id :: (f.Match? && f.id == id) <==>
                                FindsOne(up1, hits1, up2, hits2, Key(Lookup(p.verb).doctype, id)))
    requires forall k | k in hits1 || k in hits2 :: k.model == Lookup(p.verb).doctype
    ensures Converges(e, o, up1, hits1, up2, hits2)
  {
    forall k
      ensures (e.Patched? && e.key == k) <==>
                !o.resolveDown && o.readUp && Goes(o.write) && FindsOne(up1, hits1, up2, hits2, k)
    {
      if FindsOne(up1, hits1, up2, hits2, k) {
        assert k in hits1 || k in hits2;
        assert k == Key(Lookup(p.verb).doctype, k.id);
      }
    }
  }

  /** A supplier is known by the email alone when one is given, else by the name alone, and only among
      records that are suppliers already. */
  lemma SupplierIsKnownBy(s: Store, pol: Policy, digest: string -> string, ws: string, args: Row, native: Row,
                          key: string, o: Oracle)
    requires StoreOk(s) && Truthy(Field(args, "name"))
    ensures Converges(Perform(s, pol, digest, ws, Curated(CreateSupplier, args, native), key, o).effect, o,
                      Answered(Field(args, "name"), o, 0), SameSuppliers(s, args), true, {})
  {
    var p := Curated(CreateSupplier, args, native);
    var doc := Resolve(native, o);
    var f := if Truthy(Field(args, "email")) then "email" else "name";
    var known := SameSuppliers(s, args);
    SupplierDomainMeans(args, map[]);
    var keys := ProbeKeys(CreateSupplier, args);
    forall row ensures DomainTest(keys[0].triples)(row) <==> Alike(Field(row, f), args[f]) && IsSupplier(row) {
      SupplierDomainMeans(args, row);
    }
    assert KeyHits(s, "res.partner", keys[0], doc) == known;
    var up := Answered(Field(args, "name"), o, 0);
    ProbesMean(s, "res.partner", keys, doc, o.downProbes, Named(key), up, known, true, {});
    UpsertConvergesOn(s, pol, digest, ws, p, key, o, up, known, true, {});
  }

  /** A contact or client is known by its email when it has one, and by its phone when no record has that
      email. */
  lemma ContactIsKnownBy(s: Store, pol: Policy, digest: string -> string, ws: string, p: Proposal, key: string,
                         o: Oracle)
    requires StoreOk(s) && p.Curated? && (p.verb == CreateContact || p.verb == CreateClient)
    ensures var email, phone := Term(p, o, "email"), Term(p, o, "phone");
            Converges(Perform(s, pol, digest, ws, p, key, o).effect, o,
                      Answered(email, o, 0), Asked(s, "res.partner", "email", email),
                      Answered(phone, o, 1), Asked(s, "res.partner", "phone", phone))
  {
    var doc := Resolve(p.native, o);
    var email, phone := Term(p, o, "email"), Term(p, o, "phone");
    assert Field(doc, "email") == email && Field(doc, "phone") == phone;
    var hits1, hits2 := Asked(s, "res.partner", "email", email), Asked(s, "res.partner", "phone", phone);
    FieldHits(s, "email", doc);
    FieldHits(s, "phone", doc);
    ProbesMean(s, "res.partner", EMAIL_OR_PHONE, doc, o.downProbes, Named(key), Answered(email, o, 0), hits1,
               Answered(phone, o, 1), hits2);
    UpsertConvergesOn(s, pol, digest, ws, p, key, o, Answered(email, o, 0), hits1, Answered(phone, o, 1), hits2);
  }

  lemma FieldHits(s: Store, f: string, doc: Row)
    ensures ProbeDomain(Single(f), doc).Some? <==> Truthy(Field(doc, f))
    ensures KeyHits(s, "res.partner", Single(f), doc)
            == Asked(s, "res.partner", f, Field(doc, f))
  {
    FieldKeyMeans(Single(f), [f], doc, map[]);
    if Truthy(Field(doc, f)) {
      forall row
        ensures DomainTest(ProbeDomain(Single(f), doc).value)(row) <==> Alike(Field(row, f), Field(doc, f))
      {
        FieldKeyMeans(Single(f), [f], doc, row);
      }
    }
  }

  /** A supplier link is known by its product and its partner together. */
  lemma LinkIsKnownBy(s: Store, pol: Policy, digest: string -> string, ws: string, p: Proposal, key: string, o: Oracle)
    requires StoreOk(s) && p.Curated? && p.verb == LinkSupplier
    ensures var product, partner := Term(p, o, "product_tmpl_id"), Term(p, o, "partner_id");
            Converges(Perform(s, pol, digest, ws, p, key, o).effect, o, LinkAnswered(product, partner, o),
                      Links(s, product, partner), true, {})
  {
    var doc, fields := Resolve(p.native, o), ["product_tmpl_id", "partner_id"];
    var product, partner := Term(p, o, "product_tmpl_id"), Term(p, o, "partner_id");
    assert Field(doc, "product_tmpl_id") == product && Field(doc, "partner_id") == partner;
    var up, hits := LinkAnswered(product, partner, o), Links(s, product, partner);
    PairHits(s, "product_tmpl_id", "partner_id", doc);
    ProbesMean(s, "product.supplierinfo", [Group(fields)], doc, o.downProbes, Named(key), up, hits, true,
               {});
    UpsertConvergesOn(s, pol, digest, ws, p, key, o, up, hits, true, {});
  }

  lemma PairHits(s: Store, f: string, g: string, doc: Row)
    ensures ProbeDomain(Group([f, g]), doc).Some? <==> Truthy(Field(doc, f)) && Truthy(Field(doc, g))
    ensures KeyHits(s, "product.supplierinfo", Group([f, g]), doc)
            == Asked(s, "product.supplierinfo", f, Field(doc, f))
               * Asked(s, "product.supplierinfo", g, Field(doc, g))
  {
    var k, fields := Group([f, g]), [f, g];
    FieldKeyMeans(k, fields, doc, map[]);
    assert fields[0] == f && fields[1] == g;
    if ProbeDomain(k, doc).Some? {
      forall row
        ensures DomainTest(ProbeDomain(k, doc).value)(row)
                <==> Alike(Field(row, f), Field(doc, f)) && Alike(Field(row, g), Field(doc, g))
      {
        FieldKeyMeans(k, fields, doc, row);
      }
    }
  }
}
