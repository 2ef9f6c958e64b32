/** Upserts: committing the same arguments again finds the same record. */
module Upsert {
  import opened Text
  import opened Options
  import opened Values
  import opened Domain
  import opened Verbs
  import opened Backend
  import opened Protocol
  import opened Invariants
  import Governance

  /** Writing the document makes any record match every key that is probed with it. */
  ghost predicate Settles(keys: seq<DedupKey>, doc: Row) {
    forall k, row | k in keys && ProbeDomain(k, doc).Some? :: DomainTest(ProbeDomain(k, doc).value)(row + Clean(doc))
  }

  /** The first key from `i` on that is probed. */
  function FirstProbed(keys: seq<DedupKey>, doc: Row, i: nat): (j: nat)
    requires i <= |keys|
    ensures i <= j <= |keys|
    ensures j < |keys| ==> ProbeDomain(keys[j], doc).Some?
    ensures forall h | i <= h < j :: ProbeDomain(keys[h], doc).None?
    decreases |keys| - i
  {
    if i == |keys| || ProbeDomain(keys[i], doc).Some? then i else FirstProbed(keys, doc, i + 1)
  }

  /** What the probes found concerns the first probed key: its hits are the record that will be
      written, or none. */
  lemma {:induction false} FirstKeyHits(s: Store, model: string, keys: seq<DedupKey>, doc: Row, down: set<nat>, i: nat,
                                        lkey: LedgerKey)
    requires i <= |keys| && FirstProbed(keys, doc, i) < |keys|
    ensures var hits := Hits(s, model, DomainTest(ProbeDomain(keys[FirstProbed(keys, doc, i)], doc).value));
            match ProbeKeysFrom(s, model, keys, doc, down, i, lkey)
            case NoMatch(_) => hits == {}
            case Match(id, _) => hits <= {Key(model, id)}
            case Stuck => true
    decreases |keys| - i
  {
    if ProbeDomain(keys[i], doc).None? {
      FirstKeyHits(s, model, keys, doc, down, i + 1, LedgerKeyOf(keys[i]));
    }
  }

  /** A first probed key with one hit decides: for that record, or for nothing when it cannot be asked. */
  lemma {:induction false} FirstKeyDecides(s: Store, model: string, keys: seq<DedupKey>, doc: Row, down: set<nat>,
                                           i: nat, lkey: LedgerKey, id: string)
    requires i <= |keys| && FirstProbed(keys, doc, i) < |keys|
    requires Hits(s, model, DomainTest(ProbeDomain(keys[FirstProbed(keys, doc, i)], doc).value)) == {Key(model, id)}
    ensures var f := ProbeKeysFrom(s, model, keys, doc, down, i, lkey);
            if FirstProbed(keys, doc, i) in down then f == Stuck else f.Match? && f.id == id
    decreases |keys| - i
  {
    if ProbeDomain(keys[i], doc).None? {
      FirstKeyDecides(s, model, keys, doc, down, i + 1, LedgerKeyOf(keys[i]), id);
    } else {
      var test := DomainTest(ProbeDomain(keys[i], doc).value);
      SingleHit(s, model, test, id);
    }
  }

  lemma SingleHit(s: Store, model: string, p: Row -> bool, id: string)
    requires Hits(s, model, p) == {Key(model, id)}
    ensures Probe(s, model, p) == One(id)
  {
    assert Key(model, id) in Hits(s, model, p);
    var f := Probe(s, model, p);
    assert !f.Many?;
    assert f.One? ==> Key(model, f.id) in Hits(s, model, p);
  }

  /** Writing one record leaves a test's hits to the others. */
  lemma HitsAfterWrite(s: Store, k: Key, doc: Row, p: Row -> bool, e: Effect)
    requires e == Created(k, Clean(doc)) || (e == Patched(k, Clean(doc)) && k in s.rows)
    requires forall row: Row :: p(row + Clean(doc))
    requires Hits(s, k.model, p) <= {k}
    ensures Hits(Apply(s, e), k.model, p) == {k}
  {
    var empty: Row := map[];
    assert empty + Clean(doc) == Clean(doc);
    var t := Apply(s, e);
    assert p(t.rows[k]);
    assert forall j | j in t.rows && j != k :: t.rows[j] == s.rows[j];
  }

  lemma PatchAgain(row: Row, doc: Row)
    ensures (row + Clean(doc)) + Clean(doc) == row + Clean(doc)
    ensures Clean(doc) + Clean(doc) == Clean(doc)
  {
  }

  ghost function Upserted(s: Store, v: VerbName, model: string, keys: seq<DedupKey>, doc: Row, key: string,
                          o: Oracle): Outcome {
    CommitUpsert(s, v, model, doc, ProbeKeysFrom(s, model, keys, doc, o.downProbes, 0, Named(key)), o)
  }

  /** Upsert convergence: on any store, after a first upsert that landed, however it was answered, the
      same arguments find that same record or are stopped by a probe that fails; whatever happens to the
      second one, it adds none and leaves every record as it is, and if its calls are answered it is
      executed on that record. */
  lemma UpsertConverges(s: Store, v: VerbName, model: string, keys: seq<DedupKey>, doc: Row, key1: string, key2: string,
                        o1: Oracle, o2: Oracle)
    requires Settles(keys, doc) && SomeKeyProbed(keys, doc)
    requires Upserted(s, v, model, keys, doc, key1, o1).effect != NoEffect
    ensures var e := Upserted(s, v, model, keys, doc, key1, o1).effect;
            var s1 := Apply(s, e);
            var out2 := Upserted(s1, v, model, keys, doc, key2, o2);
            && (e.Created? || e.Patched?) && Apply(s1, out2.effect) == s1
            && (o2.downProbes == {} && o2.write == Fine && o2.readUp && o2.verifyUp ==>
                  out2.Receipted? && out2.ref == e.key.id)
  {
    var found := ProbeKeysFrom(s, model, keys, doc, o1.downProbes, 0, Named(key1));
    var e := CommitUpsert(s, v, model, doc, found, o1).effect;
    UpsertWrites(s, v, model, doc, found, o1);
    FoundAgain(s, model, keys, doc, found, e, e.key.id, o1.downProbes, o2.downProbes, key1, key2);
    WriteAgain(s, Key(model, e.key.id), doc, e);
    var again := ProbeKeysFrom(Apply(s, e), model, keys, doc, o2.downProbes, 0, Named(key2));
    if again.Match? {
      SecondUpsertIsIdle(Apply(s, e), v, model, doc, again, o2);
    }
  }

  lemma FoundAgain(s: Store, model: string, keys: seq<DedupKey>, doc: Row, found: Probed, e: Effect, id: string,
                   down1: set<nat>, down2: set<nat>, key1: string, key2: string)
    requires Settles(keys, doc) && SomeKeyProbed(keys, doc)
    requires found == ProbeKeysFrom(s, model, keys, doc, down1, 0, Named(key1))
    requires !found.Stuck? && (found.Match? ==> found.id == id)
    requires var k := Key(model, id); e == Created(k, Clean(doc)) || (e == Patched(k, Clean(doc)) && k in s.rows)
    ensures var f := ProbeKeysFrom(Apply(s, e), model, keys, doc, down2, 0, Named(key2));
            (f == Stuck && down2 != {}) || (f.Match? && f.id == id)
  {
    var d: DedupKey :| d in keys && ProbeDomain(d, doc).Some?;
    var j := FirstProbed(keys, doc, 0);
    assert j < |keys| && keys[j] in keys;
    FirstKeyHits(s, model, keys, doc, down1, 0, Named(key1));
    HitsAfterWrite(s, Key(model, id), doc, DomainTest(ProbeDomain(keys[j], doc).value), e);
    FirstKeyDecides(Apply(s, e), model, keys, doc, down2, 0, Named(key2), id);
  }

  lemma WriteAgain(s: Store, k: Key, doc: Row, e: Effect)
    requires e == Created(k, Clean(doc)) || (e == Patched(k, Clean(doc)) && k in s.rows)
    ensures var s1 := Apply(s, e); k in s1.rows && Apply(s1, Patched(k, Clean(doc))) == s1
  {
    if e.Patched? {
      PatchAgain(s.rows[k], doc);
    } else {
      PatchAgain(map[], doc);
    }
    var s1 := Apply(s, e);
    assert s1.rows[k] + Clean(doc) == s1.rows[k];
    assert s1.rows[k := s1.rows[k]] == s1.rows;
  }

  lemma UpsertWrites(s: Store, v: VerbName, model: string, doc: Row, found: Probed, o: Oracle)
    requires CommitUpsert(s, v, model, doc, found, o).effect != NoEffect
    ensures var e := CommitUpsert(s, v, model, doc, found, o).effect;
            && !found.Stuck? && (e.Created? || e.Patched?) && (found.Match? ==> e.key.id == found.id)
            && (e == Created(Key(model, e.key.id), Clean(doc))
                || (e == Patched(Key(model, e.key.id), Clean(doc)) && e.key in s.rows))
  {
  }

  lemma SecondUpsertIsIdle(s: Store, v: VerbName, model: string, doc: Row, found: Probed, o: Oracle)
    requires found.Match? && Key(model, found.id) in s.rows
    requires Apply(s, Patched(Key(model, found.id), Clean(doc))) == s
    ensures var out := CommitUpsert(s, v, model, doc, found, o);
            Apply(s, out.effect) == s
            && (o.write == Fine && o.readUp && o.verifyUp ==> out.Receipted? && out.ref == found.id)
  {
  }

  /** This key is asked, and everything asked before it found nothing. */
  ghost predicate Reached(s: Store, model: string, keys: seq<DedupKey>, doc: Row, down: set<nat>, i: nat, j: nat)
    requires j < |keys|
  {
    && ProbeDomain(keys[j], doc).Some?
    && forall h | i <= h < j && ProbeDomain(keys[h], doc).Some? ::
         h !in down && Probe(s, model, DomainTest(ProbeDomain(keys[h], doc).value)) == Nothing
  }

  /** An upsert stops without writing exactly when a key it reaches cannot be asked, or is ambiguous. */
  lemma {:induction false} StuckExactlyWhen(s: Store, model: string, keys: seq<DedupKey>, doc: Row, down: set<nat>,
                                            i: nat, lkey: LedgerKey)
    requires i <= |keys|
    ensures ProbeKeysFrom(s, model, keys, doc, down, i, lkey) == Stuck
            <==> exists j | i <= j < |keys| ::
                   Reached(s, model, keys, doc, down, i, j)
                   && (j in down || Probe(s, model, DomainTest(ProbeDomain(keys[j], doc).value)) == Many)
    decreases |keys| - i
  {
    if i < |keys| {
      StuckExactlyWhen(s, model, keys, doc, down, i + 1, LedgerKeyOf(keys[i]));
      forall j | i < j < |keys|
        ensures Reached(s, model, keys, doc, down, i, j)
                <==> Reached(s, model, keys, doc, down, i + 1, j)
                     && (ProbeDomain(keys[i], doc).Some? ==>
                           i !in down && Probe(s, model, DomainTest(ProbeDomain(keys[i], doc).value)) == Nothing)
      {
      }
      assert Reached(s, model, keys, doc, down, i, i) <==> ProbeDomain(keys[i], doc).Some?;
    }
  }

  /** And then nothing is written. */
  lemma StuckWritesNothing(s: Store, v: VerbName, model: string, doc: Row, o: Oracle)
    ensures CommitUpsert(s, v, model, doc, Stuck, o) == Stop(NoEffect, FailedTerminal)
  {
  }

  /** A blind create needs every probed key to have found nothing. */
  lemma {:induction false} CreatesOnlyWhenAbsent(s: Store, model: string, keys: seq<DedupKey>, doc: Row, down: set<nat>,
                                                 i: nat, lkey: LedgerKey)
    requires i <= |keys| && ProbeKeysFrom(s, model, keys, doc, down, i, lkey).NoMatch?
    ensures forall j | i <= j < |keys| && ProbeDomain(keys[j], doc).Some? ::
              j !in down && Hits(s, model, DomainTest(ProbeDomain(keys[j], doc).value)) == {}
    decreases |keys| - i
  {
    if i < |keys| {
      CreatesOnlyWhenAbsent(s, model, keys, doc, down, i + 1, LedgerKeyOf(keys[i]));
    }
  }

  /** For keys of any shape: a record an upsert created is found again exactly when the document it
      wrote matches one of the domains that were probed; otherwise every commit creates another. */
  lemma CreatedIsFoundExactlyWhen(s: Store, model: string, keys: seq<DedupKey>, doc: Row, key: string, id: string)
    requires ProbeKeysFrom(s, model, keys, doc, {}, 0, Named(key)).NoMatch? && Key(model, id) !in s.rows
    ensures ProbeKeysFrom(Apply(s, Created(Key(model, id), Clean(doc))), model, keys, doc, {}, 0, Named(key)).NoMatch?
            <==> !exists k | k in keys :: ProbeDomain(k, doc).Some? && DomainTest(ProbeDomain(k, doc).value)(Clean(doc))
  {
    CreatesOnlyWhenAbsent(s, model, keys, doc, {}, 0, Named(key));
    ReprobeFrom(s, model, keys, doc, 0, Named(key), id);
    assert forall k | k in keys :: exists j | 0 <= j < |keys| :: keys[j] == k;
  }

  lemma {:induction false} ReprobeFrom(s: Store, model: string, keys: seq<DedupKey>, doc: Row, i: nat, lkey: LedgerKey,
                                       id: string)
    requires i <= |keys| && Key(model, id) !in s.rows
    requires forall j | i <= j < |keys| && ProbeDomain(keys[j], doc).Some? ::
               Hits(s, model, DomainTest(ProbeDomain(keys[j], doc).value)) == {}
    ensures ProbeKeysFrom(Apply(s, Created(Key(model, id), Clean(doc))), model, keys, doc, {}, i, lkey).NoMatch?
            <==> forall j | i <= j < |keys| && ProbeDomain(keys[j], doc).Some? ::
              !DomainTest(ProbeDomain(keys[j], doc).value)(Clean(doc))
    decreases |keys| - i
  {
    if i < |keys| {
      ReprobeFrom(s, model, keys, doc, i + 1, LedgerKeyOf(keys[i]), id);
      if ProbeDomain(keys[i], doc).Some? {
        ProbeAfterCreate(s, Key(model, id), Clean(doc), DomainTest(ProbeDomain(keys[i], doc).value));
      }
    }
  }

  /** Where a probe found nothing, it finds the new record or nothing. */
  lemma ProbeAfterCreate(s: Store, k: Key, doc: Row, test: Row -> bool)
    requires k !in s.rows && Hits(s, k.model, test) == {}
    ensures Probe(Apply(s, Created(k, doc)), k.model, test) == if test(doc) then One(k.id) else Nothing
  {
    var t := Apply(s, Created(k, doc));
    assert Hits(t, k.model, test) == if test(doc) then {k} else {} by {
      assert forall j | j in t.rows && j != k :: j in s.rows && t.rows[j] == s.rows[j];
      assert forall j | j in s.rows && j.model == k.model && test(s.rows[j]) :: j in Hits(s, k.model, test);
    }
    if test(doc) {
      SingleHit(t, k.model, test, k.id);
    }
  }

  // ---------------------------------------------------------------- the shipped upserts

  lemma EqualityMatches(row: Row, terms: seq<Token>)
    requires forall t | t in terms :: t.Triple? && EvalTriple(row, t.field, t.test) == Val(true)
    ensures DomainMatches(row, terms) == Val(true)
  {
    PlainListIsConjunction(row, terms);
  }

  /** Keys made of field names match whatever the document writes into those fields. */
  lemma FieldKeySettles(k: DedupKey, doc: Row, row: Row)
    requires k.Single? || k.Group?
    requires k.Single? ==> k.field != "id"
    requires k.Group? ==> "id" !in k.fields
    requires ProbeDomain(k, doc).Some?
    ensures DomainTest(ProbeDomain(k, doc).value)(row + Clean(doc))
  {
    var terms := ProbeDomain(k, doc).value;
    var after := row + Clean(doc);
    forall t | t in terms ensures t.Triple? && EvalTriple(after, t.field, t.test) == Val(true) {
      assert t.field != "id" && t.test == Eq(Field(doc, t.field)) && Truthy(Field(doc, t.field)) by {
        if k.Group? {
          var i :| 0 <= i < |terms| && terms[i] == t;
          assert k.fields[i] in k.fields;
        }
      }
      assert Field(after, t.field) == Field(doc, t.field);
    }
    EqualityMatches(after, terms);
  }

  lemma SupplierKeySettles(args: Row, doc: Row, row: Row)
    requires Truthy(Field(args, "name"))
    requires forall f | f in {"name", "email", "supplier_rank"} :: Field(doc, f) == Field(SupplierDoc(args), f)
    ensures var k := SupplierProbe(args)[0];
            DomainTest(k.triples)(row + Clean(doc))
  {
    var after := row + Clean(doc);
    var terms := SupplierProbe(args)[0].triples;
    DistinctNames();
    var identity := terms[0].field;
    assert Field(doc, identity) == Field(args, identity) && Field(doc, identity) != Null;
    assert Field(after, identity) == Field(args, identity);
    assert Field(doc, "supplier_rank") == Num(1) && Field(after, "supplier_rank") == Num(1);
    forall t | t in terms ensures t.Triple? && EvalTriple(after, t.field, t.test) == Val(true) {
      assert t == terms[0] || t == terms[1];
    }
    EqualityMatches(after, terms);
  }

  lemma DistinctNames()
    ensures "name" != "email" && "name" != "supplier_rank" && "email" != "supplier_rank" && "name" != "is_company"
    ensures "id" != "name" && "id" != "email" && "id" != "supplier_rank" && "id" != "phone"
    ensures "id" != "product_tmpl_id" && "id" != "partner_id"
    ensures "supplier_rank" !in {"email", "phone", "vat"} && "name" !in {"email", "phone", "vat"}
  {
    assert "id"[0] == 'i' && "name"[0] == 'n' && "email"[0] == 'e' && "supplier_rank"[0] == 's' && "phone"[0] == 'p'
           && "vat"[0] == 'v' && "is_company"[0] == 'i' && "product_tmpl_id"[0] == 'p' && "partner_id"[0] == 'p';
  }

  /** Resolution leaves alone what identifies a supplier: plain fields of no other model's. */
  predicate KeepsIdentity(v: VerbName, resolved: Row) {
    v == CreateSupplier ==> resolved.Keys !! {"name", "email", "supplier_rank"}
  }

  /** Every shipped upsert settles, on the document as it is written: by email or phone, by the pair of
      product and supplier, and by a supplier's email or name within the suppliers. */
  lemma ShippedUpsertsSettle(v: VerbName, args: Row, native: Row, resolved: Row)
    requires Lookup(v).op == UpsertOp && !Missing(Lookup(v), args) && native == NativeDoc(v, args, native)
             && KeepsIdentity(v, resolved)
    ensures Settles(ProbeKeys(v, args), ResolveWith(native, resolved))
  {
    var keys, doc := ProbeKeys(v, args), ResolveWith(native, resolved);
    DistinctNames();
    forall k, row | k in keys && ProbeDomain(k, doc).Some?
      ensures DomainTest(ProbeDomain(k, doc).value)(row + Clean(doc))
    {
      if v == CreateSupplier {
        assert "name" in Lookup(v).required;
        SupplierKeySettles(args, doc, row);
      } else {
        UpsertFieldKeys(v, args, k);
        FieldKeySettles(k, doc, row);
      }
    }
  }

  lemma UpsertFieldKeys(v: VerbName, args: Row, k: DedupKey)
    requires Lookup(v).op == UpsertOp && v != CreateSupplier && k in ProbeKeys(v, args)
    ensures (k.Single? && k.field != "id") || (k.Group? && "id" !in k.fields)
  {
    DistinctNames();
  }

  // ---------------------------------------------------------------- upserts as they are committed

  function KeyFields(k: DedupKey): seq<string> {
    match k
    case Single(f) => [f]
    case Group(fs) => fs
    case Resolved(_) => []
  }

  /** A key that could be probed at PROPOSE can be probed at COMMIT exactly when none of its fields has
      been resolved to an empty value. */
  lemma StaysProbedExactlyWhen(k: DedupKey, native: Row, resolved: Row)
    requires ProbeDomain(k, native).Some?
    ensures ProbeDomain(k, ResolveWith(native, resolved)).Some?
            <==> forall f | f in KeyFields(k) && f in resolved :: Truthy(resolved[f])
  {
    var doc := ResolveWith(native, resolved);
    forall f | f in KeyFields(k)
      ensures Truthy(Field(native, f)) && (Truthy(Field(doc, f)) <==> (f in resolved ==> Truthy(resolved[f])))
    {
      if k.Single? {
        assert f == k.field;
      }
    }
    if k.Single? {
      assert k.field in KeyFields(k);
    }
  }

  /** What resolution puts in place of a term is an id or a stored key, never empty. */
  predicate Legible(resolved: Row) {
    forall f | f in resolved :: Truthy(resolved[f])
  }

  /** What is known of every upsert the adapter remembers. */
  lemma RememberedUpsert(w: World, pid: nat)
    requires Inv(w) && pid in w.memory.proposals && IsUpsert(w.memory.proposals[pid])
    ensures var p := w.memory.proposals[pid];
            && !Missing(Lookup(p.verb), p.args) && p.native == NativeDoc(p.verb, p.args, p.native)
            && SomeKeyProbed(ProbeKeys(p.verb, p.args), p.native)
  {
    assert OriginOk(w.hist, pid, w.hist.origins[pid]);
    if w.hist.origins[pid].ReversalOf? {
      var m := w.hist.minted[w.hist.origins[pid].token];
      assert MintedOk(w.hist, w.hist.origins[pid].token, m);
      ReversalIsNoUpsert(m.comp);
    }
  }

  lemma ReversalIsNoUpsert(c: Comp)
    requires UndoProposal(c).UndoAs?
    ensures !IsUpsert(UndoProposal(c).proposal)
  {
    if c.UndoVerb? {
      CompensationIsCommittable(c.verb, c.id);
    }
  }

  /** The document and the keys a remembered upsert is committed with. */
  function CommittedDoc(p: Proposal, o: Oracle): Row
    requires p.Curated?
  {
    ResolveWith(p.native, o.resolved)
  }

  /** An accepted upsert always has a key to probe when it is committed, in every reachable state. */
  lemma CommitProbesSomeKey(w: World, pid: nat, o: Oracle)
    requires Inv(w) && pid in w.memory.proposals && IsUpsert(w.memory.proposals[pid]) && Legible(o.resolved)
    ensures var p := w.memory.proposals[pid]; SomeKeyProbed(ProbeKeys(p.verb, p.args), CommittedDoc(p, o))
  {
    RememberedUpsert(w, pid);
    var p := w.memory.proposals[pid];
    var k :| k in ProbeKeys(p.verb, p.args) && ProbeDomain(k, p.native).Some?;
    StaysProbedExactlyWhen(k, p.native, o.resolved);
  }

  lemma PerformsUpsert(s: Store, pol: Governance.Policy, digest: string -> string, ws: string, p: Proposal, key: string,
                       o: Oracle)
    requires IsUpsert(p) && !o.resolveDown
    ensures Perform(s, pol, digest, ws, p, key, o)
            == Upserted(s, p.verb, Lookup(p.verb).doctype, ProbeKeys(p.verb, p.args), CommittedDoc(p, o), key, o)
  {
  }

  /** So an upsert never creates blindly: over every run, when a commit of one creates a record, at least
      one key was probed, every probed key answered, and none of them found a record. */
  lemma UpsertNeverCreatesBlindly(w: World, ws: string, key: string, pid: nat, o: Oracle)
    requires Inv(w) && pid in w.memory.proposals && IsUpsert(w.memory.proposals[pid]) && Legible(o.resolved)
    requires Perform(w.store, w.policy, w.digest, ws, w.memory.proposals[pid], key, o).effect.Created?
    ensures var p := w.memory.proposals[pid];
            var keys, doc := ProbeKeys(p.verb, p.args), CommittedDoc(p, o);
            && (exists j | 0 <= j < |keys| :: ProbeDomain(keys[j], doc).Some?)
            && (forall j | 0 <= j < |keys| && ProbeDomain(keys[j], doc).Some? ::
                  j !in o.downProbes
                  && Hits(w.store, Lookup(p.verb).doctype, DomainTest(ProbeDomain(keys[j], doc).value)) == {})
  {
    var p := w.memory.proposals[pid];
    var keys, doc, model := ProbeKeys(p.verb, p.args), CommittedDoc(p, o), Lookup(p.verb).doctype;
    CommitProbesSomeKey(w, pid, o);
    var k :| k in keys && ProbeDomain(k, doc).Some?;
    if !o.resolveDown {
      PerformsUpsert(w.store, w.policy, w.digest, ws, p, key, o);
      CreatedHadNoMatch(w.store, p.verb, model, keys, doc, key, o);
      CreatesOnlyWhenAbsent(w.store, model, keys, doc, o.downProbes, 0, Named(key));
    }
  }

  lemma CreatedHadNoMatch(s: Store, v: VerbName, model: string, keys: seq<DedupKey>, doc: Row, key: string, o: Oracle)
    requires Upserted(s, v, model, keys, doc, key, o).effect.Created?
    ensures ProbeKeysFrom(s, model, keys, doc, o.downProbes, 0, Named(key)).NoMatch?
  {
  }

  /** The commit goes past the ledger and the proposal lookup. */
  predicate Performed(w: World, key: string, pid: nat) {
    key != "" && Named(key) !in w.memory.ledger && pid in w.memory.proposals
  }

  /** Convergence of the shipped upserts as they are committed. In any reachable state a first commit
      lands, answered or not; later, perhaps after a restart, a proposal with the same arguments is
      committed on the store it left. Whatever happens to that commit, it changes nothing; if its calls
      are answered, it is executed on the very record of the first one. */
  lemma UpsertCommitConverges(w: World, ws: string, key: string, pid: nat, o: Oracle,
                              v: World, ws': string, key': string, pid': nat, o': Oracle)
    requires Inv(w) && Performed(w, key, pid) && IsUpsert(w.memory.proposals[pid])
    requires Perform(w.store, w.policy, w.digest, ws, w.memory.proposals[pid], key, o).effect != NoEffect
    requires Performed(v, key', pid') && v.memory.proposals[pid'] == w.memory.proposals[pid]
    requires v.store == Commit(w, ws, key, pid, o).0.store
    requires Legible(o.resolved) && KeepsIdentity(w.memory.proposals[pid].verb, o.resolved)
    requires o'.resolved == o.resolved
    ensures var e := Perform(w.store, w.policy, w.digest, ws, w.memory.proposals[pid], key, o).effect;
            var (v', a) := Commit(v, ws', key', pid', o');
            && (e.Created? || e.Patched?) && v'.store == v.store
            && (!o'.resolveDown && o'.downProbes == {} && o'.write == Fine && o'.readUp && o'.verifyUp ==>
                  a.Executed? && a.receipt.ref == e.key.id)
  {
    var p := w.memory.proposals[pid];
    var keys, doc, model := ProbeKeys(p.verb, p.args), CommittedDoc(p, o), Lookup(p.verb).doctype;
    RememberedUpsert(w, pid);
    CommitProbesSomeKey(w, pid, o);
    ShippedUpsertsSettle(p.verb, p.args, p.native, o.resolved);
    FirstLands(w.store, w.policy, w.digest, ws, p, key, o);
    UpsertConverges(w.store, p.verb, model, keys, doc, key, key', o, o');
    StoreAfter(w, ws, key, pid, o);
    SecondCommit(v, ws', key', pid', p, Upserted(v.store, p.verb, model, keys, doc, key', o'), o');
  }

  lemma FirstLands(s: Store, pol: Governance.Policy, digest: string -> string, ws: string, p: Proposal, key: string,
                   o: Oracle)
    requires IsUpsert(p) && Perform(s, pol, digest, ws, p, key, o).effect != NoEffect
    ensures !o.resolveDown
    ensures Perform(s, pol, digest, ws, p, key, o)
            == Upserted(s, p.verb, Lookup(p.verb).doctype, ProbeKeys(p.verb, p.args), CommittedDoc(p, o), key, o)
  {
    if !o.resolveDown {
      PerformsUpsert(s, pol, digest, ws, p, key, o);
    }
  }

  lemma StoreAfter(w: World, ws: string, key: string, pid: nat, o: Oracle)
    requires Performed(w, key, pid)
    ensures Commit(w, ws, key, pid, o).0.store
            == Apply(w.store, Perform(w.store, w.policy, w.digest, ws, w.memory.proposals[pid], key, o).effect)
  {
  }

  lemma SecondCommit(v: World, ws: string, key: string, pid: nat, p: Proposal, out: Outcome, o: Oracle)
    requires Performed(v, key, pid) && v.memory.proposals[pid] == p && IsUpsert(p)
    requires out == Upserted(v.store, p.verb, Lookup(p.verb).doctype, ProbeKeys(p.verb, p.args),
                             CommittedDoc(p, o), key, o)
    requires Apply(v.store, out.effect) == v.store
    ensures var (v', a) := Commit(v, ws, key, pid, o);
            v'.store == v.store && (!o.resolveDown && out.Receipted? ==> a.Executed? && a.receipt.ref == out.ref)
  {
    if !o.resolveDown {
      PerformsUpsert(v.store, v.policy, v.digest, ws, p, key, o);
    }
    StoreAfter(v, ws, key, pid, o);
  }

  // ---------------------------------------------------------------- the supplier's rank

  /** The supplier upsert is not idle on the supplier it finds: the rank, a counter that only grows
      in the books, is set back to 1. */
  lemma MatchedSupplierLosesRank(s: Store, args: Row, id: string, lkey: LedgerKey, o: Oracle)
    requires Key("res.partner", id) in s.rows && o.write == Fine && o.readUp && o.verifyUp
    ensures var doc := SupplierDoc(args);
            var out := CommitUpsert(s, CreateSupplier, "res.partner", doc, Match(id, lkey), o);
            out.Receipted? && Field(Apply(s, out.effect).rows[Key("res.partner", id)], "supplier_rank") == Num(1)
  {
    DistinctNames();
    assert Field(Clean(SupplierDoc(args)), "supplier_rank") == Num(1);
  }
}
