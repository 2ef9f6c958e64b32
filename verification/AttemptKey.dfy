/** Keyed creates: at most one record per attempt key, over lost answers and restarts. */
module AttemptKey {
  import opened Text
  import opened Options
  import opened Values
  import opened Domain
  import opened Verbs
  import opened Backend
  import opened Protocol
  import opened Invariants
  import Governance
  import Marker

  /** The records of a model that carry a marker in a field. */
  function Carriers(s: Store, model: string, field: string, marker: string): set<Key> {
    Hits(s, model, CarriesTest(field, marker))
  }

  ghost predicate AtMostOne(s: Store, model: string, field: string, marker: string) {
    forall a, b | a in Carriers(s, model, field, marker) && b in Carriers(s, model, field, marker) :: a == b
  }

  predicate IsKeyed(v: VerbName) {
    Lookup(v).op == CreateOp && Lookup(v).stamp != ""
  }

  /** To carry a marker is to contain it. */
  lemma CarriesIsContains(row: Row, field: string, marker: string)
    ensures Carries(row, field, marker) <==> Field(row, field).Text? && Contains(Field(row, field).s, marker)
  {
    if Field(row, field).Text? {
      Marker.EscapedLikeIsContainment(Field(row, field).s, marker);
    }
  }

  lemma StampedCarries(doc: Row, field: string, marker: string)
    requires field != "id"
    ensures Carries(Clean(Stamped(doc, field, marker)), field, marker)
  {
    var prior := Field(doc, field);
    Marker.StampCarries(if Truthy(prior) then Show(prior) else "", marker);
    CarriesIsContains(Clean(Stamped(doc, field, marker)), field, marker);
  }

  // ---------------------------------------------------------------- answers of one keyed create

  lemma CreatedAlone(s: Store, k: Key, doc: Row, field: string, marker: string)
    requires Carriers(s, k.model, field, marker) == {} && Carries(doc, field, marker)
    ensures Carriers(Apply(s, Created(k, doc)), k.model, field, marker) == {k}
  {
  }

  /** The answers of a keyed create are sound for every way its calls can end. A receipt, or a crash
      behind it, means exactly one record carries the marker; a receipt names that record. A refusal
      before the write wrote nothing. A lost answer is never called a failure. */
  lemma KeyedAnswersAreSound(s: Store, v: VerbName, model: string, field: string, doc: Row, marker: string, key: string,
                             o: Oracle)
    requires StoreOk(s) && field != "id" && forall k | k in s.used :: k.id != o.newId
    ensures var out := KeyedCreate(s, v, model, field, doc, marker, key, o);
            var after := Carriers(Apply(s, out.effect), model, field, marker);
            && (out.Receipted? ==> after == {Key(model, out.ref)})
            && (out.Receipted? ==> (out.replay <==> out.effect == NoEffect || o.write.Lost?))
            && (out.Halted? && out.answer == Crashed ==> exists k :: after == {k})
            && (out.Halted? && out.answer == Refusal(UpstreamUnavailable) <==> !o.probeUp)
            && (!o.probeUp ==> out.effect == NoEffect)
            && (o.write.Lost? ==> !(out.Halted? && out.answer == FailedTerminal))
            && (out.effect == NoEffect
                || (out.effect.Created? && out.effect.key == Key(model, o.newId) && out.effect.key !in s.rows))
  {
    var test := CarriesTest(field, marker);
    var effect := KeyedEffect(model, field, doc, marker, o);
    var k := Key(model, o.newId);
    var first, second := Probe(s, model, test), Probe(AfterLost(s, effect, o), model, test);
    StampedCarries(doc, field, marker);
    if first == Nothing && effect.Created? {
      CreatedAlone(s, k, effect.doc, field, marker);
    }
    if first == Nothing && second.One? {
      SecondFindsOwn(s, k, effect, test, o);
    }
    KeyedTable(s, v, model, field, marker, effect, key, first, second, o);
  }

  lemma KeyedTable(s: Store, v: VerbName, model: string, field: string, marker: string, effect: Effect, key: string,
                   first: Found, second: Found, o: Oracle)
    requires effect == NoEffect || (effect.Created? && effect.key == Key(model, o.newId) && effect.key !in s.rows)
    requires Backend.Lands(o.write) <==> effect.Created?
    requires first.One? ==> Carriers(s, model, field, marker) == {Key(model, first.id)}
    requires first == Nothing && effect.Created? ==> Carriers(Apply(s, effect), model, field, marker) == {effect.key}
    requires first == Nothing && second.One? ==> effect.Created? && second.id == o.newId
    ensures var out := CommitKeyedCreate(v, effect, key, first, second, o);
            var after := Carriers(Apply(s, out.effect), model, field, marker);
            && (out.Receipted? ==> after == {Key(model, out.ref)})
            && (out.Receipted? ==> (out.replay <==> out.effect == NoEffect || o.write.Lost?))
            && (out.Halted? && out.answer == Crashed ==> exists k :: after == {k})
            && (out.Halted? && out.answer == Refusal(UpstreamUnavailable) <==> !o.probeUp)
            && (!o.probeUp ==> out.effect == NoEffect)
            && (o.write.Lost? ==> !(out.Halted? && out.answer == FailedTerminal))
            && (out.effect == NoEffect || out.effect == effect)
  {
  }

  /** `failed_terminal` asserts that nothing happened. `fine` is the same commit with its write
      answered in full: the two agree unless the write landed and its read-back failed. */
  predicate WrotePair(out: Outcome, fine: Outcome, o: Oracle) {
    out.Halted? && out.answer == FailedTerminal ==>
      (out.effect != NoEffect <==> o.write == ReadBackDown && fine.effect != NoEffect)
  }

  /** A commit answered `failed_terminal` wrote something exactly when its write landed and its
      read-back failed: it would have written with the same calls and the write answered. */
  lemma FailedTerminalWroteExactlyWhen(s: Store, pol: Governance.Policy, digest: string -> string, ws: string,
                                       p: Proposal, key: string, o: Oracle, u: Oracle)
    requires u == o.(write := Fine)
    ensures WrotePair(Perform(s, pol, digest, ws, p, key, o), Perform(s, pol, digest, ws, p, key, u), o)
  {
    match p
    case MethodCall(_, _, _, _) =>
    case Generic(_, _, _, _, _) => GenericWrote(s, p, key, o, u);
    case Curated(v, args, native) =>
      assert Resolve(native, u) == Resolve(native, o);
      DispatchWrote(s, v, Lookup(v), args, Resolve(native, o), key, digest, o, u);
  }

  lemma GenericWrote(s: Store, p: Proposal, key: string, o: Oracle, u: Oracle)
    requires p.Generic? && u == o.(write := Fine)
    ensures WrotePair(CommitGeneric(s, p, key, o), CommitGeneric(s, p, key, u), o)
  {
    assert Resolve(p.data, u) == Resolve(p.data, o);
  }

  lemma DispatchWrote(s: Store, v: VerbName, verb: Verb, args: Row, doc: Row, key: string, digest: string -> string,
                      o: Oracle, u: Oracle)
    requires u == o.(write := Fine)
    ensures WrotePair(Dispatch(s, v, verb, args, doc, key, digest, o),
                      Dispatch(s, v, verb, args, doc, key, digest, u), o)
  {
    match verb.op {
      case DeleteOp => DeleteWrote(s, v, verb.doctype, TargetArg(verb, args), key, o, u);
      case UpdateOp => UpdateWrote(s, v, verb.doctype, TargetArg(verb, args), doc, key, o, u);
      case MethodOp => ActionWrote(s, v, verb, TargetArg(verb, args), key, o, u);
      case UpsertOp => UpsertWrote(s, v, verb.doctype, doc, UpsertProbes(s, v, verb, args, doc, key, o), o, u);
      case CreateOp => CreateWrote(s, v, verb, args, doc, key, digest, o, u);
    }
  }

  lemma DeleteWrote(s: Store, v: VerbName, model: string, raw: string, key: string, o: Oracle, u: Oracle)
    requires u == o.(write := Fine)
    ensures WrotePair(CommitDelete(s, v, model, raw, key, o), CommitDelete(s, v, model, raw, key, u), o)
  {
    var out := CommitDelete(s, v, model, raw, key, o);
    assert out.Halted? && out.answer == FailedTerminal ==> out.effect == NoEffect;
    assert CommitDelete(s, v, model, raw, key, u) == out;
  }

  lemma ActionWrote(s: Store, v: VerbName, verb: Verb, raw: string, key: string, o: Oracle, u: Oracle)
    requires u == o.(write := Fine)
    ensures WrotePair(CommitAction(s, v, verb, raw, key, o), CommitAction(s, v, verb, raw, key, u), o)
  {
    var out := CommitAction(s, v, verb, raw, key, o);
    assert out.Halted? && out.answer == FailedTerminal ==> out.effect == NoEffect;
    assert CommitAction(s, v, verb, raw, key, u) == out;
  }

  lemma UpdateWrote(s: Store, v: VerbName, model: string, raw: string, doc: Row, key: string, o: Oracle, u: Oracle)
    requires u == o.(write := Fine)
    ensures WrotePair(CommitUpdate(s, v, model, raw, doc, key, o), CommitUpdate(s, v, model, raw, doc, key, u), o)
  {
  }

  lemma UpsertWrote(s: Store, v: VerbName, model: string, doc: Row, found: Probed, o: Oracle, u: Oracle)
    requires u == o.(write := Fine)
    ensures WrotePair(CommitUpsert(s, v, model, doc, found, o), CommitUpsert(s, v, model, doc, found, u), o)
  {
    match found
    case Stuck =>
    case NoMatch(lkey) => NoMatchWrote(s, v, model, doc, lkey, o, u);
    case Match(id, lkey) => MatchWrote(s, v, model, doc, id, lkey, o, u);
  }

  lemma NoMatchWrote(s: Store, v: VerbName, model: string, doc: Row, lkey: LedgerKey, o: Oracle, u: Oracle)
    requires u == o.(write := Fine)
    ensures WrotePair(CommitUpsert(s, v, model, doc, NoMatch(lkey), o),
                      CommitUpsert(s, v, model, doc, NoMatch(lkey), u), o)
  {
  }

  lemma MatchWrote(s: Store, v: VerbName, model: string, doc: Row, id: string, lkey: LedgerKey, o: Oracle, u: Oracle)
    requires u == o.(write := Fine)
    ensures WrotePair(CommitUpsert(s, v, model, doc, Match(id, lkey), o),
                      CommitUpsert(s, v, model, doc, Match(id, lkey), u), o)
  {
    var k := Key(model, id);
    MatchEffect(s, v, model, doc, id, lkey, o);
    MatchEffect(s, v, model, doc, id, lkey, u);
  }

  lemma MatchEffect(s: Store, v: VerbName, model: string, doc: Row, id: string, lkey: LedgerKey, o: Oracle)
    ensures var out := CommitUpsert(s, v, model, doc, Match(id, lkey), o);
            && out.effect == (if o.readUp then UpdateEffect(s, Key(model, id), doc, o.write) else NoEffect)
            && (out.Halted? && out.answer == FailedTerminal && out.effect != NoEffect ==> o.write == ReadBackDown)
  {
    if o.readUp {
      var image := BeforeImageOf(s, model, id, doc);
      MatchedUpsert(s, v, model, doc, id, lkey, image, o);
      ReceiptAnswers(v, UpdateEffect(s, Key(model, id), doc, o.write), id, Some(image), false, lkey, doc != map[], o);
    }
  }

  lemma ReceiptAnswers(v: VerbName, e: Effect, id: string, image: Option<Comp>, replay: bool, lkey: LedgerKey,
                       readBack: bool, o: Oracle)
    ensures var out := CuratedReceipt(v, e, id, image, replay, lkey, readBack, o);
            out.effect == e && (out.Halted? ==> out.answer == Crashed)
  {
  }

  lemma CreateWrote(s: Store, v: VerbName, verb: Verb, args: Row, doc: Row, key: string, digest: string -> string,
                    o: Oracle, u: Oracle)
    requires verb.op == CreateOp && u == o.(write := Fine)
    ensures WrotePair(Dispatch(s, v, verb, args, doc, key, digest, o),
                      Dispatch(s, v, verb, args, doc, key, digest, u), o)
  {
    if verb.stamp != "" && o.stampable {
      KeyedWrote(s, v, verb.doctype, verb.stamp, doc, Marker.IdemMarker(key, digest), key, o, u);
    } else {
      PlainWrote(v, verb.doctype, doc, key, o, u);
    }
  }

  lemma PlainWrote(v: VerbName, model: string, doc: Row, key: string, o: Oracle, u: Oracle)
    requires u == o.(write := Fine)
    ensures WrotePair(CommitPlainCreate(v, model, doc, key, o), CommitPlainCreate(v, model, doc, key, u), o)
  {
  }

  lemma KeyedWrote(s: Store, v: VerbName, model: string, field: string, doc: Row, marker: string, key: string,
                   o: Oracle, u: Oracle)
    requires u == o.(write := Fine)
    ensures WrotePair(KeyedCreate(s, v, model, field, doc, marker, key, o),
                      KeyedCreate(s, v, model, field, doc, marker, key, u), o)
  {
    var e, f := KeyedEffect(model, field, doc, marker, o), KeyedEffect(model, field, doc, marker, u);
    var test := CarriesTest(field, marker);
    var first := Probe(s, model, test);
    AskedWrote(v, e, f, key, first, Probe(AfterLost(s, e, o), model, test),
               Probe(AfterLost(s, f, u), model, test), o, u);
  }

  lemma AskedWrote(v: VerbName, e: Effect, f: Effect, key: string, first: Found, second: Found, second': Found,
                   o: Oracle, u: Oracle)
    requires u == o.(write := Fine) && f.Created? && (o.write == ReadBackDown ==> e == f)
             && (o.write == Refused ==> e == NoEffect)
    ensures WrotePair(CommitKeyedCreate(v, e, key, first, second, o),
                      CommitKeyedCreate(v, f, key, first, second', u), o)
  {
  }

  // ---------------------------------------------------------------- one commit among others

  /** Text that cannot be mistaken for a marker. */
  predicate Unbracketed(v: Value) {
    v.Text? ==> '[' !in v.s
  }

  lemma UnbracketedCarriesNothing(row: Row, field: string, body: string)
    requires Unbracketed(Field(row, field))
    ensures !Carries(row, field, Marker.OPEN + body)
  {
    CarriesIsContains(row, field, Marker.OPEN + body);
    if Carries(row, field, Marker.OPEN + body) {
      MarkerNeedsBracket(Field(row, field).s, body);
    }
  }

  lemma MarkerNeedsBracket(t: string, body: string)
    requires Contains(t, Marker.OPEN + body)
    ensures '[' in t
  {
    var i := ContainsWitness(t, Marker.OPEN + body);
    assert t[i..][..|Marker.OPEN + body|][0] == '[';
    assert t[i] in t;
  }

  ghost predicate HexDigest(digest: string -> string) {
    forall k :: Marker.BracketFree(digest(k))
  }

  /** A stamp for one key, over an unbracketed prior, carries only markers with that key's body. */
  lemma StampCarriesOnlyItsOwn(doc: Row, field: string, stamped: string, k1: string, k2: string,
                               digest: string -> string)
    requires HexDigest(digest) && Unbracketed(Field(doc, field)) && stamped != "id"
    requires Carries(Clean(Stamped(doc, stamped, Marker.IdemMarker(k2, digest))), field, Marker.IdemMarker(k1, digest))
    ensures field == stamped && Marker.IdemMarker(k1, digest) == Marker.IdemMarker(k2, digest)
  {
    var m1, m2 := Marker.IdemMarker(k1, digest), Marker.IdemMarker(k2, digest);
    var row := Clean(Stamped(doc, stamped, m2));
    CarriesIsContains(row, field, m1);
    if field != stamped {
      assert Unbracketed(Field(row, field));
      assert m1 == Marker.OPEN + (Marker.KeyBody(k1, digest) + "]");
      UnbracketedCarriesNothing(row, field, Marker.KeyBody(k1, digest) + "]");
    } else {
      var prior := Field(doc, field);
      var text := if Truthy(prior) then Show(prior) else "";
      ShowUnbracketed(prior);
      Marker.MarkerSeparation(text, k1, k2, digest);
    }
  }

  lemma ShowUnbracketed(v: Value)
    requires Unbracketed(v)
    ensures '[' !in Show(v)
  {
  }

  /** The effect writes this marker into this field of this model. */
  predicate Introduces(e: Effect, model: string, field: string, marker: string) {
    match e
    case Created(k, d) => k.model == model && Carries(d, field, marker)
    case Patched(k, p) => k.model == model && field in p && Carries(p, field, marker)
    case _ => false
  }

  lemma NoNewCarrier(s: Store, e: Effect, model: string, field: string, marker: string)
    requires !Introduces(e, model, field, marker)
    ensures Carriers(Apply(s, e), model, field, marker) <= Carriers(s, model, field, marker)
  {
    match e
    case Patched(k, p) =>
      if k in s.rows {
        assert Field(s.rows[k] + p, field) == if field in p then Field(p, field) else Field(s.rows[k], field);
      }
    case _ =>
  }

  /** The document a proposal writes under given answers. */
  function Written(p: Proposal, o: Oracle): Row {
    match p
    case MethodCall(_, _, _, _) => map[]
    case Generic(_, _, _, data, _) => Resolve(data, o)
    case Curated(_, _, native) => Resolve(native, o)
  }

  lemma CopiedIntroducesNothing(e: Effect, doc: Row, model: string, field: string, body: string)
    requires Copies(e, doc) && Unbracketed(Field(doc, field))
    ensures !Introduces(e, model, field, Marker.OPEN + body)
  {
    assert Unbracketed(Field(Clean(doc), field));
    UnbracketedCarriesNothing(Clean(doc), field, body);
  }

  /** A commit that writes a marker into its field is a keyed create of that marker, made while no
      record carried it. */
  lemma IntroducedOnlyOnce(s: Store, pol: Governance.Policy, digest: string -> string, ws: string, p: Proposal,
                           k: string, o: Oracle,
                           model: string, field: string, key: string)
    requires HexDigest(digest) && Unbracketed(Field(Written(p, o), field))
    requires var e := Perform(s, pol, digest, ws, p, k, o).effect;
             Introduces(e, model, field, Marker.IdemMarker(key, digest))
    ensures Perform(s, pol, digest, ws, p, k, o).effect.Created?
    ensures Carriers(s, model, field, Marker.IdemMarker(key, digest)) == {}
  {
    var m := Marker.IdemMarker(key, digest);
    var e := Perform(s, pol, digest, ws, p, k, o).effect;
    var body := Marker.KeyBody(key, digest) + "]";
    assert m == Marker.OPEN + body;
    if Copies(e, Written(p, o)) {
      CopiedIntroducesNothing(e, Written(p, o), model, field, body);
    } else {
      NotCopied(s, pol, digest, ws, p, k, o);
      var verb, doc := Lookup(p.verb), Resolve(p.native, o);
      StampIsNoId(p.verb);
      KeyedIntroduces(s, p.verb, verb.doctype, verb.stamp, doc, Marker.IdemMarker(k, digest), k, o);
      StampCarriesOnlyItsOwn(doc, field, verb.stamp, key, k, digest);
    }
  }

  lemma NotCopied(s: Store, pol: Governance.Policy, digest: string -> string, ws: string, p: Proposal, k: string,
                  o: Oracle)
    requires !Copies(Perform(s, pol, digest, ws, p, k, o).effect, Written(p, o))
    ensures p.Curated? && IsKeyed(p.verb)
    ensures var verb := Lookup(p.verb);
            Perform(s, pol, digest, ws, p, k, o)
            == KeyedCreate(s, p.verb, verb.doctype, verb.stamp, Resolve(p.native, o),
                           Marker.IdemMarker(k, digest), k, o)
  {
  }

  /** A keyed create that has an effect asked first and was told nothing is there. */
  lemma KeyedIntroduces(s: Store, v: VerbName, model: string, field: string, doc: Row, marker: string, key: string,
                        o: Oracle)
    requires KeyedCreate(s, v, model, field, doc, marker, key, o).effect != NoEffect
    ensures KeyedCreate(s, v, model, field, doc, marker, key, o).effect
            == Created(Key(model, o.newId), Clean(Stamped(doc, field, marker)))
    ensures Carriers(s, model, field, marker) == {}
  {
  }

  // ---------------------------------------------------------------- one effect, exactly

  /** The one record an effect can turn into a carrier. */
  function Touched(e: Effect): set<Key> {
    match e
    case Created(k, _) => {k}
    case Patched(k, _) => {k}
    case _ => {}
  }

  /** The effect introduces the marker nowhere, or nowhere but into the record that carries it. */
  ghost predicate SafeEffect(s: Store, e: Effect, model: string, field: string, marker: string) {
    Introduces(e, model, field, marker) ==> Carriers(s, model, field, marker) <= Touched(e)
  }

  lemma IntroducedCarriers(s: Store, e: Effect, model: string, field: string, marker: string)
    requires Introduces(e, model, field, marker) && (e.Patched? ==> e.key in s.rows)
    ensures Carriers(Apply(s, e), model, field, marker) == Carriers(s, model, field, marker) + Touched(e)
  {
    var t := Apply(s, e);
    assert Carries(t.rows[e.key], field, marker) by {
      if e.Patched? {
        assert Field(s.rows[e.key] + e.patch, field) == Field(e.patch, field);
      }
    }
    assert forall j | j in t.rows && j != e.key :: j in s.rows && t.rows[j] == s.rows[j];
  }

  /** Exactly which effects keep at most one carrier. */
  lemma EffectKeepsAtMostOneExactlyWhen(s: Store, e: Effect, model: string, field: string, marker: string)
    requires AtMostOne(s, model, field, marker) && (e.Patched? ==> e.key in s.rows)
    ensures AtMostOne(Apply(s, e), model, field, marker) <==> SafeEffect(s, e, model, field, marker)
  {
    if Introduces(e, model, field, marker) {
      IntroducedCarriers(s, e, model, field, marker);
    } else {
      NoNewCarrier(s, e, model, field, marker);
    }
  }

  /** What a caller can check before a generic write: the row to be written does not carry the marker, or
      no record does but the one it is written onto. A record created anew is none of those there are. */
  ghost predicate RestoreGuard(s: Store, p: Proposal, o: Oracle, model: string, field: string, marker: string) {
    match p
    case Generic(Create, t, _, data, _) =>
      t == model && Carries(Clean(Resolve(data, o)), field, marker) ==> Carriers(s, model, field, marker) == {}
    case Generic(Update, t, id, data, _) =>
      t == model && Carries(Clean(Resolve(data, o)), field, marker) ==>
        Carriers(s, model, field, marker) <= {Key(t, ResolveOr(s.rows, t, id, o.alias))}
    case _ => true
  }

  /** A generic write that has an effect keeps at most one carrier exactly when the guard holds. */
  lemma RestoreIsSafeExactlyWhen(s: Store, p: Proposal, key: string, o: Oracle, model: string, field: string,
                                 marker: string)
    requires p.Generic? && AtMostOne(s, model, field, marker) && CommitGeneric(s, p, key, o).effect != NoEffect
    requires StoreOk(s) && o.newId != "" && forall k | k in s.used :: k.id != o.newId
    ensures AtMostOne(Apply(s, CommitGeneric(s, p, key, o).effect), model, field, marker)
            <==> RestoreGuard(s, p, o, model, field, marker)
  {
    var e := CommitGeneric(s, p, key, o).effect;
    GenericEffect(s, p, key, o);
    EffectKeepsAtMostOneExactlyWhen(s, e, model, field, marker);
    GuardIsSafe(s, p, e, o, model, field, marker);
  }

  lemma GenericEffect(s: Store, p: Proposal, key: string, o: Oracle)
    requires p.Generic? && CommitGeneric(s, p, key, o).effect != NoEffect
    ensures IsGenericEffect(s, p, o, CommitGeneric(s, p, key, o).effect)
  {
  }

  ghost predicate IsGenericEffect(s: Store, p: Proposal, o: Oracle, e: Effect)
    requires p.Generic?
  {
    match p.op
    case Create => e == Created(Key(p.target, o.newId), Clean(Resolve(p.data, o)))
    case Update =>
      e == Patched(Key(p.target, ResolveOr(s.rows, p.target, p.id, o.alias)), Clean(Resolve(p.data, o)))
      && e.key in s.rows
    case Delete => e.Erased?
  }

  lemma GuardIsSafe(s: Store, p: Proposal, e: Effect, o: Oracle, model: string, field: string, marker: string)
    requires p.Generic? && IsGenericEffect(s, p, o, e) && Key(p.target, o.newId) !in s.rows
    ensures SafeEffect(s, e, model, field, marker) <==> RestoreGuard(s, p, o, model, field, marker)
  {
    var row := Clean(Resolve(p.data, o));
    assert Carries(row, field, marker) ==> field in row;
    assert Key(p.target, o.newId) !in Carriers(s, model, field, marker);
  }

  // ---------------------------------------------------------------- runs

  /** What callers and other writers promise: values written by proposals that were asked for are
      unbracketed in the field, and nobody else adds a record that carries the marker. Nothing is
      asked of reversals. */
  ghost predicate CleanStep(w: World, step: Step, model: string, field: string, marker: string) {
    match step
    case DoCommit(_, _, pid, o) =>
      pid in w.memory.proposals && pid in w.hist.origins && w.hist.origins[pid].Granted? ==>
        Unbracketed(Field(Written(w.memory.proposals[pid], o), field))
    case Outside(s) => Carriers(s, model, field, marker) <= Carriers(w.store, model, field, marker)
    case _ => true
  }

  ghost predicate CleanRun(w: World, steps: seq<Step>, model: string, field: string, marker: string)
    decreases |steps|
  {
    steps == []
    || (StepOk(w, steps[0]) && CleanStep(w, steps[0], model, field, marker)
        && CleanRun(Next(w, steps[0]).0, steps[1..], model, field, marker))
  }

  /** If the step commits a reversal and that writes, its guard held. */
  ghost predicate SafeRestore(w: World, step: Step, model: string, field: string, marker: string) {
    && step.DoCommit? && step.key != "" && Named(step.key) !in w.memory.ledger
    && step.pid in w.memory.proposals && step.pid in w.hist.origins && w.hist.origins[step.pid].ReversalOf?
    && Perform(w.store, w.policy, w.digest, step.ws, w.memory.proposals[step.pid], step.key,
               step.oracle).effect != NoEffect
    ==> RestoreGuard(w.store, w.memory.proposals[step.pid], step.oracle, model, field, marker)
  }

  ghost predicate SafeRestores(w: World, steps: seq<Step>, model: string, field: string, marker: string)
    decreases |steps|
  {
    steps == []
    || (SafeRestore(w, steps[0], model, field, marker)
        && SafeRestores(Next(w, steps[0]).0, steps[1..], model, field, marker))
  }

  /** In every state of the run. */
  ghost predicate AtMostOneThroughout(w: World, steps: seq<Step>, model: string, field: string, marker: string)
    decreases |steps|
  {
    AtMostOne(w.store, model, field, marker)
    && (steps == [] || AtMostOneThroughout(Next(w, steps[0]).0, steps[1..], model, field, marker))
  }

  lemma CommitStore(w: World, ws: string, key: string, pid: nat, o: Oracle)
    ensures var v := Commit(w, ws, key, pid, o).0;
            v.store == if key != "" && Named(key) !in w.memory.ledger && pid in w.memory.proposals
                       then Apply(w.store,
                                  Perform(w.store, w.policy, w.digest, ws, w.memory.proposals[pid], key, o).effect)
                       else w.store
    ensures Commit(w, ws, key, pid, o).0.digest == w.digest
  {
  }

  /** One step keeps at most one carrier exactly when it is not the commit of an unsafe reversal. */
  lemma StepKeepsAtMostOneExactlyWhen(w: World, step: Step, model: string, field: string, key: string)
    requires Inv(w) && HexDigest(w.digest) && StepOk(w, step)
    requires CleanStep(w, step, model, field, Marker.IdemMarker(key, w.digest))
    requires AtMostOne(w.store, model, field, Marker.IdemMarker(key, w.digest))
    ensures Next(w, step).0.digest == w.digest
    ensures AtMostOne(Next(w, step).0.store, model, field, Marker.IdemMarker(key, w.digest))
            <==> SafeRestore(w, step, model, field, Marker.IdemMarker(key, w.digest))
  {
    match step
    case DoCommit(ws, k, pid, o) =>
      CommitStore(w, ws, k, pid, o);
      if k != "" && Named(k) !in w.memory.ledger && pid in w.memory.proposals {
        CommitKeepsAtMostOneExactlyWhen(w, ws, k, pid, o, model, field, key);
      }
    case _ =>
  }

  lemma CommitKeepsAtMostOneExactlyWhen(w: World, ws: string, k: string, pid: nat, o: Oracle,
                                        model: string, field: string, key: string)
    requires Inv(w) && HexDigest(w.digest) && StepOk(w, DoCommit(ws, k, pid, o))
    requires CleanStep(w, DoCommit(ws, k, pid, o), model, field, Marker.IdemMarker(key, w.digest))
    requires AtMostOne(w.store, model, field, Marker.IdemMarker(key, w.digest)) && pid in w.memory.proposals
    ensures var p := w.memory.proposals[pid];
            var e := Perform(w.store, w.policy, w.digest, ws, p, k, o).effect;
            var m := Marker.IdemMarker(key, w.digest);
            && pid in w.hist.origins
            && (AtMostOne(Apply(w.store, e), model, field, m)
                <==> (w.hist.origins[pid].ReversalOf? && e != NoEffect
                      ==> RestoreGuard(w.store, p, o, model, field, m)))
  {
    var m := Marker.IdemMarker(key, w.digest);
    var p := w.memory.proposals[pid];
    var e := Perform(w.store, w.policy, w.digest, ws, p, k, o).effect;
    RememberedPerforms(w, ws, k, pid, o);
    EffectKeepsAtMostOneExactlyWhen(w.store, e, model, field, m);
    if w.hist.origins[pid].ReversalOf? {
      ReversalIsSafeExactlyWhen(w, ws, k, pid, o, model, field, m);
    } else if Introduces(e, model, field, m) {
      IntroducedOnlyOnce(w.store, w.policy, w.digest, ws, p, k, o, model, field, key);
    }
  }

  lemma ReversalIsSafeExactlyWhen(w: World, ws: string, k: string, pid: nat, o: Oracle,
                                  model: string, field: string, marker: string)
    requires Inv(w) && StepOk(w, DoCommit(ws, k, pid, o)) && pid in w.memory.proposals
    requires pid in w.hist.origins && w.hist.origins[pid].ReversalOf?
    ensures var p := w.memory.proposals[pid];
            var e := Perform(w.store, w.policy, w.digest, ws, p, k, o).effect;
            SafeEffect(w.store, e, model, field, marker)
            <==> e == NoEffect || RestoreGuard(w.store, p, o, model, field, marker)
  {
    var p := w.memory.proposals[pid];
    var e := Perform(w.store, w.policy, w.digest, ws, p, k, o).effect;
    RememberedPerforms(w, ws, k, pid, o);
    if p.Generic? {
      if e != NoEffect {
        GenericEffect(w.store, p, k, o);
        GuardIsSafe(w.store, p, e, o, model, field, marker);
      }
    } else {
      assert OriginOk(w.hist, pid, w.hist.origins[pid]);
      OtherReversalsWriteNoRow(w.hist.minted[w.hist.origins[pid].token].comp);
    }
  }

  /** A reversal that is not a generic write calls a method or deletes. */
  lemma OtherReversalsWriteNoRow(c: Comp)
    requires UndoProposal(c).UndoAs? && !UndoProposal(c).proposal.Generic?
    ensures var kind := ShapeOf(UndoProposal(c).proposal).kind; kind == Calling || kind == Erasing
  {
    if c.UndoVerb? {
      CompensationIsCommittable(c.verb, c.id);
    }
  }

  /** At most one record per attempt key: over every run of proposals, commits of any verb under any
      keys, rollbacks, policy changes and restarts, with any answers lost, landed late, refused or
      crashed, no state has two records that carry one key's marker, exactly when every committed
      reversal that wrote was guarded: it restored no row with the marker beside another carrier. */
  lemma {:induction false} AtMostOneExactlyWhenRestoresAreSafe(w: World, steps: seq<Step>, model: string, field: string,
                                                               key: string)
    requires Inv(w) && HexDigest(w.digest)
    requires CleanRun(w, steps, model, field, Marker.IdemMarker(key, w.digest))
    requires AtMostOne(w.store, model, field, Marker.IdemMarker(key, w.digest))
    ensures AtMostOneThroughout(w, steps, model, field, Marker.IdemMarker(key, w.digest))
            <==> SafeRestores(w, steps, model, field, Marker.IdemMarker(key, w.digest))
    decreases |steps|
  {
    if steps != [] {
      var v := Next(w, steps[0]).0;
      StepKeepsInv(w, steps[0]);
      StepKeepsAtMostOneExactlyWhen(w, steps[0], model, field, key);
      if SafeRestore(w, steps[0], model, field, Marker.IdemMarker(key, w.digest)) {
        AtMostOneExactlyWhenRestoresAreSafe(v, steps[1..], model, field, key);
      } else {
        assert !AtMostOneThroughout(v, steps[1..], model, field, Marker.IdemMarker(key, w.digest));
      }
    }
  }

  ghost predicate NoReversal(w: World, step: Step) {
    step.DoCommit? && step.pid in w.hist.origins ==> w.hist.origins[step.pid].Granted?
  }

  ghost predicate NoReversals(w: World, steps: seq<Step>)
    decreases |steps|
  {
    steps == [] || (NoReversal(w, steps[0]) && NoReversals(Next(w, steps[0]).0, steps[1..]))
  }

  /** Without committed reversals there is nothing to be unsafe. */
  lemma {:induction false} AtMostOneRecordPerAttempt(w: World, steps: seq<Step>, model: string, field: string,
                                                     key: string)
    requires Inv(w) && HexDigest(w.digest) && NoReversals(w, steps)
    requires CleanRun(w, steps, model, field, Marker.IdemMarker(key, w.digest))
    requires AtMostOne(w.store, model, field, Marker.IdemMarker(key, w.digest))
    ensures AtMostOneThroughout(w, steps, model, field, Marker.IdemMarker(key, w.digest))
  {
    NoReversalIsSafe(w, steps, model, field, Marker.IdemMarker(key, w.digest));
    AtMostOneExactlyWhenRestoresAreSafe(w, steps, model, field, key);
  }

  lemma {:induction false} NoReversalIsSafe(w: World, steps: seq<Step>, model: string, field: string, marker: string)
    requires NoReversals(w, steps)
    ensures SafeRestores(w, steps, model, field, marker)
    decreases |steps|
  {
    if steps != [] {
      NoReversalIsSafe(Next(w, steps[0]).0, steps[1..], model, field, marker);
    }
  }
}
