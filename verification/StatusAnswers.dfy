/** Status by key: what it promises of the next commit, and when the promise is kept. */
module StatusAnswers {
  import opened Text
  import opened Options
  import opened Values
  import opened Domain
  import opened Verbs
  import opened Backend
  import opened Protocol
  import opened Invariants
  import opened AttemptKey
  import RoundTrip
  import Ledger
  import Upsert
  import RestoredTwice
  import Governance
  import Marker

  // ---------------------------------------------------------------- the promise

  /** Exactly the record `k` is new. */
  predicate AddsOne(s: Store, after: Store, k: Key) {
    k !in s.rows && k in after.rows && after.rows - {k} == s.rows
  }

  /** The promise, for a commit that may meet any fault. `executed` with a reference: nothing is
      written, and no other reference is answered. The ambiguous `unknown`: nothing is written, and it
      is not answered `executed`. `not_found`: one record is added or none, and `executed` names it. */
  predicate Kept(st: KeyStatus, s: Store, k: Key, after: Store, a: Answer) {
    match st
    case KeyExecuted(ref) => after == s && (a.Executed? ==> a.receipt.ref == ref)
    case KeyUnknown => after == s && !a.Executed?
    case KeyNotFound =>
      if a.Executed? then AddsOne(s, after, k) && a.receipt.ref == k.id else after == s || AddsOne(s, after, k)
  }

  /** The promise, for a commit whose calls are all answered. */
  ghost predicate Fulfilled(st: KeyStatus, s: Store, v: VerbName, key: string, digest: string -> string, k: Key,
                            after: Store, a: Answer) {
    match st
    case KeyExecuted(ref) => after == s && a.Executed? && a.receipt.ref == ref && a.receipt.replayed
    case KeyUnknown => after == s && a == Refusal(Suspended)
    case KeyNotFound =>
      && AddsOne(s, after, k) && a.Executed? && a.receipt.ref == k.id && !a.receipt.replayed
      && StatusByKey(after, v, key, digest, true, true) == KeyExecuted(k.id)
  }

  /** The guard: this life's ledger does not hold the key, or its receipt names the one record status
      finds; and where status found a record, the commit reads the schema, or fails before its write, or
      its write does not land. */
  predicate Predictable(st: KeyStatus, m: Memory, key: string, pid: nat, o: Oracle) {
    if Named(key) in m.ledger then st == KeyExecuted(m.ledger[Named(key)].ref)
    else
      st == KeyNotFound || pid !in m.proposals || o.stampable || o.resolveDown || !Lands(o.write)
  }

  /** What the next commit of the key is, when memory cannot answer it. */
  lemma CommitIsPerformed(w: World, ws: string, key: string, pid: nat, out: Outcome, o: Oracle)
    requires key != "" && Named(key) !in w.memory.ledger && pid in w.memory.proposals
    requires out == Perform(w.store, w.policy, w.digest, ws, w.memory.proposals[pid], key, o)
    ensures var (after, a) := Commit(w, ws, key, pid, o);
            && after.store == Apply(w.store, out.effect)
            && (if out.Receipted? then a.Executed? && a.receipt.ref == out.ref && a.receipt.replayed == out.replay
                else a == out.answer && !a.Executed?)
  {
    SettledStore(w, DeedOf(w, ws, key, pid, o, out.effect), out);
  }

  lemma SettledStore(w: World, d: Deed, out: Outcome)
    requires d.effect == out.effect
    ensures Settle(w, d, out).0.store == Apply(w.store, out.effect)
    ensures out.Receipted? ==> Settle(w, d, out).1.Executed? && Settle(w, d, out).1.receipt.ref == out.ref
    ensures out.Receipted? ==> Settle(w, d, out).1.receipt.replayed == out.replay
    ensures out.Halted? ==> Settle(w, d, out).1 == out.answer
  {
  }

  // ---------------------------------------------------------------- one commit of a keyed verb

  /** What status finds, as the commit's own probe sees it. */
  ghost function FoundBy(st: KeyStatus): Found {
    match st case KeyExecuted(id) => One(id) case KeyNotFound => Nothing case KeyUnknown => Many
  }

  lemma StatusIsProbe(s: Store, v: VerbName, key: string, digest: string -> string)
    requires IsKeyed(v)
    ensures FoundBy(StatusByKey(s, v, key, digest, true, true))
            == Probe(s, Lookup(v).doctype, CarriesTest(Lookup(v).stamp, Marker.IdemMarker(key, digest)))
  {
  }

  /** The outcome and what it leaves, against the probe. */
  predicate KeptBy(first: Found, k: Key, out: Outcome) {
    match first
    case One(id) => out.effect == NoEffect && (out.Receipted? ==> out.ref == id)
    case Many => out.effect == NoEffect && !out.Receipted?
    case Nothing =>
      && (out.effect == NoEffect || (out.effect.Created? && out.effect.key == k))
      && (out.Receipted? ==> out.effect.Created? && out.ref == k.id)
  }

  lemma AskedIsKept(s: Store, v: VerbName, model: string, field: string, doc: Row, marker: string, key: string,
                    o: Oracle)
    requires StoreOk(s) && forall k | k in s.used :: k.id != o.newId
    ensures KeptBy(Probe(s, model, CarriesTest(field, marker)), Key(model, o.newId),
                   KeyedCreate(s, v, model, field, doc, marker, key, o))
  {
    var test := CarriesTest(field, marker);
    var effect := KeyedEffect(model, field, doc, marker, o);
    var first, second := Probe(s, model, test), Probe(AfterLost(s, effect, o), model, test);
    if first == Nothing && second.One? {
      SecondFindsOwn(s, Key(model, o.newId), effect, test, o);
    }
    AskedTable(v, Key(model, o.newId), effect, key, first, second, o);
  }

  lemma AskedTable(v: VerbName, k: Key, effect: Effect, key: string, first: Found, second: Found, o: Oracle)
    requires effect == NoEffect || (effect.Created? && effect.key == k)
    requires k.id == o.newId && (o.write == Fine ==> effect.Created?)
    requires first == Nothing && second.One? ==> effect.Created? && second.id == k.id
    ensures KeptBy(first, k, CommitKeyedCreate(v, effect, key, first, second, o))
  {
  }

  /** A create without a stamp asks nothing. */
  lemma UnaskedIsKept(first: Found, v: VerbName, model: string, doc: Row, key: string, o: Oracle)
    ensures var out := CommitPlainCreate(v, model, doc, key, o);
            && (KeptBy(first, Key(model, o.newId), out) <==> first == Nothing || !Lands(o.write))
            && (out.effect != NoEffect <==> Lands(o.write))
  {
  }

  lemma KeyedIsKeptExactlyWhen(s: Store, p: Proposal, key: string, digest: string -> string, first: Found, o: Oracle)
    requires StoreOk(s) && (forall k | k in s.used :: k.id != o.newId) && p.Curated? && IsKeyed(p.verb)
    requires first == Probe(s, Lookup(p.verb).doctype,
                            CarriesTest(Lookup(p.verb).stamp, Marker.IdemMarker(key, digest)))
    ensures KeptBy(first, Key(Lookup(p.verb).doctype, o.newId), CommitCurated(s, p, key, digest, o))
            <==> first == Nothing || o.stampable || o.resolveDown || !Lands(o.write)
  {
    var verb, doc := Lookup(p.verb), Resolve(p.native, o);
    if !o.resolveDown {
      if o.stampable {
        AskedIsKept(s, p.verb, verb.doctype, verb.stamp, doc, Marker.IdemMarker(key, digest), key, o);
      } else {
        UnaskedIsKept(first, p.verb, verb.doctype, doc, key, o);
      }
    }
  }

  lemma KeptMeans(st: KeyStatus, s: Store, k: Key, out: Outcome, after: Store, a: Answer)
    requires k !in s.rows && after == Apply(s, out.effect)
    requires out.effect == NoEffect || (out.effect.Created? && out.effect.key == k)
    requires if out.Receipted? then a.Executed? && a.receipt.ref == out.ref else !a.Executed?
    ensures Kept(st, s, k, after, a) <==> KeptBy(FoundBy(st), k, out)
  {
    if out.effect.Created? {
      assert after.rows - {k} == s.rows;
      assert after != s;
    }
  }

  lemma KeyedEffectIsCreate(s: Store, p: Proposal, key: string, digest: string -> string, o: Oracle)
    requires p.Curated? && IsKeyed(p.verb)
    ensures var e := CommitCurated(s, p, key, digest, o).effect;
            e == NoEffect || (e.Created? && e.key == Key(Lookup(p.verb).doctype, o.newId))
  {
  }

  /** Status by key predicts the commit of the key, whatever its calls answer, exactly when the guard
      holds. When its calls are answered, the guarded prediction is fulfilled: `executed` is replayed,
      the ambiguous `unknown` is refused, and `not_found` adds the record status then finds. */
  lemma StatusPredictsCommitExactlyWhen(w: World, ws: string, v: VerbName, key: string, pid: nat, o: Oracle)
    requires key != "" && IsKeyed(v) && StoreOk(w.store) && StepOk(w, DoCommit(ws, key, pid, o))
    requires pid in w.memory.proposals ==> w.memory.proposals[pid].Curated? && w.memory.proposals[pid].verb == v
    ensures var st := StatusByKey(w.store, v, key, w.digest, true, true);
            var k := Key(Lookup(v).doctype, o.newId);
            var (after, a) := Commit(w, ws, key, pid, o);
            Kept(st, w.store, k, after.store, a) <==> Predictable(st, w.memory, key, pid, o)
  {
    if Named(key) !in w.memory.ledger && pid in w.memory.proposals {
      PerformedIsKeptExactlyWhen(w, ws, v, key, pid, o);
    } else {
      GatedIsKeptExactlyWhen(w, ws, v, key, pid, o);
    }
  }

  lemma GatedIsKeptExactlyWhen(w: World, ws: string, v: VerbName, key: string, pid: nat, o: Oracle)
    requires key != "" && IsKeyed(v) && StoreOk(w.store) && StepOk(w, DoCommit(ws, key, pid, o))
    requires Named(key) in w.memory.ledger || pid !in w.memory.proposals
    ensures var st := StatusByKey(w.store, v, key, w.digest, true, true);
            var k := Key(Lookup(v).doctype, o.newId);
            var (after, a) := Commit(w, ws, key, pid, o);
            Kept(st, w.store, k, after.store, a) <==> Predictable(st, w.memory, key, pid, o)
  {
    StatusIsProbe(w.store, v, key, w.digest);
  }

  lemma PerformedIsKeptExactlyWhen(w: World, ws: string, v: VerbName, key: string, pid: nat, o: Oracle)
    requires key != "" && IsKeyed(v) && StoreOk(w.store) && StepOk(w, DoCommit(ws, key, pid, o))
    requires Named(key) !in w.memory.ledger && pid in w.memory.proposals
    requires w.memory.proposals[pid].Curated? && w.memory.proposals[pid].verb == v
    ensures var st := StatusByKey(w.store, v, key, w.digest, true, true);
            var k := Key(Lookup(v).doctype, o.newId);
            var (after, a) := Commit(w, ws, key, pid, o);
            Kept(st, w.store, k, after.store, a) <==> Predictable(st, w.memory, key, pid, o)
  {
    var st := StatusByKey(w.store, v, key, w.digest, true, true);
    StatusIsProbe(w.store, v, key, w.digest);
    var p := w.memory.proposals[pid];
    var out := CommitCurated(w.store, p, key, w.digest, o);
    CommitIsPerformed(w, ws, key, pid, out, o);
    KeyedIsKeptExactlyWhen(w.store, p, key, w.digest, FoundBy(st), o);
    KeyedEffectIsCreate(w.store, p, key, w.digest, o);
    var (after, a) := Commit(w, ws, key, pid, o);
    KeptMeans(st, w.store, Key(Lookup(v).doctype, o.newId), out, after.store, a);
  }

  /** Every call of the commit is answered, the schema read included. */
  predicate AllAnswered(o: Oracle) {
    !o.resolveDown && o.stampable && o.probeUp && o.verifyUp && o.write == Fine
  }

  lemma AnsweredCommitFulfils(w: World, ws: string, key: string, pid: nat, o: Oracle)
    requires key != "" && Named(key) !in w.memory.ledger && pid in w.memory.proposals
    requires StoreOk(w.store) && StepOk(w, DoCommit(ws, key, pid, o)) && AllAnswered(o)
    requires w.memory.proposals[pid].Curated? && IsKeyed(w.memory.proposals[pid].verb)
    ensures var v := w.memory.proposals[pid].verb;
            var (after, a) := Commit(w, ws, key, pid, o);
            Fulfilled(StatusByKey(w.store, v, key, w.digest, true, true), w.store, v, key, w.digest,
                      Key(Lookup(v).doctype, o.newId), after.store, a)
  {
    var p := w.memory.proposals[pid];
    var out := CommitCurated(w.store, p, key, w.digest, o);
    var st := StatusByKey(w.store, p.verb, key, w.digest, true, true);
    StatusIsProbe(w.store, p.verb, key, w.digest);
    CommitIsPerformed(w, ws, key, pid, out, o);
    AnsweredTable(w.store, p, key, w.digest, FoundBy(st), o);
    if st == KeyNotFound {
      KeyedReceiptIsFound(w.store, p.verb, Resolve(p.native, o), key, w.digest, o);
      RoundTrip.ApplyCreated(w.store, out.effect.key, out.effect.doc);
    }
  }

  lemma AnsweredTable(s: Store, p: Proposal, key: string, digest: string -> string, first: Found, o: Oracle)
    requires p.Curated? && IsKeyed(p.verb) && AllAnswered(o)
    requires first == Probe(s, Lookup(p.verb).doctype,
                            CarriesTest(Lookup(p.verb).stamp, Marker.IdemMarker(key, digest)))
    ensures var out := CommitCurated(s, p, key, digest, o);
            var verb := Lookup(p.verb);
            && out == KeyedCreate(s, p.verb, verb.doctype, verb.stamp, Resolve(p.native, o),
                                  Marker.IdemMarker(key, digest), key, o)
            && match first
               case One(id) => out.effect == NoEffect && out.Receipted? && out.ref == id && out.replay
               case Many => out == Stop(NoEffect, Refusal(Suspended))
               case Nothing =>
                 out.effect.Created? && out.effect.key == Key(verb.doctype, o.newId)
                 && out.Receipted? && out.ref == o.newId && !out.replay
  {
  }

  /** After an executed keyed create, status by key finds its record, also in a restarted adapter. */
  lemma ExecutedIsFoundAfterRestart(w: World, ws: string, key: string, pid: nat, o: Oracle)
    requires key != "" && Named(key) !in w.memory.ledger && pid in w.memory.proposals
    requires w.memory.proposals[pid].Curated? && IsKeyed(w.memory.proposals[pid].verb)
    requires o.stampable && !o.resolveDown && StepOk(w, DoCommit(ws, key, pid, o)) && StoreOk(w.store)
    requires Commit(w, ws, key, pid, o).1.Executed?
    ensures var restarted := Commit(w, ws, key, pid, o).0.(memory := EMPTY);
            StatusByKey(restarted.store, w.memory.proposals[pid].verb, key, w.digest, true, true)
            == KeyExecuted(Commit(w, ws, key, pid, o).1.receipt.ref)
  {
    var p := w.memory.proposals[pid];
    var out := CommitCurated(w.store, p, key, w.digest, o);
    CommitIsPerformed(w, ws, key, pid, out, o);
    KeyedReceiptIsFound(w.store, p.verb, Resolve(p.native, o), key, w.digest, o);
  }

  lemma KeyedReceiptIsFound(s: Store, v: VerbName, doc: Row, key: string, digest: string -> string, o: Oracle)
    requires IsKeyed(v) && StoreOk(s) && forall k | k in s.used :: k.id != o.newId
    requires KeyedCreate(s, v, Lookup(v).doctype, Lookup(v).stamp, doc,
                         Marker.IdemMarker(key, digest), key, o).Receipted?
    ensures var out := KeyedCreate(s, v, Lookup(v).doctype, Lookup(v).stamp, doc,
                                   Marker.IdemMarker(key, digest), key, o);
            StatusByKey(Apply(s, out.effect), v, key, digest, true, true) == KeyExecuted(out.ref)
  {
    var verb := Lookup(v);
    var marker := Marker.IdemMarker(key, digest);
    StampIsNoId(v);
    KeyedAnswersAreSound(s, v, verb.doctype, verb.stamp, doc, marker, key, o);
    var out := KeyedCreate(s, v, verb.doctype, verb.stamp, doc, marker, key, o);
    ProbeSingle(Apply(s, out.effect), Key(verb.doctype, out.ref), CarriesTest(verb.stamp, marker));
  }

  lemma ProbeSingle(s: Store, k: Key, p: Row -> bool)
    requires Hits(s, k.model, p) == {k}
    ensures Probe(s, k.model, p) == One(k.id)
  {
    assert k in Hits(s, k.model, p);
    var f := Probe(s, k.model, p);
    assert !f.Many?;
    if f.One? {
      assert Key(k.model, f.id) in Hits(s, k.model, p);
    }
  }

  // ---------------------------------------------------------------- the schema

  /** The marker is only as good as the schema reads. A first attempt landed, however it was answered.
      Status finds it exactly when the schema was read at its commit. The retry creates a second record
      exactly when its write lands and the schema was unread at either commit: unread at the first, its
      probe finds nothing; unread at the second, it does not probe. */
  lemma RetryCreatesAgainExactlyWhen(s: Store, v: VerbName, doc: Row, key: string, digest: string -> string,
                                     o1: Oracle, o2: Oracle)
    requires IsKeyed(v) && StoreOk(s) && Unbracketed(Field(doc, Lookup(v).stamp))
    requires Carriers(s, Lookup(v).doctype, Lookup(v).stamp, Marker.IdemMarker(key, digest)) == {}
    requires Dispatch(s, v, Lookup(v), map[], doc, key, digest, o1).effect != NoEffect
    requires o1.newId != o2.newId
    ensures var e1 := Dispatch(s, v, Lookup(v), map[], doc, key, digest, o1).effect;
            var s1 := Apply(s, e1);
            var e2 := Dispatch(s1, v, Lookup(v), map[], doc, key, digest, o2).effect;
            && e1.Created?
            && StatusByKey(s1, v, key, digest, true, true)
            == (if o1.stampable then KeyExecuted(e1.key.id) else KeyNotFound)
            && (e2 == NoEffect || (e2.Created? && e2.key != e1.key))
            && (e2 != NoEffect <==> Lands(o2.write) && (!o2.stampable || (o2.probeUp && !o1.stampable)))
  {
    var verb := Lookup(v);
    var m := Marker.IdemMarker(key, digest);
    StampIsNoId(v);
    FirstAttempt(s, v, verb, doc, m, key, digest, o1);
    var s1 := Apply(s, Dispatch(s, v, verb, map[], doc, key, digest, o1).effect);
    SecondAttempt(s1, v, verb, doc, m, key, digest, o2);
  }

  lemma FirstAttempt(s: Store, v: VerbName, verb: Verb, doc: Row, m: string, key: string, digest: string -> string,
                     o: Oracle)
    requires verb.op == CreateOp && verb.stamp != "" && verb.stamp != "id" && m == Marker.IdemMarker(key, digest)
    requires Unbracketed(Field(doc, verb.stamp)) && Carriers(s, verb.doctype, verb.stamp, m) == {}
    requires Dispatch(s, v, verb, map[], doc, key, digest, o).effect != NoEffect
    ensures var e := Dispatch(s, v, verb, map[], doc, key, digest, o).effect;
            && e.Created? && e.key == Key(verb.doctype, o.newId)
            && Probe(Apply(s, e), verb.doctype, CarriesTest(verb.stamp, m)) == if o.stampable then One(o.newId)
            else Nothing
  {
    var e := Dispatch(s, v, verb, map[], doc, key, digest, o).effect;
    if o.stampable {
      StampedCarries(doc, verb.stamp, m);
      CreatedAlone(s, e.key, e.doc, verb.stamp, m);
      ProbeSingle(Apply(s, e), e.key, CarriesTest(verb.stamp, m));
    } else {
      var body := Marker.KeyBody(key, digest) + "]";
      assert m == Marker.OPEN + body;
      CopiedIntroducesNothing(e, doc, verb.doctype, verb.stamp, body);
      NoNewCarrier(s, e, verb.doctype, verb.stamp, m);
    }
  }

  lemma SecondAttempt(s: Store, v: VerbName, verb: Verb, doc: Row, m: string, key: string, digest: string -> string,
                      o: Oracle)
    requires verb.op == CreateOp && verb.stamp != "" && m == Marker.IdemMarker(key, digest)
    ensures var e := Dispatch(s, v, verb, map[], doc, key, digest, o).effect;
            && (e == NoEffect || (e.Created? && e.key == Key(verb.doctype, o.newId)))
            && (e != NoEffect
                <==> Lands(o.write)
                     && (!o.stampable || (o.probeUp && Probe(s, verb.doctype, CarriesTest(verb.stamp, m)) == Nothing)))
  {
    if o.stampable {
      var effect := KeyedEffect(verb.doctype, verb.stamp, doc, m, o);
      var test := CarriesTest(verb.stamp, m);
      AskedEffect(v, effect, key, Probe(s, verb.doctype, test), Probe(AfterLost(s, effect, o), verb.doctype, test), o);
    } else {
      UnaskedIsKept(Nothing, v, verb.doctype, doc, key, o);
    }
  }

  lemma AskedEffect(v: VerbName, effect: Effect, key: string, first: Found, second: Found, o: Oracle)
    ensures CommitKeyedCreate(v, effect, key, first, second, o).effect
            == if o.probeUp && first == Nothing then effect else NoEffect
  {
  }

  // ---------------------------------------------------------------- the ledger

  /** The ledger answers for a record that is gone. In any reachable state a stamped create is executed,
      rolled back, and its reversal committed: status by key then finds nothing and promises that a
      commit of the key adds a record, but every commit of it is answered `executed` with the deleted
      record's reference, and writes nothing. */
  lemma UndoneCreateIsStillAnswered(w: World, ws: string, key: string, pid: nat, o: Oracle, w1: World,
                                    ws2: string, key2: string, o2: Oracle, w3: World)
    requires Inv(w) && StepOk(w, DoCommit(ws, key, pid, o)) && RoundTrip.CreatesNow(w, ws, key, pid, o)
    requires w.memory.proposals[pid].Curated? && IsKeyed(w.memory.proposals[pid].verb) && o.stampable
    requires w1 == Commit(w, ws, key, pid, o).0
    requires key2 != "" && Named(key2) !in w1.memory.ledger
    requires !o2.resolveDown && o2.readUp && o2.verifyUp && o2.erase == EraseFine
    requires w3 == Commit(Rollback(w1, w.next).0, ws2, key2, w1.next, o2).0
    ensures Rollback(w1, w.next).1.Proposed? && Rollback(w1, w.next).1.pid == w1.next
    ensures var v := w.memory.proposals[pid].verb;
            && StatusByKey(w3.store, v, key, w.digest, true, true) == KeyNotFound
            && Named(key) in w3.memory.ledger
            && Key(Lookup(v).doctype, w3.memory.ledger[Named(key)].ref) !in w3.store.rows
  {
    var p := w.memory.proposals[pid];
    RoundTrip.CreateThenUndo(w, ws, key, pid, o, w1, ws2, key2, o2);
    NothingCarried(w, ws, p, key, o);
    SameRowsSameStatus(w.store, w3.store, p.verb, key, w.digest);
    StampedCreateIsFiled(w, ws, key, pid, o, w1);
    ReversalKeepsLedger(w1, w.next, ws2, key2, o2, w3);
  }

  lemma NothingCarried(w: World, ws: string, p: Proposal, key: string, o: Oracle)
    requires p.Curated? && IsKeyed(p.verb) && o.stampable
    requires Perform(w.store, w.policy, w.digest, ws, p, key, o).effect.Created?
    ensures StatusByKey(w.store, p.verb, key, w.digest, true, true) == KeyNotFound
  {
  }

  lemma SameRowsSameStatus(s: Store, t: Store, v: VerbName, key: string, digest: string -> string)
    requires s.rows == t.rows && StatusByKey(s, v, key, digest, true, true) == KeyNotFound && IsKeyed(v)
    ensures StatusByKey(t, v, key, digest, true, true) == KeyNotFound
  {
    var test := CarriesTest(Lookup(v).stamp, Marker.IdemMarker(key, digest));
    assert Hits(s, Lookup(v).doctype, test) == Hits(t, Lookup(v).doctype, test);
  }

  lemma StampedCreateIsFiled(w: World, ws: string, key: string, pid: nat, o: Oracle, w1: World)
    requires Inv(w) && StepOk(w, DoCommit(ws, key, pid, o)) && RoundTrip.CreatesNow(w, ws, key, pid, o)
    requires w.memory.proposals[pid].Curated? && IsKeyed(w.memory.proposals[pid].verb)
    requires w1 == Commit(w, ws, key, pid, o).0
    ensures Named(key) in w1.memory.ledger
    ensures Key(Lookup(w.memory.proposals[pid].verb).doctype, w1.memory.ledger[Named(key)].ref) !in w.store.rows
    ensures Inv(w1) && w.next in w1.memory.comps
  {
    var p := w.memory.proposals[pid];
    var out := Perform(w.store, w.policy, w.digest, ws, p, key, o);
    var k := RoundTrip.CreateLeavesToken(w, ws, key, pid, o, [], w1);
    Ledger.SettleLedger(w, DeedOf(w, ws, key, pid, o, out.effect), out);
    RememberedPerforms(w, ws, key, pid, o);
    CommitIsPerformed(w, ws, key, pid, out, o);
    CreatedModel(w, ws, p, key, o, k);
  }

  lemma CreatedModel(w: World, ws: string, p: Proposal, key: string, o: Oracle, k: Key)
    requires p.Curated? && IsKeyed(p.verb)
    requires var out := Perform(w.store, w.policy, w.digest, ws, p, key, o);
             out.Receipted? && out.effect.Created? && out.ref == k.id
    requires k.id == o.newId && (forall j | j in w.store.rows :: j.id != o.newId)
    ensures Key(Lookup(p.verb).doctype, k.id) !in w.store.rows
  {
  }

  lemma ReversalKeepsLedger(w1: World, token: nat, ws: string, key: string, o: Oracle, w3: World)
    requires Inv(w1) && token in w1.memory.comps
    requires w3 == Commit(Rollback(w1, token).0, ws, key, w1.next, o).0
    ensures Ledger.Grows(w1.memory, w3.memory)
  {
    var w2 := Rollback(w1, token).0;
    RoundTrip.RollbackForgetsNothing(w1, token);
    RoundTrip.RollbackStands(w1, token, [], w2);
    Upsert.ReversalIsNoUpsert(w1.memory.comps[token]);
    Ledger.StepGrowsLedger(w2, DoCommit(ws, key, w1.next, o));
  }

  /** Reached on a fresh adapter with the shipped policy: propose an order and commit it under `key`,
      roll it back, commit the reversal. Status by key answers `not_found`; committing the key again is
      answered `executed` with an order that no longer exists. */
  lemma CancelledOrderIsStillExecuted(w: World, ws: string, args: Row, native: Row, a: ProposeOracle,
                                      key: string, o: Oracle, id: string, key2: string, o2: Oracle,
                                      ws': string, pid': nat, o': Oracle)
    requires Initial(w) && w.policy == Governance.SHIPPED && a.exists_ && a.gate.None?
    requires Truthy(Field(args, "partner_id")) && key != "" && key2 != "" && key != key2
    requires RestoredTwice.Answers(o, id) && RestoredTwice.Unused(w.store, id) && RestoredTwice.Answers(o2, o2.newId)
    requires Carriers(w.store, RestoredTwice.ORDER, "origin", Marker.IdemMarker(key, w.digest)) == {}
    ensures var w1 := Propose(w, ws, AskCurated(CreateOrder, args, native), a).0;
            var w2 := Commit(w1, ws, key, w.next, o).0;
            var (w3, back) := Rollback(w2, w1.next);
            var w4 := Commit(w3, ws, key2, w2.next, o2).0;
            && back.Proposed? && back.pid == w2.next
            && StatusByKey(w4.store, CreateOrder, key, w.digest, true, true) == KeyNotFound
            && Named(key) in w4.memory.ledger
            && Key(RestoredTwice.ORDER, w4.memory.ledger[Named(key)].ref) !in w4.store.rows
            && Commit(w4, ws', key, pid', o') == (w4, Executed(w4.memory.ledger[Named(key)].(replayed := true)))
  {
    var w1 := RestoredTwice.OrderProposed(w, ws, args, native, a);
    InitialInv(w);
    ProposeKeepsInv(w, ws, AskCurated(CreateOrder, args, native), a);
    var w2 := Commit(w1, ws, key, w.next, o).0;
    OrderCancelled(w1, ws, args, native, key, w.next, o, id, w2, key2, o2,
                   Commit(Rollback(w2, w1.next).0, ws, key2, w2.next, o2).0);
  }

  lemma OrderCancelled(w1: World, ws: string, args: Row, native: Row, key: string, pid: nat, o: Oracle, id: string,
                       w2: World, key2: string, o2: Oracle, w4: World)
    requires Inv(w1) && w1.memory == EMPTY.(proposals := map[pid := Curated(CreateOrder, args, native)])
    requires key != "" && key2 != "" && key != key2
    requires RestoredTwice.Answers(o, id) && RestoredTwice.Unused(w1.store, id) && RestoredTwice.Answers(o2, o2.newId)
    requires Carriers(w1.store, RestoredTwice.ORDER, "origin", Marker.IdemMarker(key, w1.digest)) == {}
    requires w2 == Commit(w1, ws, key, pid, o).0 && w4 == Commit(Rollback(w2, w1.next).0, ws, key2, w2.next, o2).0
    ensures Rollback(w2, w1.next).1.Proposed? && Rollback(w2, w1.next).1.pid == w2.next
    ensures StatusByKey(w4.store, CreateOrder, key, w1.digest, true, true) == KeyNotFound
    ensures Named(key) in w4.memory.ledger
    ensures Key(RestoredTwice.ORDER, w4.memory.ledger[Named(key)].ref) !in w4.store.rows
  {
    OrderCreatesNow(w1, ws, args, native, key, pid, o, id);
    OnlyThisKey(w1, ws, key, pid, o);
    UndoneCreateIsStillAnswered(w1, ws, key, pid, o, w2, ws, key2, o2, w4);
  }

  lemma OrderCreatesNow(w: World, ws: string, args: Row, native: Row, key: string, pid: nat, o: Oracle, id: string)
    requires w.memory == EMPTY.(proposals := map[pid := Curated(CreateOrder, args, native)])
    requires key != "" && RestoredTwice.Answers(o, id)
    requires Carriers(w.store, RestoredTwice.ORDER, "origin", Marker.IdemMarker(key, w.digest)) == {}
    ensures RoundTrip.CreatesNow(w, ws, key, pid, o)
  {
    var m := Marker.IdemMarker(key, w.digest);
    RestoredTwice.OrderDispatch(w.store, w.policy, w.digest, ws, Curated(CreateOrder, args, native), key, m, o);
    RestoredTwice.OrderKeyed(w.store, Resolve(native, o), key, m, o, id);
  }

  lemma OnlyThisKey(w: World, ws: string, key: string, pid: nat, o: Oracle)
    requires w.memory.ledger == map[] && key != "" && pid in w.memory.proposals && !IsUpsert(w.memory.proposals[pid])
    ensures Commit(w, ws, key, pid, o).0.memory.ledger.Keys <= {Named(key)}
  {
    var out := Perform(w.store, w.policy, w.digest, ws, w.memory.proposals[pid], key, o);
    Ledger.SettleLedger(w, DeedOf(w, ws, key, pid, o, out.effect), out);
  }
}
