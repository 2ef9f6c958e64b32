/** How a commit ends: its answer and whether it wrote, read off the proposal, the store and what each
    backend call met. */
module Endings {
  import opened Options
  import opened Values
  import opened Governance
  import opened Verbs
  import opened Backend
  import opened Protocol
  import opened Invariants
  import opened AttemptKey
  import Marker

  /** The id stands for this record: its own, or the one the environment took it to mean. */
  predicate Stands(rows: map<Key, Row>, model: string, raw: string, alias: Option<string>, id: string) {
    && raw != "" && Key(model, id) in rows
    && (id == raw || (Key(model, raw) !in rows && alias == Some(id)))
  }

  ghost predicate Known(rows: map<Key, Row>, model: string, raw: string, alias: Option<string>) {
    exists id :: Stands(rows, model, raw, alias, id)
  }

  lemma StandsIsResolved(rows: map<Key, Row>, model: string, raw: string, alias: Option<string>)
    ensures forall id :: Stands(rows, model, raw, alias, id) <==> ResolveId(rows, model, raw, alias) == Some(id)
    ensures Known(rows, model, raw, alias) <==> ResolveId(rows, model, raw, alias).Some?
  {
    var r := ResolveId(rows, model, raw, alias);
    if r.Some? {
      assert Stands(rows, model, raw, alias, r.value);
    }
  }

  // ---------------------------------------------------------------- the write

  /** A generic update whose record no longer holds the values bound at PROPOSE. */
  ghost predicate Drifted(s: Store, p: Proposal, o: Oracle) {
    && p.Generic? && p.op == Update && p.bound.Some? && !o.resolveDown && o.readUp
    && exists id ::
      Stands(s.rows, p.target, p.id, o.alias, id) && !Holds(p.bound.value, s.rows[Key(p.target, id)], p.data)
  }

  /** A create that has somewhere to put its attempt key. */
  predicate AsksFirst(p: Proposal, o: Oracle) {
    p.Curated? && IsKeyed(p.verb) && o.stampable && !o.resolveDown
  }

  /** The records that carry this commit's marker. */
  ghost function Carrying(s: Store, p: Proposal, key: string, digest: string -> string): set<Key>
    requires p.Curated?
  {
    Carriers(s, Lookup(p.verb).doctype, Lookup(p.verb).stamp, Marker.IdemMarker(key, digest))
  }

  /** The commit gets as far as sending its write. */
  ghost predicate Reached(s: Store, p: Proposal, key: string, digest: string -> string, o: Oracle) {
    match p
    case MethodCall(_, _, _, _) => o.readUp
    case Generic(op, model, raw, _, _) =>
      !o.resolveDown && (op != Create ==> o.readUp && Known(s.rows, model, raw, o.alias)) && !Drifted(s, p, o)
    case Curated(v, args, native) =>
      && !o.resolveDown
      && match Lookup(v).op
         case UpsertOp =>
           var found := UpsertProbes(s, v, Lookup(v), args, Resolve(native, o), key, o);
           found.NoMatch? || (found.Match? && o.readUp)
         case CreateOp => AsksFirst(p, o) ==> o.probeUp && Carrying(s, p, key, digest) == {}
         case _ => o.readUp
  }

  /** Odoo refused the write: by a fault, in reading it back, or because the record is not there. */
  ghost predicate WasRefused(s: Store, p: Proposal, o: Oracle) {
    var q := ShapeOf(p);
    match q.kind
    case Calling => o.call == CallRefused
    case Erasing => o.erase == EraseRefused
    case Patching =>
      o.write == Refused || o.write == ReadBackDown || (o.write == Fine && !Known(s.rows, q.model, q.raw, o.alias))
    case _ => o.write == Refused || o.write == ReadBackDown
  }

  predicate WasLost(p: Proposal, o: Oracle) {
    match ShapeOf(p).kind
    case Calling => o.call.CallLost?
    case Erasing => o.erase.EraseLost?
    case _ => o.write.Lost?
  }

  /** The write took effect, answered or not. */
  ghost predicate Took(s: Store, p: Proposal, o: Oracle) {
    var q := ShapeOf(p);
    match q.kind
    case Calling => o.call == CallFine || o.call == CallLost(true)
    case Erasing => o.erase == EraseFine || o.erase == EraseLost(true)
    case Patching => Goes(o.write) && Known(s.rows, q.model, q.raw, o.alias)
    case _ => Goes(o.write)
  }

  predicate Goes(f: WriteFault) {
    f == Fine || f == ReadBackDown || f == Lost(true)
  }

  /** The lost create is found by asking again. */
  predicate FoundAgain(p: Proposal, o: Oracle) {
    AsksFirst(p, o) && o.write == Lost(true) && o.reprobeUp && o.landed
  }

  /** A curated delete that was accepted, and whose record is still there to be seen. */
  ghost predicate LeftStanding(s: Store, p: Proposal, o: Oracle) {
    && p.Curated? && Lookup(p.verb).op == DeleteOp && o.erase == EraseIgnored && o.verifyUp
    && Known(s.rows, Lookup(p.verb).doctype, TargetArg(Lookup(p.verb), p.args), o.alias)
  }

  /** The commit comes as far as its receipt: the write was answered, or the ask-first probe settled it. */
  ghost predicate Settled(s: Store, p: Proposal, key: string, digest: string -> string, o: Oracle) {
    || (Reached(s, p, key, digest, o) && !WasRefused(s, p, o) && (WasLost(p, o) ==> FoundAgain(p, o))
        && !LeftStanding(s, p, o))
    || (AsksFirst(p, o) && o.probeUp && exists k :: Carrying(s, p, key, digest) == {k})
  }

  /** A settled commit reads back what it wrote: every one that writes fields, every delete, no method. */
  predicate Rereads(p: Proposal, o: Oracle) {
    match p
    case MethodCall(_, _, _, _) => false
    case Generic(_, _, _, _, _) => true
    case Curated(v, _, native) =>
      Lookup(v).op == DeleteOp || AsksFirst(p, o) || (Lookup(v).op != MethodOp && native != map[])
  }

  // ---------------------------------------------------------------- the answers

  predicate Ends(out: Outcome, a: Answer) {
    out.Halted? && out.answer == a
  }

  /** Two records carry the marker already. */
  ghost predicate Doubled(s: Store, p: Proposal, key: string, digest: string -> string)
    requires p.Curated?
  {
    exists a, b :: a in Carrying(s, p, key, digest) && b in Carrying(s, p, key, digest) && a != b
  }

  /** Every answer, exactly when it is given. `failed_terminal`: the write was refused, or was not reached
      and no refusal is owed for that, or a delete left its record. Suspended: the answer was lost and
      asking again did not find the create, or two records carry the key already. */
  ghost predicate EndsAsSaid(s: Store, p: Proposal, key: string, digest: string -> string, o: Oracle, out: Outcome) {
    var reached, settled := Reached(s, p, key, digest, o), Settled(s, p, key, digest, o);
    var unread := Rereads(p, o) && !o.verifyUp;
    && (Ends(out, FailedTerminal) <==>
          (!reached && !AsksFirst(p, o) && !Drifted(s, p, o))
          || (reached && (WasRefused(s, p, o) || LeftStanding(s, p, o))))
    && (Ends(out, Refusal(Suspended)) <==>
          (reached && WasLost(p, o) && !FoundAgain(p, o))
          || (AsksFirst(p, o) && o.probeUp && Doubled(s, p, key, digest)))
    && (Ends(out, Refusal(UpstreamUnavailable)) <==> AsksFirst(p, o) && !o.probeUp)
    && (Ends(out, Refusal(PreconditionFailed)) <==> Drifted(s, p, o))
    && (Ends(out, Crashed) <==> settled && unread)
    && (out.Receipted? <==> settled && !unread)
    && (out.Halted? ==> out.answer == FailedTerminal || out.answer == Crashed
                        || (out.answer.Refusal?
                            && out.answer.code in {Suspended, UpstreamUnavailable, PreconditionFailed}))
  }

  /** Every commit, of any proposal, ends as said. */
  lemma AnsweredExactlyWhen(s: Store, pol: Policy, digest: string -> string, ws: string, p: Proposal, key: string,
                            o: Oracle)
    requires StoreOk(s) && o.newId != "" && forall k | k in s.used :: k.id != o.newId
    ensures EndsAsSaid(s, p, key, digest, o, Perform(s, pol, digest, ws, p, key, o))
  {
    match p
    case MethodCall(_, _, _, _) =>
    case Generic(_, _, _, _, _) => GenericEnds(s, p, key, digest, o);
    case Curated(v, args, native) => CuratedEnds(s, p, key, digest, o);
  }

  lemma GenericEnds(s: Store, p: Proposal, key: string, digest: string -> string, o: Oracle)
    requires p.Generic?
    ensures EndsAsSaid(s, p, key, digest, o, CommitGeneric(s, p, key, o))
  {
    if p.op == Create {
      GenericCreateEnds(s, p, key, digest, o);
    } else if p.op == Update {
      GenericUpdateEnds(s, p, key, digest, o);
    } else {
      GenericDeleteEnds(s, p, key, digest, o);
    }
  }

  lemma GenericCreateEnds(s: Store, p: Proposal, key: string, digest: string -> string, o: Oracle)
    requires p.Generic? && p.op == Create
    ensures EndsAsSaid(s, p, key, digest, o, CommitGeneric(s, p, key, o))
  {
  }

  lemma GenericDeleteEnds(s: Store, p: Proposal, key: string, digest: string -> string, o: Oracle)
    requires p.Generic? && p.op == Delete
    ensures EndsAsSaid(s, p, key, digest, o, CommitGeneric(s, p, key, o))
  {
    StandsIsResolved(s.rows, p.target, p.id, o.alias);
  }

  lemma GenericUpdateEnds(s: Store, p: Proposal, key: string, digest: string -> string, o: Oracle)
    requires p.Generic? && p.op == Update
    ensures EndsAsSaid(s, p, key, digest, o, CommitGeneric(s, p, key, o))
  {
    StandsIsResolved(s.rows, p.target, p.id, o.alias);
    DriftIsSeen(s, p, o);
  }

  /** The comparison of the snapshots sees exactly the drift. */
  lemma DriftIsSeen(s: Store, p: Proposal, o: Oracle)
    requires p.Generic? && p.op == Update
    ensures var id := ResolveId(s.rows, p.target, p.id, o.alias);
            Drifted(s, p, o)
            <==> !o.resolveDown && o.readUp && id.Some? && p.bound.Some?
                 && p.bound.value != Snapshot(RowAt(s.rows, Key(p.target, id.value)), Resolve(p.data, o))
  {
    StandsIsResolved(s.rows, p.target, p.id, o.alias);
    var id := ResolveId(s.rows, p.target, p.id, o.alias);
    if id.Some? && p.bound.Some? {
      var row := s.rows[Key(p.target, id.value)];
      assert Holds(p.bound.value, row, p.data) <==> p.bound.value == Snapshot(row, Resolve(p.data, o));
    }
  }

  lemma CuratedEnds(s: Store, p: Proposal, key: string, digest: string -> string, o: Oracle)
    requires p.Curated? && StoreOk(s) && o.newId != "" && forall k | k in s.used :: k.id != o.newId
    ensures EndsAsSaid(s, p, key, digest, o, CommitCurated(s, p, key, digest, o))
  {
    var verb := Lookup(p.verb);
    if o.resolveDown {
    } else {
      match verb.op {
        case DeleteOp => DeleteEnds(s, p, key, digest, o);
        case UpdateOp => UpdateEnds(s, p, key, digest, o);
        case MethodOp => ActionEnds(s, p, key, digest, o);
        case UpsertOp => UpsertEnds(s, p, key, digest, o);
        case CreateOp =>
          if AsksFirst(p, o) {
            KeyedEnds(s, p, key, digest, o);
          } else {
            PlainEnds(s, p, key, digest, o);
          }
      }
    }
  }

  lemma DeleteEnds(s: Store, p: Proposal, key: string, digest: string -> string, o: Oracle)
    requires p.Curated? && Lookup(p.verb).op == DeleteOp && StoreOk(s) && !o.resolveDown
    ensures EndsAsSaid(s, p, key, digest, o,
                       CommitDelete(s, p.verb, Lookup(p.verb).doctype, TargetArg(Lookup(p.verb), p.args), key, o))
  {
    StandsIsResolved(s.rows, Lookup(p.verb).doctype, TargetArg(Lookup(p.verb), p.args), o.alias);
  }

  lemma UpdateEnds(s: Store, p: Proposal, key: string, digest: string -> string, o: Oracle)
    requires p.Curated? && Lookup(p.verb).op == UpdateOp && StoreOk(s) && !o.resolveDown
    ensures EndsAsSaid(s, p, key, digest, o,
                       CommitUpdate(s, p.verb, Lookup(p.verb).doctype, TargetArg(Lookup(p.verb), p.args),
                                    Resolve(p.native, o), key, o))
  {
    var model, raw := Lookup(p.verb).doctype, TargetArg(Lookup(p.verb), p.args);
    StandsIsResolved(s.rows, model, raw, o.alias);
    var id := ResolveOr(s.rows, model, raw, o.alias);
    assert Known(s.rows, model, raw, o.alias) <==> Key(model, id) in s.rows;
    assert Key(model, id) in s.rows ==> id != "";
    assert Resolve(p.native, o) == map[] <==> p.native == map[] by {
      assert Resolve(p.native, o).Keys == p.native.Keys;
    }
  }

  lemma ActionEnds(s: Store, p: Proposal, key: string, digest: string -> string, o: Oracle)
    requires p.Curated? && Lookup(p.verb).op == MethodOp && !o.resolveDown
    ensures EndsAsSaid(s, p, key, digest, o,
                       CommitAction(s, p.verb, Lookup(p.verb), TargetArg(Lookup(p.verb), p.args), key, o))
  {
  }

  lemma UpsertEnds(s: Store, p: Proposal, key: string, digest: string -> string, o: Oracle)
    requires IsUpsert(p) && StoreOk(s) && !o.resolveDown
    ensures var doc := Resolve(p.native, o);
            EndsAsSaid(s, p, key, digest, o,
                       CommitUpsert(s, p.verb, Lookup(p.verb).doctype, doc,
                                    UpsertProbes(s, p.verb, Lookup(p.verb), p.args, doc, key, o), o))
  {
    var verb, doc := Lookup(p.verb), Resolve(p.native, o);
    var found := UpsertProbes(s, p.verb, verb, p.args, doc, key, o);
    if found.Match? {
      KeysFromFinds(s, verb.doctype, ProbeKeys(p.verb, p.args), doc, o.downProbes, 0, Named(key));
    }
  }

  lemma PlainEnds(s: Store, p: Proposal, key: string, digest: string -> string, o: Oracle)
    requires p.Curated? && Lookup(p.verb).op == CreateOp && !AsksFirst(p, o) && !o.resolveDown
    ensures EndsAsSaid(s, p, key, digest, o,
                       CommitPlainCreate(p.verb, Lookup(p.verb).doctype, Resolve(p.native, o), key, o))
  {
  }

  lemma KeyedEnds(s: Store, p: Proposal, key: string, digest: string -> string, o: Oracle)
    requires AsksFirst(p, o) && StoreOk(s) && forall k | k in s.used :: k.id != o.newId
    ensures var verb := Lookup(p.verb);
            EndsAsSaid(s, p, key, digest, o,
                       KeyedCreate(s, p.verb, verb.doctype, verb.stamp, Resolve(p.native, o),
                                   Marker.IdemMarker(key, digest), key, o))
  {
    var verb, doc, marker := Lookup(p.verb), Resolve(p.native, o), Marker.IdemMarker(key, digest);
    var test := CarriesTest(verb.stamp, marker);
    var effect := KeyedEffect(verb.doctype, verb.stamp, doc, marker, o);
    var first, second := Probe(s, verb.doctype, test), Probe(AfterLost(s, effect, o), verb.doctype, test);
    FirstSees(s, p, key, digest, first);
    if first == Nothing {
      SecondSees(s, verb.doctype, verb.stamp, doc, marker, o, effect);
    }
    AskedEnds(s, p, key, digest, effect, first, second, o);
  }

  lemma FirstSees(s: Store, p: Proposal, key: string, digest: string -> string, first: Found)
    requires p.Curated?
    requires first == Probe(s, Lookup(p.verb).doctype,
                            CarriesTest(Lookup(p.verb).stamp, Marker.IdemMarker(key, digest)))
    ensures first == Nothing <==> Carrying(s, p, key, digest) == {}
    ensures first.One? <==> exists k :: Carrying(s, p, key, digest) == {k}
    ensures first == Many <==> Doubled(s, p, key, digest)
  {
    if first.One? {
      assert Carrying(s, p, key, digest) == {Key(Lookup(p.verb).doctype, first.id)};
    }
  }

  /** After a lost answer the second probe finds exactly a create that has landed by then. */
  lemma SecondSees(s: Store, model: string, field: string, doc: Row, marker: string, o: Oracle, e: Effect)
    requires e == KeyedEffect(model, field, doc, marker, o) && field != "id"
    requires Carriers(s, model, field, marker) == {} && Key(model, o.newId) !in s.rows
    ensures Probe(AfterLost(s, e, o), model, CarriesTest(field, marker))
            == if o.landed && Goes(o.write) then One(o.newId) else Nothing
  {
    StampedCarries(doc, field, marker);
    if o.landed && Goes(o.write) {
      CreatedAlone(s, Key(model, o.newId), e.doc, field, marker);
    }
  }

  lemma AskedEnds(s: Store, p: Proposal, key: string, digest: string -> string, effect: Effect, first: Found,
                  second: Found, o: Oracle)
    requires AsksFirst(p, o)
    requires first == Nothing <==> Carrying(s, p, key, digest) == {}
    requires first.One? <==> exists k :: Carrying(s, p, key, digest) == {k}
    requires first == Many <==> Doubled(s, p, key, digest)
    requires first == Nothing ==> (second.One? <==> o.landed && Goes(o.write))
    ensures EndsAsSaid(s, p, key, digest, o, CommitKeyedCreate(p.verb, effect, key, first, second, o))
  {
  }

  // ---------------------------------------------------------------- what is written

  /** The document a proposal carries. */
  function Proposes(p: Proposal): Row {
    match p
    case MethodCall(_, _, _, _) => map[]
    case Generic(_, _, _, data, _) => data
    case Curated(_, _, native) => native
  }

  /** The value a field of it is to be written with: what the live schema made of it, or as it is. */
  function Term(p: Proposal, o: Oracle, f: string): Value {
    if f !in Proposes(p) then Null else if f in o.resolved then o.resolved[f] else Proposes(p)[f]
  }

  /** The row has the field exactly when it is proposed with a value, and then that value. The id is
      never written. */
  predicate HasTerm(row: Row, p: Proposal, o: Oracle, f: string) {
    if f == "id" || Term(p, o, f) == Null then f !in row else f in row && row[f] == Term(p, o, f)
  }

  /** The written row: field by field what is proposed, and in the stamp field of a create that asks
      first the commit's marker, behind the value the caller gave for it. */
  ghost predicate IsWritten(row: Row, p: Proposal, key: string, digest: string -> string, o: Oracle) {
    if AsksFirst(p, o) then
      var stamp := Lookup(p.verb).stamp;
      var prior, marker := Term(p, o, stamp), Marker.IdemMarker(key, digest);
      && stamp in row && row[stamp] == Text(if Truthy(prior) then Show(prior) + " " + marker else marker)
      && forall f | f != stamp :: HasTerm(row, p, o, f)
    else
      forall f :: HasTerm(row, p, o, f)
  }

  /** The record a delete, update or call is aimed at: the one its id stands for, else the id itself. */
  ghost predicate Aims(s: Store, p: Proposal, o: Oracle, k: Key) {
    var q := ShapeOf(p);
    && k.model == q.model
    && (Stands(s.rows, q.model, q.raw, o.alias, k.id)
        || (!Known(s.rows, q.model, q.raw, o.alias) && k.id == q.raw))
  }

  ghost predicate ProbesFind(s: Store, p: Proposal, key: string, o: Oracle, id: Option<string>)
    requires IsUpsert(p)
  {
    match UpsertProbes(s, p.verb, Lookup(p.verb), p.args, Resolve(p.native, o), key, o)
    case Stuck => false
    case NoMatch(_) => id == None
    case Match(found, _) => id == Some(found)
  }

  /** A commit writes exactly when its write is reached and takes effect, and then this. */
  ghost predicate WritesAsSaid(s: Store, p: Proposal, key: string, digest: string -> string, o: Oracle, e: Effect) {
    var q := ShapeOf(p);
    && (e != NoEffect <==> Reached(s, p, key, digest, o) && Took(s, p, o))
    && match e
       case NoEffect => true
       case Created(k, row) =>
         && (q.kind == Creating || (IsUpsert(p) && ProbesFind(s, p, key, o, None)))
         && k == Key(q.model, o.newId) && IsWritten(row, p, key, digest, o)
       case Patched(k, row) =>
         && k in s.rows && IsWritten(row, p, key, digest, o)
         && ((q.kind == Patching && Aims(s, p, o, k))
             || (IsUpsert(p) && k.model == q.model && ProbesFind(s, p, key, o, Some(k.id))))
       case Erased(k) => q.kind == Erasing && Aims(s, p, o, k)
       case Called(call) => q.kind == Calling && call.action == q.action && Aims(s, p, o, Key(call.model, call.id))
  }

  lemma WritesExactlyWhen(s: Store, pol: Policy, digest: string -> string, ws: string, p: Proposal, key: string,
                          o: Oracle)
    requires StoreOk(s)
    ensures WritesAsSaid(s, p, key, digest, o, Perform(s, pol, digest, ws, p, key, o).effect)
  {
    var q := ShapeOf(p);
    StandsIsResolved(s.rows, q.model, q.raw, o.alias);
    match p
    case MethodCall(_, _, _, _) =>
    case Generic(_, _, _, _, _) => GenericWrites(s, p, key, digest, o);
    case Curated(v, args, native) => CuratedWrites(s, p, key, digest, o);
  }

  lemma CleanIsWritten(p: Proposal, key: string, digest: string -> string, o: Oracle)
    requires !p.MethodCall? && !AsksFirst(p, o)
    ensures IsWritten(Clean(Resolve(Proposes(p), o)), p, key, digest, o)
  {
    var doc := Resolve(Proposes(p), o);
    forall f ensures HasTerm(Clean(doc), p, o, f) {
      assert f in doc <==> f in Proposes(p);
    }
  }

  lemma StampedIsWritten(p: Proposal, key: string, digest: string -> string, o: Oracle)
    requires AsksFirst(p, o)
    ensures var doc := Stamped(Resolve(p.native, o), Lookup(p.verb).stamp, Marker.IdemMarker(key, digest));
            IsWritten(Clean(doc), p, key, digest, o)
  {
    var stamp, marker := Lookup(p.verb).stamp, Marker.IdemMarker(key, digest);
    StampIsNoId(p.verb);
    var prior := Field(Resolve(p.native, o), stamp);
    assert prior == Term(p, o, stamp);
    if Truthy(prior) {
      TruthyShows(prior);
    }
    var doc := Stamped(Resolve(p.native, o), stamp, marker);
    forall f | f != stamp ensures HasTerm(Clean(doc), p, o, f) {
      assert f in doc <==> f in p.native;
    }
  }

  lemma GenericWrites(s: Store, p: Proposal, key: string, digest: string -> string, o: Oracle)
    requires p.Generic?
    ensures WritesAsSaid(s, p, key, digest, o, CommitGeneric(s, p, key, o).effect)
  {
    StandsIsResolved(s.rows, p.target, p.id, o.alias);
    CleanIsWritten(p, key, digest, o);
    if p.op == Update {
      DriftIsSeen(s, p, o);
    }
  }

  lemma CuratedWrites(s: Store, p: Proposal, key: string, digest: string -> string, o: Oracle)
    requires p.Curated? && StoreOk(s)
    ensures WritesAsSaid(s, p, key, digest, o, CommitCurated(s, p, key, digest, o).effect)
  {
    if o.resolveDown {
    } else if AsksFirst(p, o) {
      KeyedWrites(s, p, key, digest, o);
    } else {
      match Lookup(p.verb).op {
        case UpdateOp => UpdateWrites(s, p, key, digest, o);
        case UpsertOp => UpsertWritesAsSaid(s, p, key, digest, o);
        case DeleteOp => DeleteWrites(s, p, key, digest, o);
        case MethodOp => ActionWrites(s, p, key, digest, o);
        case CreateOp => PlainWrites(s, p, key, digest, o);
      }
    }
  }

  lemma DeleteWrites(s: Store, p: Proposal, key: string, digest: string -> string, o: Oracle)
    requires p.Curated? && Lookup(p.verb).op == DeleteOp && !o.resolveDown
    ensures var verb := Lookup(p.verb);
            WritesAsSaid(s, p, key, digest, o,
                         CommitDelete(s, p.verb, verb.doctype, TargetArg(verb, p.args), key, o).effect)
  {
    StandsIsResolved(s.rows, Lookup(p.verb).doctype, TargetArg(Lookup(p.verb), p.args), o.alias);
  }

  lemma ActionWrites(s: Store, p: Proposal, key: string, digest: string -> string, o: Oracle)
    requires p.Curated? && Lookup(p.verb).op == MethodOp && !o.resolveDown
    ensures var verb := Lookup(p.verb);
            WritesAsSaid(s, p, key, digest, o,
                         CommitAction(s, p.verb, verb, TargetArg(verb, p.args), key, o).effect)
  {
    StandsIsResolved(s.rows, Lookup(p.verb).doctype, TargetArg(Lookup(p.verb), p.args), o.alias);
  }

  lemma PlainWrites(s: Store, p: Proposal, key: string, digest: string -> string, o: Oracle)
    requires p.Curated? && Lookup(p.verb).op == CreateOp && !o.resolveDown && !AsksFirst(p, o)
    ensures WritesAsSaid(s, p, key, digest, o,
                         CommitPlainCreate(p.verb, Lookup(p.verb).doctype, Resolve(p.native, o), key, o).effect)
  {
    CleanIsWritten(p, key, digest, o);
  }

  lemma UpdateWrites(s: Store, p: Proposal, key: string, digest: string -> string, o: Oracle)
    requires p.Curated? && Lookup(p.verb).op == UpdateOp && !o.resolveDown && StoreOk(s)
    ensures WritesAsSaid(s, p, key, digest, o,
                         CommitUpdate(s, p.verb, Lookup(p.verb).doctype, TargetArg(Lookup(p.verb), p.args),
                                      Resolve(p.native, o), key, o).effect)
  {
    var model, raw := Lookup(p.verb).doctype, TargetArg(Lookup(p.verb), p.args);
    StandsIsResolved(s.rows, model, raw, o.alias);
    assert Known(s.rows, model, raw, o.alias) <==> Key(model, ResolveOr(s.rows, model, raw, o.alias)) in s.rows;
    CleanIsWritten(p, key, digest, o);
  }

  lemma UpsertWritesAsSaid(s: Store, p: Proposal, key: string, digest: string -> string, o: Oracle)
    requires IsUpsert(p) && !o.resolveDown && StoreOk(s)
    ensures var doc := Resolve(p.native, o);
            WritesAsSaid(s, p, key, digest, o,
                         CommitUpsert(s, p.verb, Lookup(p.verb).doctype, doc,
                                      UpsertProbes(s, p.verb, Lookup(p.verb), p.args, doc, key, o), o).effect)
  {
    var verb, doc := Lookup(p.verb), Resolve(p.native, o);
    CleanIsWritten(p, key, digest, o);
    if UpsertProbes(s, p.verb, verb, p.args, doc, key, o).Match? {
      KeysFromFinds(s, verb.doctype, ProbeKeys(p.verb, p.args), doc, o.downProbes, 0, Named(key));
    }
  }

  lemma KeyedWrites(s: Store, p: Proposal, key: string, digest: string -> string, o: Oracle)
    requires AsksFirst(p, o)
    ensures var verb := Lookup(p.verb);
            WritesAsSaid(s, p, key, digest, o,
                         KeyedCreate(s, p.verb, verb.doctype, verb.stamp, Resolve(p.native, o),
                                     Marker.IdemMarker(key, digest), key, o).effect)
  {
    var verb, doc, marker := Lookup(p.verb), Resolve(p.native, o), Marker.IdemMarker(key, digest);
    var test := CarriesTest(verb.stamp, marker);
    FirstSees(s, p, key, digest, Probe(s, verb.doctype, test));
    StampedIsWritten(p, key, digest, o);
  }

  // ---------------------------------------------------------------- what the receipt says

  /** An effect or answer of this proposal can be undone: by a declared inverse, a verb of the reversal
      table, or a before-image. */
  ghost predicate Reversible(p: Proposal, pol: Policy, ws: string, e: Effect) {
    match p
    case MethodCall(model, _, action, _) => MethodReverse(pol, model, action, ws) != ""
    case Generic(_, _, _, _, _) => true
    case Curated(v, _, _) =>
      || Compensations(v).UndoBy?
      || (Lookup(v).op == UpdateOp && Compensations(v) == BeforeImage)
      || (Lookup(v).op == UpsertOp && e.Patched?)
      || (Lookup(v).op == MethodOp && Lookup(v).reverse != "")
  }

  /** A receipt names the record written, or the one found to carry the key, or the one an ignored delete
      left or never met. It says `replayed` exactly when the record was found by asking. A token is minted
      exactly for what is reversible and answered; a generic write gets it even if its reading back fails. */
  ghost predicate ReceiptAsSaid(s: Store, p: Proposal, pol: Policy, ws: string, key: string, digest: string -> string,
                                o: Oracle, out: Outcome) {
    && (out.Receipted? ==>
          && (match out.effect
              case Created(k, _) => out.ref == k.id
              case Patched(k, _) => out.ref == k.id
              case Erased(k) => out.ref == k.id
              case Called(call) => out.ref == call.id
              case NoEffect =>
                if AsksFirst(p, o) then Carrying(s, p, key, digest) == {Key(ShapeOf(p).model, out.ref)}
                else ShapeOf(p).kind == Erasing && Aims(s, p, o, Key(ShapeOf(p).model, out.ref)))
          && (out.replay <==> AsksFirst(p, o) && (out.effect == NoEffect || o.write.Lost?)))
    && (CompOf(out).Some? <==>
          Reversible(p, pol, ws, out.effect) && (out.Receipted? || (p.Generic? && Ends(out, Crashed))))
  }

  lemma ReceiptSays(s: Store, pol: Policy, digest: string -> string, ws: string, p: Proposal, key: string, o: Oracle)
    requires StoreOk(s) && o.newId != "" && forall k | k in s.used :: k.id != o.newId
    ensures ReceiptAsSaid(s, p, pol, ws, key, digest, o, Perform(s, pol, digest, ws, p, key, o))
  {
    var q := ShapeOf(p);
    StandsIsResolved(s.rows, q.model, q.raw, o.alias);
    match p
    case MethodCall(_, _, _, _) =>
    case Generic(_, _, _, _, _) => GenericReceipt(s, pol, digest, ws, p, key, o);
    case Curated(v, args, native) =>
      if o.resolveDown {
      } else if AsksFirst(p, o) {
        KeyedReceipt(s, pol, digest, ws, p, key, o);
      } else {
        VerbReceipt(s, pol, digest, ws, p, key, o);
      }
  }

  lemma GenericReceipt(s: Store, pol: Policy, digest: string -> string, ws: string, p: Proposal, key: string, o: Oracle)
    requires p.Generic?
    ensures ReceiptAsSaid(s, p, pol, ws, key, digest, o, CommitGeneric(s, p, key, o))
  {
    StandsIsResolved(s.rows, p.target, p.id, o.alias);
  }

  lemma KeyedReceipt(s: Store, pol: Policy, digest: string -> string, ws: string, p: Proposal, key: string, o: Oracle)
    requires AsksFirst(p, o) && StoreOk(s) && forall k | k in s.used :: k.id != o.newId
    ensures var verb := Lookup(p.verb);
            ReceiptAsSaid(s, p, pol, ws, key, digest, o,
                          KeyedCreate(s, p.verb, verb.doctype, verb.stamp, Resolve(p.native, o),
                                      Marker.IdemMarker(key, digest), key, o))
  {
    var verb, doc, marker := Lookup(p.verb), Resolve(p.native, o), Marker.IdemMarker(key, digest);
    StampIsNoId(p.verb);
    KeyedAnswersAreSound(s, p.verb, verb.doctype, verb.stamp, doc, marker, key, o);
    KeyedToken(s, p.verb, verb.doctype, verb.stamp, doc, marker, key, o);
  }

  predicate NewAndToken(out: Outcome, v: VerbName, o: Oracle) {
    && (out.Receipted? && out.effect != NoEffect ==>
          out.effect.Created? && out.ref == o.newId && out.effect.key.id == o.newId)
    && (CompOf(out).Some? <==> out.Receipted? && Compensations(v).UndoBy?)
  }

  lemma KeyedToken(s: Store, v: VerbName, model: string, field: string, doc: Row, marker: string, key: string,
                   o: Oracle)
    requires StoreOk(s) && field != "id" && forall k | k in s.used :: k.id != o.newId
    ensures NewAndToken(KeyedCreate(s, v, model, field, doc, marker, key, o), v, o)
  {
    var effect := KeyedEffect(model, field, doc, marker, o);
    var first := Probe(s, model, CarriesTest(field, marker));
    var second := Probe(AfterLost(s, effect, o), model, CarriesTest(field, marker));
    if first == Nothing {
      SecondSees(s, model, field, doc, marker, o, effect);
    }
    AskedToken(v, effect, key, first, second, o);
  }

  /** The table of the ask-first answers, as far as ids and tokens go. */
  lemma AskedToken(v: VerbName, effect: Effect, key: string, first: Found, second: Found, o: Oracle)
    requires effect != NoEffect ==> effect.Created? && effect.key.id == o.newId
    requires first == Nothing && second.One? ==> second.id == o.newId
    ensures NewAndToken(CommitKeyedCreate(v, effect, key, first, second, o), v, o)
  {
  }


  lemma VerbReceipt(s: Store, pol: Policy, digest: string -> string, ws: string, p: Proposal, key: string, o: Oracle)
    requires p.Curated? && StoreOk(s) && !o.resolveDown && !AsksFirst(p, o)
    ensures ReceiptAsSaid(s, p, pol, ws, key, digest, o, CommitCurated(s, p, key, digest, o))
  {
    match Lookup(p.verb).op
    case DeleteOp => DeleteReceipt(s, pol, digest, ws, p, key, o);
    case UpdateOp => UpdateReceipt(s, pol, digest, ws, p, key, o);
    case MethodOp => ActionReceipt(s, pol, digest, ws, p, key, o);
    case UpsertOp => UpsertReceipt(s, pol, digest, ws, p, key, o);
    case CreateOp => PlainReceipt(s, pol, digest, ws, p, key, o);
  }

  lemma DeleteReceipt(s: Store, pol: Policy, digest: string -> string, ws: string, p: Proposal, key: string, o: Oracle)
    requires p.Curated? && Lookup(p.verb).op == DeleteOp
    ensures var verb := Lookup(p.verb);
            ReceiptAsSaid(s, p, pol, ws, key, digest, o,
                          CommitDelete(s, p.verb, verb.doctype, TargetArg(verb, p.args), key, o))
  {
    StandsIsResolved(s.rows, Lookup(p.verb).doctype, TargetArg(Lookup(p.verb), p.args), o.alias);
    OnlyCreatesAreUndoneByVerbs(p.verb);
  }

  lemma UpdateReceipt(s: Store, pol: Policy, digest: string -> string, ws: string, p: Proposal, key: string, o: Oracle)
    requires p.Curated? && Lookup(p.verb).op == UpdateOp
    ensures var verb := Lookup(p.verb);
            ReceiptAsSaid(s, p, pol, ws, key, digest, o,
                          CommitUpdate(s, p.verb, verb.doctype, TargetArg(verb, p.args), Resolve(p.native, o), key, o))
  {
    OnlyCreatesAreUndoneByVerbs(p.verb);
  }

  lemma ActionReceipt(s: Store, pol: Policy, digest: string -> string, ws: string, p: Proposal, key: string, o: Oracle)
    requires p.Curated? && Lookup(p.verb).op == MethodOp
    ensures var verb := Lookup(p.verb);
            ReceiptAsSaid(s, p, pol, ws, key, digest, o,
                          CommitAction(s, p.verb, verb, TargetArg(verb, p.args), key, o))
  {
    OnlyCreatesAreUndoneByVerbs(p.verb);
  }

  lemma PlainReceipt(s: Store, pol: Policy, digest: string -> string, ws: string, p: Proposal, key: string, o: Oracle)
    requires p.Curated? && Lookup(p.verb).op == CreateOp && !AsksFirst(p, o)
    ensures ReceiptAsSaid(s, p, pol, ws, key, digest, o,
                          CommitPlainCreate(p.verb, Lookup(p.verb).doctype, Resolve(p.native, o), key, o))
  {
  }

  lemma UpsertReceipt(s: Store, pol: Policy, digest: string -> string, ws: string, p: Proposal, key: string, o: Oracle)
    requires IsUpsert(p)
    ensures var doc := Resolve(p.native, o);
            ReceiptAsSaid(s, p, pol, ws, key, digest, o,
                          CommitUpsert(s, p.verb, Lookup(p.verb).doctype, doc,
                                       UpsertProbes(s, p.verb, Lookup(p.verb), p.args, doc, key, o), o))
  {
    ReversalLaws(p.verb);
  }

  // ---------------------------------------------------------------- the store afterwards

  /** What an effect leaves: one new record, one record with some fields set, one record less, or one more
      call. Everything else stays. */
  ghost predicate Left(s: Store, t: Store, e: Effect) {
    match e
    case NoEffect => t == s
    case Created(k, row) =>
      t.rows.Keys == s.rows.Keys + {k} && t.rows[k] == row && t.used == s.used + {k} && t.calls == s.calls
      && forall j | j in s.rows && j != k :: t.rows[j] == s.rows[j]
    case Patched(k, row) =>
      t.rows.Keys == s.rows.Keys && t.used == s.used && t.calls == s.calls
      && (forall j | j in s.rows && j != k :: t.rows[j] == s.rows[j])
      && (k in s.rows ==> forall f :: Field(t.rows[k], f) == if f in row then row[f] else Field(s.rows[k], f))
    case Erased(k) =>
      t.rows.Keys == s.rows.Keys - {k} && t.used == s.used && t.calls == s.calls
      && forall j | j in t.rows :: t.rows[j] == s.rows[j]
    case Called(call) => t.rows == s.rows && t.used == s.used && t.calls == s.calls + [call]
  }

  /** A commit that is not answered beforehand leaves the store as its write leaves it. */
  lemma CommitLeaves(w: World, ws: string, key: string, pid: nat, o: Oracle)
    requires StoreOk(w.store) && StepOk(w, DoCommit(ws, key, pid, o))
    requires key != "" && Named(key) !in w.memory.ledger && pid in w.memory.proposals
    ensures var p := w.memory.proposals[pid];
            exists e :: WritesAsSaid(w.store, p, key, w.digest, o, e)
                        && Left(w.store, Commit(w, ws, key, pid, o).0.store, e)
  {
    var p := w.memory.proposals[pid];
    var out := Perform(w.store, w.policy, w.digest, ws, p, key, o);
    WritesExactlyWhen(w.store, w.policy, w.digest, ws, p, key, o);
    SettledStore(w, DeedOf(w, ws, key, pid, o, out.effect), out);
    assert Left(w.store, Commit(w, ws, key, pid, o).0.store, out.effect);
  }

  lemma SettledStore(w: World, d: Deed, out: Outcome)
    requires d.effect == out.effect
    ensures Left(w.store, Settle(w, d, out).0.store, out.effect)
  {
    assert Settle(w, d, out).0.store == Apply(w.store, out.effect);
    ApplyLeaves(w.store, out.effect);
  }

  lemma ApplyLeaves(s: Store, e: Effect)
    ensures Left(s, Apply(s, e), e)
  {
  }
}
