/** What holds in every reachable state: where proposals, tokens and effects come from. */
module Invariants {
  import opened Text
  import opened Options
  import opened Values
  import opened Domain
  import opened Governance
  import opened Verbs
  import opened Backend
  import opened Protocol
  import Marker

  // ---------------------------------------------------------------- one commit

  datatype Kind = Creating | Patching | Upserting | Erasing | Calling

  /** What a proposal may do: to which model, to the record it names or the one its keys find, with
      which document, method and stamp. */
  datatype Shape = Shape(
    kind: Kind, model: string, verb: Option<VerbName>,
    raw: string, doc: Row, keys: seq<DedupKey>, stamp: string,
    action: string, reverse: string, tier: string)

  function OpKind(op: Op): Kind {
    match op
    case CreateOp => Creating
    case UpdateOp => Patching
    case UpsertOp => Upserting
    case DeleteOp => Erasing
    case MethodOp => Calling
  }

  function GenericKind(op: WriteOp): Kind {
    match op case Create => Creating case Update => Patching case Delete => Erasing
  }

  function ShapeOf(p: Proposal): Shape {
    match p
    case MethodCall(t, id, a, tier) => Shape(Calling, t, None, id, map[], [], "", a, "", tier)
    case Generic(op, t, id, data, _) => Shape(GenericKind(op), t, None, id, data, [], "", "", "", "")
    case Curated(v, args, native) => VerbShape(v, Lookup(v), args, native)
  }

  function VerbShape(v: VerbName, verb: Verb, args: Row, native: Row): Shape {
    Shape(OpKind(verb.op), verb.doctype, Some(v), TargetArg(verb, args), native, ProbeKeys(v, args),
          if verb.op == CreateOp then verb.stamp else "", verb.action, verb.reverse, verb.tier)
  }

  /** The record a proposal names: its id when a record has it or none is meant by it, else the record
      the environment took it to stand for. */
  predicate Names(p: Shape, c: Scene, id: string) {
    if p.raw != "" && Key(p.model, p.raw) !in c.rows && c.alias.Some? && Key(p.model, c.alias.value) in c.rows then
      id == c.alias.value
    else
      id == p.raw
  }

  /** The marker of the commit's key. */
  function MarkOf(c: Scene): string {
    Marker.IdemMarker(c.key, c.digest)
  }

  /** The document as it is written: human terms resolved. */
  function Final(p: Shape, c: Scene): Row {
    ResolveWith(p.doc, c.resolved)
  }

  /** What a field is to be set to: the proposed value, or what the live schema made of it. */
  function Meant(p: Shape, c: Scene, f: string): Value {
    if f !in p.doc then Null else if f in c.resolved then c.resolved[f] else p.doc[f]
  }

  /** The row holds exactly the proposed fields that are set, but for the id. */
  ghost predicate Writes(p: Shape, c: Scene, row: Row) {
    forall f {:trigger f in row} {:trigger Meant(p, c, f)} ::
      (f in row <==> f != "id" && Meant(p, c, f) != Null) && (f in row ==> row[f] == Meant(p, c, f))
  }

  /** The same, and in the stamp field the commit's own marker, behind a reference the caller gave. */
  ghost predicate WritesStamped(p: Shape, c: Scene, row: Row) {
    && p.stamp in row
    && (var prior := Meant(p, c, p.stamp);
        row[p.stamp] == Text(if Truthy(prior) then Show(prior) + " " + MarkOf(c) else MarkOf(c)))
    && forall f {:trigger f in row} {:trigger Meant(p, c, f)} ::
         f != p.stamp ==>
           (f in row <==> f != "id" && Meant(p, c, f) != Null) && (f in row ==> row[f] == Meant(p, c, f))
  }

  lemma CleanWrites(p: Shape, c: Scene, row: Row)
    ensures row == Clean(Final(p, c)) <==> Writes(p, c, row)
  {
    assert forall f :: Meant(p, c, f) == Field(Final(p, c), f);
    if Writes(p, c, row) {
      assert forall f :: f in row <==> f in Clean(Final(p, c));
      assert row == Clean(Final(p, c));
    }
  }

  lemma StampedWrites(p: Shape, c: Scene)
    requires p.stamp != "id"
    ensures WritesStamped(p, c, Clean(Stamped(Final(p, c), p.stamp, MarkOf(c))))
  {
    var prior := Field(Final(p, c), p.stamp);
    assert prior == Meant(p, c, p.stamp);
    if Truthy(prior) {
      TruthyShows(prior);
    }
    var row := Clean(Stamped(Final(p, c), p.stamp, MarkOf(c)));
    forall f | f != p.stamp
      ensures (f in row <==> f != "id" && Meant(p, c, f) != Null) && (f in row ==> row[f] == Meant(p, c, f))
    {
      assert Meant(p, c, f) == Field(Final(p, c), f);
    }
  }

  lemma TruthyShows(v: Value)
    requires Truthy(v)
    ensures Show(v) != ""
  {
  }

  /** A deduplication key of the proposal finds this record. */
  ghost predicate Matched(p: Shape, c: Scene, k: Key) {
    exists dk | dk in p.keys ::
      ProbeDomain(dk, Final(p, c)).Some? && DomainTest(ProbeDomain(dk, Final(p, c)).value)(RowAt(c.rows, k))
  }

  /** The effect is of the kind the proposal names, on the record it names or finds, and writes the
      document it proposes: resolved, and stamped with the commit's own marker. */
  ghost predicate Fits(p: Shape, c: Scene, e: Effect) {
    match e
    case NoEffect => true
    case Created(k, row) =>
      && (p.kind == Creating || p.kind == Upserting) && k.model == p.model
      && if p.stamp != "" && c.stampable then WritesStamped(p, c, row) else Writes(p, c, row)
    case Patched(k, patch) =>
      && k.model == p.model && k in c.rows && Writes(p, c, patch)
      && ((p.kind == Patching && Names(p, c, k.id)) || (p.kind == Upserting && Matched(p, c, k)))
    case Erased(k) => p.kind == Erasing && k.model == p.model && Names(p, c, k.id)
    case Called(call) => p.kind == Calling && call.model == p.model && call.action == p.action && Names(p, c, call.id)
  }

  /** A create takes the new id, a patch meets an existing record. */
  ghost predicate Placed(s: Store, newId: string, e: Effect) {
    match e
    case Created(k, _) => k.id == newId
    case Patched(k, _) => k in s.rows
    case _ => true
  }

  /** The inverse of the called method: a verb's own, or the one its grant declares at the time. */
  function InverseOf(p: Shape, c: Scene): string {
    if p.verb.Some? then p.reverse else MethodReverse(c.policy, p.model, p.action, c.workspace)
  }

  /** An image of a row: the document's fields with the row's values, unset where the row has none. */
  ghost predicate Holds(image: Row, row: Row, doc: Row) {
    && image.Keys == doc.Keys
    && forall f | f in image :: image[f] == if f in row then row[f] else Null
  }

  /** The reversal is of the very record the effect touched, and restores what was there: it calls the
      declared inverse, deletes what was created, writes back the fields that were patched (the whole
      record for a generic update) or creates the erased record anew. Without an effect of its own, a
      token is minted for the record an earlier attempt stamped, or for a delete that removed nothing. */
  ghost predicate Undoes(p: Shape, c: Scene, e: Effect, comp: Comp) {
    match comp
    case UndoMethod(t, id, action, tier) =>
      && e == Called(Call(t, id, p.action)) && id != "" && action != ""
      && action == InverseOf(p, c) && tier == p.tier
    case UndoGeneric(Create, t, id, data) =>
      && p.verb.None? && p.kind == Erasing && t == p.model && id == ""
      && exists k ::
        k in c.rows && k.model == t && Names(p, c, k.id) && (e == Erased(k) || e == NoEffect) && data == c.rows[k]
    case UndoGeneric(Update, t, id, data) =>
      && e.Patched? && e.key == Key(t, id) && id != "" && e.key in c.rows
      && if p.verb.None? then data == c.rows[e.key] else Holds(data, c.rows[e.key], p.doc)
    case UndoGeneric(Delete, t, id, data) =>
      p.verb.None? && e.Created? && e.key == Key(t, id) && id != "" && data == map[]
    case UndoVerb(v, id) =>
      && p.verb == Some(v) && Compensations(v).UndoBy? && id != ""
      && ((e.Created? && e.key == Key(p.model, id))
          || (e == NoEffect && Key(p.model, id) in c.rows && p.stamp != ""
              && Carries(c.rows[Key(p.model, id)], p.stamp, MarkOf(c))))
  }

  function CompOf(out: Outcome): Option<Comp> {
    match out
    case Receipted(_, _, comp, _, _) => comp
    case Halted(_, _, minted) => minted
  }

  ghost predicate OutcomeOk(s: Store, p: Shape, c: Scene, newId: string, out: Outcome) {
    && Fits(p, c, out.effect) && Placed(s, newId, out.effect)
    && (CompOf(out).Some? ==> Undoes(p, c, out.effect, CompOf(out).value))
  }

  /** The scene is the one this commit met. */
  predicate Met(c: Scene, s: Store, o: Oracle) {
    c.rows == s.rows && c.resolved == o.resolved && c.alias == o.alias && c.stampable == o.stampable
  }

  lemma ProbeFinds(s: Store, model: string, p: Row -> bool)
    requires StoreOk(s) && Probe(s, model, p).One?
    ensures var k := Key(model, Probe(s, model, p).id); k in s.rows && k.id != "" && p(s.rows[k])
  {
    var k := Key(model, Probe(s, model, p).id);
    assert k in Hits(s, model, p);
  }

  lemma KeysFromFinds(s: Store, model: string, keys: seq<DedupKey>, doc: Row, down: set<nat>, i: nat, lkey: LedgerKey)
    requires StoreOk(s) && ProbeKeysFrom(s, model, keys, doc, down, i, lkey).Match?
    ensures var k := Key(model, ProbeKeysFrom(s, model, keys, doc, down, i, lkey).id);
            && k in s.rows && k.id != ""
            && exists dk | dk in keys :: ProbeDomain(dk, doc).Some? && DomainTest(ProbeDomain(dk, doc).value)(s.rows[k])
    decreases |keys| - i
  {
    if ProbeDomain(keys[i], doc).Some? && Probe(s, model, DomainTest(ProbeDomain(keys[i], doc).value)).One? {
      ProbeFinds(s, model, DomainTest(ProbeDomain(keys[i], doc).value));
      assert keys[i] in keys;
    } else {
      KeysFromFinds(s, model, keys, doc, down, i + 1, LedgerKeyOf(keys[i]));
    }
  }

  /** After a lost create, a probe that now finds one record has found that create. */
  lemma ReprobeFindsOwn(s: Store, k: Key, doc: Row, p: Row -> bool)
    requires Probe(s, k.model, p) == Nothing && k !in s.rows
    requires Probe(Apply(s, Created(k, doc)), k.model, p).One?
    ensures Probe(Apply(s, Created(k, doc)), k.model, p).id == k.id && p(doc)
  {
    var t := Apply(s, Created(k, doc));
    var j := Key(k.model, Probe(t, k.model, p).id);
    assert j in Hits(t, k.model, p);
    assert j != k ==> j in Hits(s, k.model, p);
  }

  lemma PlainFits(p: Shape, c: Scene, k: Key, doc: Row, o: Oracle)
    requires (p.kind == Creating || p.kind == Upserting) && k.model == p.model && doc == Final(p, c)
    requires p.stamp == "" || !c.stampable
    ensures Fits(p, c, CreateEffect(k, doc, o.write))
  {
    CleanWrites(p, c, Clean(doc));
  }

  lemma KeyedFits(p: Shape, c: Scene, doc: Row, o: Oracle)
    requires p.kind == Creating && doc == Final(p, c) && p.stamp != "" && p.stamp != "id" && c.stampable
    ensures Fits(p, c, KeyedEffect(p.model, p.stamp, doc, MarkOf(c), o))
  {
    StampedWrites(p, c);
  }

  lemma PatchFits(s: Store, p: Shape, c: Scene, k: Key, doc: Row, o: Oracle)
    requires k.model == p.model && c.rows == s.rows && doc == Final(p, c)
    requires k in s.rows ==> (p.kind == Patching && Names(p, c, k.id)) || (p.kind == Upserting && Matched(p, c, k))
    ensures Fits(p, c, UpdateEffect(s, k, doc, o.write))
  {
    CleanWrites(p, c, Clean(doc));
  }

  lemma FailedOk(s: Store, p: Shape, c: Scene, newId: string, e: Effect, r: Reply)
    requires Fits(p, c, e) && Placed(s, newId, e)
    ensures OutcomeOk(s, p, c, newId, Failed(e, r))
  {
  }

  lemma StopOk(s: Store, p: Shape, c: Scene, newId: string, e: Effect, a: Answer)
    requires Fits(p, c, e) && Placed(s, newId, e)
    ensures OutcomeOk(s, p, c, newId, Stop(e, a))
  {
  }

  lemma ReceiptOk(s: Store, p: Shape, c: Scene, v: VerbName, newId: string, e: Effect, id: string, image: Option<Comp>,
                  replay: bool, lkey: LedgerKey, readBack: bool, o: Oracle)
    requires p.verb == Some(v) && Fits(p, c, e) && Placed(s, newId, e)
    requires image.Some? ==> Undoes(p, c, e, image.value)
    requires image.None? && Compensations(v).UndoBy? ==> Undoes(p, c, e, UndoVerb(v, id))
    ensures OutcomeOk(s, p, c, newId, CuratedReceipt(v, e, id, image, replay, lkey, readBack, o))
  {
  }

  lemma KeyedAnswersOk(s: Store, p: Shape, c: Scene, v: VerbName, effect: Effect, key: string, first: Found,
                       second: Found, o: Oracle)
    requires p.kind == Creating && p.verb == Some(v) && o.newId != "" && p.stamp != "" && c.rows == s.rows
    requires Fits(p, c, effect) && (effect == NoEffect || (effect.Created? && effect.key == Key(p.model, o.newId)))
    requires Backend.Lands(o.write) <==> effect.Created?
    requires first.One?
             ==> first.id != "" && Key(p.model, first.id) in s.rows
                 && Carries(s.rows[Key(p.model, first.id)], p.stamp, MarkOf(c))
    requires first == Nothing && second.One? ==> effect.Created? && second.id == o.newId
    ensures OutcomeOk(s, p, c, o.newId, CommitKeyedCreate(v, effect, key, first, second, o))
  {
    if !o.probeUp {
      StopOk(s, p, c, o.newId, NoEffect, Refusal(UpstreamUnavailable));
    } else if first == Many {
      StopOk(s, p, c, o.newId, NoEffect, Refusal(Suspended));
    } else if first.One? {
      ReceiptOk(s, p, c, v, o.newId, NoEffect, first.id, None, true, Named(key), true, o);
    } else {
      KeyedWriteOk(s, p, c, v, effect, key, second, o);
    }
  }

  lemma KeyedWriteOk(s: Store, p: Shape, c: Scene, v: VerbName, effect: Effect, key: string, second: Found, o: Oracle)
    requires p.kind == Creating && p.verb == Some(v) && o.newId != "" && o.probeUp
    requires Fits(p, c, effect) && (effect == NoEffect || (effect.Created? && effect.key == Key(p.model, o.newId)))
    requires Backend.Lands(o.write) <==> effect.Created?
    requires second.One? ==> effect.Created? && second.id == o.newId
    ensures OutcomeOk(s, p, c, o.newId, CommitKeyedCreate(v, effect, key, Nothing, second, o))
  {
    if o.write == Fine {
      ReceiptOk(s, p, c, v, o.newId, effect, o.newId, None, false, Named(key), true, o);
    } else if !o.write.Lost? {
      StopOk(s, p, c, o.newId, effect, FailedTerminal);
    } else if o.reprobeUp && second.One? {
      ReceiptOk(s, p, c, v, o.newId, effect, second.id, None, true, Named(key), true, o);
    } else {
      StopOk(s, p, c, o.newId, effect, Refusal(Suspended));
    }
  }

  lemma KeyedCreateOk(s: Store, p: Shape, c: Scene, v: VerbName, doc: Row, key: string, o: Oracle)
    requires StoreOk(s) && p.kind == Creating && p.verb == Some(v) && p.stamp != "" && Met(c, s, o)
             && doc == Final(p, c)
    requires o.newId != "" && p.stamp != "id" && o.stampable && forall k | k in s.used :: k.id != o.newId
    ensures OutcomeOk(s, p, c, o.newId, KeyedCreate(s, v, p.model, p.stamp, doc, MarkOf(c), key, o))
  {
    var test := CarriesTest(p.stamp, MarkOf(c));
    var k := Key(p.model, o.newId);
    var effect := KeyedEffect(p.model, p.stamp, doc, MarkOf(c), o);
    var first, second := Probe(s, p.model, test), Probe(AfterLost(s, effect, o), p.model, test);
    KeyedFits(p, c, doc, o);
    if first.One? {
      ProbeFinds(s, p.model, test);
    }
    if first == Nothing && second.One? {
      SecondFindsOwn(s, k, effect, test, o);
    }
    KeyedAnswersOk(s, p, c, v, effect, key, first, second, o);
  }

  lemma SecondFindsOwn(s: Store, k: Key, effect: Effect, p: Row -> bool, o: Oracle)
    requires effect == NoEffect || (effect.Created? && effect.key == k)
    requires k !in s.rows && Probe(s, k.model, p) == Nothing && Probe(AfterLost(s, effect, o), k.model, p).One?
    ensures effect.Created? && Probe(AfterLost(s, effect, o), k.model, p).id == k.id && p(effect.doc)
  {
    if o.landed && effect.Created? {
      ReprobeFindsOwn(s, k, effect.doc, p);
    }
  }

  lemma UpsertOk(s: Store, p: Shape, c: Scene, v: VerbName, doc: Row, found: Probed, o: Oracle)
    requires p.kind == Upserting && p.stamp == "" && p.verb == Some(v) && o.newId != "" && Met(c, s, o)
             && doc == Final(p, c)
    requires found.Match? ==> found.id != "" && Matched(p, c, Key(p.model, found.id))
    ensures OutcomeOk(s, p, c, o.newId, CommitUpsert(s, v, p.model, doc, found, o))
  {
    match found
    case Stuck => StopOk(s, p, c, o.newId, NoEffect, FailedTerminal);
    case NoMatch(lkey) =>
      var e := CreateEffect(Key(p.model, o.newId), doc, o.write);
      PlainFits(p, c, Key(p.model, o.newId), doc, o);
      if o.write == Fine {
        ReceiptOk(s, p, c, v, o.newId, e, o.newId, None, false, lkey, doc != map[], o);
      } else {
        FailedOk(s, p, c, o.newId, e, WriteReply(o.write));
      }
    case Match(id, lkey) =>
      var k := Key(p.model, id);
      var e := UpdateEffect(s, k, doc, o.write);
      PatchFits(s, p, c, k, doc, o);
      if !o.readUp {
        StopOk(s, p, c, o.newId, NoEffect, FailedTerminal);
      } else if o.write == Fine && k in s.rows {
        ResolvedSnapshot(s.rows[k], p, c);
        ReceiptOk(s, p, c, v, o.newId, e, id, Some(BeforeImageOf(s, p.model, id, doc)), false, lkey, doc != map[], o);
      } else {
        FailedOk(s, p, c, o.newId, e, UpdateReply(s, k, o.write));
      }
  }

  /** Resolving keeps the fields, so the snapshot is of the proposed ones. */
  lemma ResolvedSnapshot(row: Row, p: Shape, c: Scene)
    ensures Holds(Snapshot(row, Final(p, c)), row, p.doc)
  {
  }

  lemma StampIsNoId(v: VerbName)
    ensures Lookup(v).stamp != "id"
  {
    assert "id"[0] == 'i' && "ref"[0] == 'r' && "origin"[0] == 'o' && "description"[0] == 'd';
  }

  lemma OnlyCreatesAreUndoneByVerbs(v: VerbName)
    ensures Lookup(v).op != CreateOp && Lookup(v).op != UpsertOp ==> !Compensations(v).UndoBy?
  {
  }

  lemma ResolvedNames(s: Store, p: Shape, c: Scene, o: Oracle)
    requires StoreOk(s) && Met(c, s, o)
    ensures var id := ResolveOr(s.rows, p.model, p.raw, o.alias); Names(p, c, id) && (p.raw != "" ==> id != "")
    ensures var id := ResolveId(s.rows, p.model, p.raw, o.alias);
            id.Some? ==> Names(p, c, id.value) && id.value != "" && Key(p.model, id.value) in s.rows
  {
  }

  lemma DeleteOk(s: Store, p: Shape, c: Scene, v: VerbName, key: string, o: Oracle)
    requires StoreOk(s) && Met(c, s, o) && p.kind == Erasing && p.verb == Some(v) && !Compensations(v).UndoBy?
    ensures OutcomeOk(s, p, c, o.newId, CommitDelete(s, v, p.model, p.raw, key, o))
  {
    var id := ResolveOr(s.rows, p.model, p.raw, o.alias);
    ResolvedNames(s, p, c, o);
    DeletedOk(s, p, c, v, id, key, o);
  }

  lemma DeletedOk(s: Store, p: Shape, c: Scene, v: VerbName, id: string, key: string, o: Oracle)
    requires p.kind == Erasing && p.verb == Some(v) && !Compensations(v).UndoBy? && Names(p, c, id)
    requires id == ResolveOr(s.rows, p.model, p.raw, o.alias)
    ensures OutcomeOk(s, p, c, o.newId, CommitDelete(s, v, p.model, p.raw, key, o))
  {
    DeletesOrNot(s, v, p.model, p.raw, key, o);
    assert Fits(p, c, EraseEffect(Key(p.model, id), o.erase));
  }

  lemma DeletesOrNot(s: Store, v: VerbName, model: string, raw: string, key: string, o: Oracle)
    requires !Compensations(v).UndoBy?
    ensures var out := CommitDelete(s, v, model, raw, key, o);
            && CompOf(out).None?
            && (out.effect == NoEffect
                || out.effect == EraseEffect(Key(model, ResolveOr(s.rows, model, raw, o.alias)), o.erase))
  {
  }

  lemma UpdateOk(s: Store, p: Shape, c: Scene, v: VerbName, doc: Row, key: string, o: Oracle)
    requires StoreOk(s) && Met(c, s, o) && p.kind == Patching && p.verb == Some(v) && !Compensations(v).UndoBy?
    requires doc == Final(p, c)
    ensures OutcomeOk(s, p, c, o.newId, CommitUpdate(s, v, p.model, p.raw, doc, key, o))
  {
    var id := ResolveOr(s.rows, p.model, p.raw, o.alias);
    ResolvedNames(s, p, c, o);
    if o.readUp && o.write == Fine && Key(p.model, id) in s.rows {
      UpdatedOk(s, p, c, v, id, doc, key, o);
    } else {
      UpdateFailedOk(s, p, c, v, id, doc, key, o);
    }
  }

  lemma UpdatedOk(s: Store, p: Shape, c: Scene, v: VerbName, id: string, doc: Row, key: string, o: Oracle)
    requires c.rows == s.rows && p.kind == Patching && p.verb == Some(v) && !Compensations(v).UndoBy?
    requires doc == Final(p, c) && Names(p, c, id) && id != "" && id == ResolveOr(s.rows, p.model, p.raw, o.alias)
    requires o.readUp && o.write == Fine && Key(p.model, id) in s.rows
    ensures OutcomeOk(s, p, c, o.newId, CommitUpdate(s, v, p.model, p.raw, doc, key, o))
  {
    var k := Key(p.model, id);
    var image := if Compensations(v) == BeforeImage then Some(BeforeImageOf(s, p.model, id, doc)) else None;
    PatchFits(s, p, c, k, doc, o);
    ResolvedSnapshot(s.rows[k], p, c);
    ReceiptOk(s, p, c, v, o.newId, Patched(k, Clean(doc)), id, image, false, Named(key), doc != map[] && id != "", o);
  }

  lemma UpdateFailedOk(s: Store, p: Shape, c: Scene, v: VerbName, id: string, doc: Row, key: string, o: Oracle)
    requires c.rows == s.rows && p.kind == Patching
    requires doc == Final(p, c) && Names(p, c, id) && id == ResolveOr(s.rows, p.model, p.raw, o.alias)
    requires !(o.readUp && o.write == Fine && Key(p.model, id) in s.rows)
    ensures OutcomeOk(s, p, c, o.newId, CommitUpdate(s, v, p.model, p.raw, doc, key, o))
  {
    PatchFits(s, p, c, Key(p.model, id), doc, o);
    assert CompOf(CommitUpdate(s, v, p.model, p.raw, doc, key, o)).None?;
  }

  lemma InverseUndoes(p: Shape, c: Scene, id: string)
    requires p.kind == Calling && p.verb.Some? && Names(p, c, id) && id != ""
    ensures Fits(p, c, Called(Call(p.model, id, p.action)))
    ensures p.reverse != ""
            ==> Undoes(p, c, Called(Call(p.model, id, p.action)), UndoMethod(p.model, id, p.reverse, p.tier))
  {
  }

  lemma ActionOk(s: Store, p: Shape, c: Scene, v: VerbName, verb: Verb, key: string, o: Oracle)
    requires StoreOk(s) && Met(c, s, o) && p.kind == Calling && p.verb == Some(v) && p.raw != ""
             && !Compensations(v).UndoBy?
    requires p.model == verb.doctype && p.action == verb.action && p.reverse == verb.reverse && p.tier == verb.tier
    ensures OutcomeOk(s, p, c, o.newId, CommitAction(s, v, verb, p.raw, key, o))
  {
    var id := ResolveOr(s.rows, p.model, p.raw, o.alias);
    ResolvedNames(s, p, c, o);
    InverseUndoes(p, c, id);
    if o.readUp && o.call == CallFine {
      ActedOk(s, p, c, v, verb, id, key, o);
    } else {
      assert CompOf(CommitAction(s, v, verb, p.raw, key, o)).None?;
    }
  }

  lemma ActedOk(s: Store, p: Shape, c: Scene, v: VerbName, verb: Verb, id: string, key: string, o: Oracle)
    requires p.verb == Some(v) && !Compensations(v).UndoBy? && id == ResolveOr(s.rows, verb.doctype, p.raw, o.alias)
    requires var e := Called(Call(verb.doctype, id, verb.action));
             Fits(p, c, e) && (verb.reverse != ""
                               ==> Undoes(p, c, e, UndoMethod(verb.doctype, id, verb.reverse, verb.tier)))
    requires o.readUp && o.call == CallFine
    ensures OutcomeOk(s, p, c, o.newId, CommitAction(s, v, verb, p.raw, key, o))
  {
    var image := if verb.reverse == "" then None else Some(UndoMethod(verb.doctype, id, verb.reverse, verb.tier));
    ReceiptOk(s, p, c, v, o.newId, Called(Call(verb.doctype, id, verb.action)), id, image, false, Named(key), false, o);
  }

  lemma DispatchOk(s: Store, c: Scene, v: VerbName, verb: Verb, args: Row, native: Row, key: string,
                   digest: string -> string, o: Oracle)
    requires StoreOk(s) && o.newId != "" && forall k | k in s.used :: k.id != o.newId
    requires Met(c, s, o) && c.key == key && c.digest == digest
    requires verb.op != CreateOp && verb.op != UpsertOp ==> !Compensations(v).UndoBy?
    requires verb.op == MethodOp ==> TargetArg(verb, args) != ""
    requires verb.stamp != "id"
    ensures OutcomeOk(s, VerbShape(v, verb, args, native), c, o.newId,
                      Dispatch(s, v, verb, args, Resolve(native, o), key, digest, o))
  {
    var p := VerbShape(v, verb, args, native);
    var doc := Resolve(native, o);
    match verb.op {
      case DeleteOp => DeleteOk(s, p, c, v, key, o);
      case UpdateOp => UpdateOk(s, p, c, v, doc, key, o);
      case MethodOp => ActionOk(s, p, c, v, verb, key, o);
      case UpsertOp =>
        var found := ProbeKeysFrom(s, verb.doctype, ProbeKeys(v, args), doc, o.downProbes, 0, Named(key));
        if found.Match? {
          KeysFromFinds(s, verb.doctype, ProbeKeys(v, args), doc, o.downProbes, 0, Named(key));
        }
        UpsertOk(s, p, c, v, doc, found, o);
      case CreateOp => CreateOk(s, p, c, v, verb, args, doc, key, digest, o);
    }
  }

  lemma CreateOk(s: Store, p: Shape, c: Scene, v: VerbName, verb: Verb, args: Row, doc: Row, key: string,
                 digest: string -> string, o: Oracle)
    requires StoreOk(s) && o.newId != "" && forall k | k in s.used :: k.id != o.newId
    requires Met(c, s, o) && c.key == key && c.digest == digest && doc == Final(p, c)
    requires verb.op == CreateOp && p.kind == Creating && p.verb == Some(v) && p.model == verb.doctype
             && p.stamp == verb.stamp && verb.stamp != "id"
    ensures OutcomeOk(s, p, c, o.newId, Dispatch(s, v, verb, args, doc, key, digest, o))
  {
    if verb.stamp != "" && o.stampable {
      KeyedCreateOk(s, p, c, v, doc, key, o);
    } else {
      PlainCreateOk(s, p, c, v, doc, key, o);
    }
  }

  lemma PlainCreateOk(s: Store, p: Shape, c: Scene, v: VerbName, doc: Row, key: string, o: Oracle)
    requires p.kind == Creating && p.verb == Some(v) && o.newId != "" && doc == Final(p, c)
    requires p.stamp == "" || !c.stampable
    ensures OutcomeOk(s, p, c, o.newId, CommitPlainCreate(v, p.model, doc, key, o))
  {
    var e := CreateEffect(Key(p.model, o.newId), doc, o.write);
    PlainFits(p, c, Key(p.model, o.newId), doc, o);
    if o.write == Fine {
      ReceiptOk(s, p, c, v, o.newId, e, o.newId, None, false, Named(key), doc != map[], o);
    } else {
      FailedOk(s, p, c, o.newId, e, WriteReply(o.write));
    }
  }

  lemma VerifiedOk(s: Store, p: Shape, c: Scene, newId: string, e: Effect, id: string, comp: Comp, key: string,
                   o: Oracle)
    requires Fits(p, c, e) && Placed(s, newId, e) && Undoes(p, c, e, comp)
    ensures OutcomeOk(s, p, c, newId, Verified(e, id, comp, key, o))
  {
  }

  lemma GenericOk(s: Store, c: Scene, p: Proposal, key: string, o: Oracle)
    requires StoreOk(s) && Met(c, s, o) && p.Generic? && o.newId != ""
    ensures OutcomeOk(s, ShapeOf(p), c, o.newId, CommitGeneric(s, p, key, o))
  {
    var q := ShapeOf(p);
    StopOk(s, q, c, o.newId, NoEffect, FailedTerminal);
    ResolvedNames(s, q, c, o);
    var id := ResolveId(s.rows, p.target, p.id, o.alias);
    if p.op == Create {
      GenericCreateOk(s, c, p, key, o);
    } else if id.Some? && p.op == Update {
      GenericUpdateOk(s, c, p, id.value, key, o);
    } else if id.Some? {
      GenericDeleteOk(s, c, p, id.value, key, o);
    }
  }

  lemma GenericCreateOk(s: Store, c: Scene, p: Proposal, key: string, o: Oracle)
    requires Met(c, s, o) && p.Generic? && p.op == Create && o.newId != ""
    ensures OutcomeOk(s, ShapeOf(p), c, o.newId, CommitGeneric(s, p, key, o))
  {
    var q := ShapeOf(p);
    var e := CreateEffect(Key(p.target, o.newId), Resolve(p.data, o), o.write);
    PlainFits(q, c, Key(p.target, o.newId), Resolve(p.data, o), o);
    if o.write == Fine {
      VerifiedOk(s, q, c, o.newId, e, o.newId, UndoGeneric(Delete, p.target, o.newId, map[]), key, o);
    } else {
      FailedOk(s, q, c, o.newId, e, WriteReply(o.write));
    }
  }

  lemma GenericUpdateOk(s: Store, c: Scene, p: Proposal, id: string, key: string, o: Oracle)
    requires Met(c, s, o) && p.Generic? && p.op == Update && id != "" && Key(p.target, id) in s.rows
    requires ResolveId(s.rows, p.target, p.id, o.alias) == Some(id) && Names(ShapeOf(p), c, id)
    ensures OutcomeOk(s, ShapeOf(p), c, o.newId, CommitGeneric(s, p, key, o))
  {
    var q := ShapeOf(p);
    var k := Key(p.target, id);
    var e := UpdateEffect(s, k, Resolve(p.data, o), o.write);
    PatchFits(s, q, c, k, Resolve(p.data, o), o);
    StopOk(s, q, c, o.newId, NoEffect, Refusal(PreconditionFailed));
    if o.write == Fine {
      VerifiedOk(s, q, c, o.newId, e, id, UndoGeneric(Update, p.target, id, s.rows[k]), key, o);
    } else {
      FailedOk(s, q, c, o.newId, e, UpdateReply(s, k, o.write));
    }
  }

  lemma GenericDeleteOk(s: Store, c: Scene, p: Proposal, id: string, key: string, o: Oracle)
    requires Met(c, s, o) && p.Generic? && p.op == Delete && id != "" && Key(p.target, id) in s.rows
    requires ResolveId(s.rows, p.target, p.id, o.alias) == Some(id) && Names(ShapeOf(p), c, id)
    ensures OutcomeOk(s, ShapeOf(p), c, o.newId, CommitGeneric(s, p, key, o))
  {
    var q := ShapeOf(p);
    var k := Key(p.target, id);
    var e := EraseEffect(k, o.erase);
    FailedOk(s, q, c, o.newId, e, EraseReply(o.erase));
    if EraseReply(o.erase) == Ok {
      assert k in c.rows && k.model == p.target && (e == Erased(k) || e == NoEffect);
      VerifiedOk(s, q, c, o.newId, e, id, UndoGeneric(Create, p.target, "", s.rows[k]), key, o);
    }
  }

  lemma CallOk(s: Store, c: Scene, pol: Policy, ws: string, p: Proposal, key: string, o: Oracle)
    requires StoreOk(s) && Met(c, s, o) && p.MethodCall? && p.id != "" && c.policy == pol && c.workspace == ws
    ensures OutcomeOk(s, ShapeOf(p), c, o.newId, CommitMethodCall(s, pol, ws, p, key, o))
  {
    var q := ShapeOf(p);
    ResolvedNames(s, q, c, o);
    StopOk(s, q, c, o.newId, NoEffect, FailedTerminal);
    var id := ResolveOr(s.rows, p.target, p.id, o.alias);
    FailedOk(s, q, c, o.newId, CallEffect(Call(p.target, id, p.action), o.call), CallReply(o.call));
  }

  /** A proposal says whom it is about: ids and methods are filled, and no required arg is missing. */
  predicate WellFormed(p: Proposal) {
    match p
    case MethodCall(t, id, a, _) => t != "" && id != "" && a != ""
    case Generic(op, t, id, _, _) => t != "" && (op != Create ==> id != "")
    case Curated(v, args, _) => !Missing(Lookup(v), args)
  }

  lemma TargetIsFilled(v: VerbName, verb: Verb, args: Row)
    requires verb == Lookup(v) && (verb.op == MethodOp || verb.op == DeleteOp || verb.op == UpdateOp)
             && !Missing(verb, args)
    ensures TargetArg(verb, args) != ""
  {
    assert verb.required != [];
    assert verb.required[0] in verb.required;
    TruthyShows(Field(args, verb.required[0]));
  }

  /** Every commit, whatever the backend answers, does only what its proposal proposes, and mints only
      a token that undoes it. */
  lemma PerformOk(s: Store, c: Scene, digest: string -> string, p: Proposal, key: string, o: Oracle)
    requires StoreOk(s) && o.newId != "" && forall k | k in s.used :: k.id != o.newId
    requires WellFormed(p) && Met(c, s, o) && c.key == key && c.digest == digest
    ensures OutcomeOk(s, ShapeOf(p), c, o.newId, Perform(s, c.policy, digest, c.workspace, p, key, o))
  {
    match p
    case MethodCall(_, _, _, _) => CallOk(s, c, c.policy, c.workspace, p, key, o);
    case Generic(_, _, _, _, _) => GenericOk(s, c, p, key, o);
    case Curated(v, args, native) =>
      OnlyCreatesAreUndoneByVerbs(v);
      if Lookup(v).op == MethodOp {
        TargetIsFilled(v, Lookup(v), args);
      }
      StopOk(s, ShapeOf(p), c, o.newId, NoEffect, FailedTerminal);
      StampIsNoId(v);
      DispatchOk(s, c, v, Lookup(v), args, native, key, digest, o);
  }

  // ---------------------------------------------------------------- the invariant

  /** What governance, or the verb table within the module scope, allowed when it was asked. */
  ghost predicate GrantHolds(pol: Policy, ws: string, tier: string, p: Proposal) {
    match p
    case MethodCall(t, _, a, tier') => MethodTier(pol, t, a, ws) == Some(tier) && tier' == tier
    case Generic(op, t, _, _, _) => WriteTier(pol, t, op, ws) == Some(tier)
    case Curated(v, args, native) =>
      && ModuleEnabled(pol, Lookup(v).doctype) && tier == Lookup(v).tier && !Missing(Lookup(v), args)
      && native == NativeDoc(v, args, native)
      && (Lookup(v).op == UpsertOp ==> SomeKeyProbed(ProbeKeys(v, args), native))
  }

  ghost predicate OriginOk(h: History, pid: nat, g: Origin) {
    && WellFormed(g.proposal)
    && match g
       case Granted(pol, ws, tier, p) => GrantHolds(pol, ws, tier, p)
       case ReversalOf(token, tier, p) =>
         token < pid && token in h.minted && UndoProposal(h.minted[token].comp) == UndoAs(p, tier)
  }

  /** A deed fits the proposal it commits. */
  ghost predicate DeedOk(h: History, d: Deed) {
    d.pid in h.origins && Fits(ShapeOf(h.origins[d.pid].proposal), d.scene, d.effect)
  }

  ghost predicate MintedOk(h: History, token: nat, m: Minted) {
    && m.deed.pid < token && DeedOk(h, m.deed)
    && Undoes(ShapeOf(h.origins[m.deed.pid].proposal), m.deed.scene, m.deed.effect, m.comp)
    && (m.deed.effect != NoEffect ==> m.deed in h.effects)
  }

  /** The record of the run is coherent. */
  ghost predicate HistoryOk(h: History, next: nat) {
    && (forall pid | pid in h.origins :: pid < next)
    && (forall t | t in h.minted :: t < next)
    && (forall pid {:trigger OriginOk(h, pid, h.origins[pid])} | pid in h.origins :: OriginOk(h, pid, h.origins[pid]))
    && (forall t {:trigger MintedOk(h, t, h.minted[t])} | t in h.minted :: MintedOk(h, t, h.minted[t]))
    && (forall i | 0 <= i < |h.effects| :: h.effects[i].effect != NoEffect && DeedOk(h, h.effects[i]))
  }

  /** What the adapter remembers is what the run recorded. */
  ghost predicate MemoryOk(w: World) {
    && (forall pid | pid in w.memory.proposals ::
          pid in w.hist.origins && w.hist.origins[pid].proposal == w.memory.proposals[pid])
    && (forall t | t in w.memory.comps :: t in w.hist.minted && w.hist.minted[t].comp == w.memory.comps[t])
    && (forall pid | pid in w.memory.executed :: pid in w.hist.origins)
  }

  ghost predicate Inv(w: World) {
    StoreOk(w.store) && HistoryOk(w.hist, w.next) && MemoryOk(w)
  }

  lemma ApplyKeepsStore(s: Store, e: Effect, newId: string)
    requires StoreOk(s) && Placed(s, newId, e) && newId != ""
    ensures StoreOk(Apply(s, e)) && s.used <= Apply(s, e).used
  {
  }

  /** A longer record of the run. */
  ghost predicate Extends(h: History, g: History) {
    && (forall pid | pid in h.origins :: pid in g.origins && g.origins[pid] == h.origins[pid])
    && (forall t | t in h.minted :: t in g.minted && g.minted[t] == h.minted[t])
    && (forall entry | entry in h.effects :: entry in g.effects)
  }

  lemma KnownStays(h: History, g: History, next: nat)
    requires HistoryOk(h, next) && Extends(h, g)
    ensures forall pid {:trigger OriginOk(g, pid, g.origins[pid])} | pid in h.origins ::
              OriginOk(g, pid, g.origins[pid])
    ensures forall t {:trigger MintedOk(g, t, g.minted[t])} | t in h.minted :: MintedOk(g, t, g.minted[t])
    ensures forall i | 0 <= i < |h.effects| :: DeedOk(g, h.effects[i])
  {
    forall pid | pid in h.origins ensures OriginOk(g, pid, g.origins[pid]) {
      assert OriginOk(h, pid, h.origins[pid]);
    }
    forall t | t in h.minted ensures MintedOk(g, t, g.minted[t]) {
      assert MintedOk(h, t, h.minted[t]);
    }
    forall i | 0 <= i < |h.effects| ensures DeedOk(g, h.effects[i]) {
      assert DeedOk(h, h.effects[i]);
    }
  }

  lemma EffectKeepsInv(w: World, d: Deed, newId: string)
    requires Inv(w) && Placed(w.store, newId, d.effect) && newId != "" && DeedOk(w.hist, d)
    ensures Inv(WithEffect(w, d))
    ensures d.effect != NoEffect ==> d in WithEffect(w, d).hist.effects
  {
    var v := WithEffect(w, d);
    ApplyKeepsStore(w.store, d.effect, newId);
    if d.effect != NoEffect {
      assert v.hist.effects == w.hist.effects + [d];
      assert v.hist.effects[|w.hist.effects|] == d;
      forall entry | entry in w.hist.effects ensures entry in v.hist.effects {}
      KnownStays(w.hist, v.hist, w.next);
    }
  }

  lemma TokenKeepsInv(w: World, d: Deed, comp: Option<Comp>)
    requires Inv(w) && DeedOk(w.hist, d) && (d.effect != NoEffect ==> d in w.hist.effects)
    requires comp.Some? ==> Undoes(ShapeOf(w.hist.origins[d.pid].proposal), d.scene, d.effect, comp.value)
    ensures Inv(WithToken(w, d, comp))
  {
    if comp.Some? {
      var v := WithToken(w, d, comp);
      KnownStays(w.hist, v.hist, w.next);
      assert MintedOk(v.hist, w.next, Minted(d, comp.value));
    }
  }

  lemma ReceiptKeepsInv(w: World, ws: string, lkey: LedgerKey, r: Receipt)
    requires Inv(w) && r.pid in w.hist.origins
    ensures Inv(WithReceipt(w, ws, lkey, r))
  {
  }

  lemma ProposalKeepsInv(w: World, p: Proposal, g: Origin)
    requires Inv(w) && g.proposal == p && OriginOk(w.hist, w.next, g)
    ensures Inv(WithProposal(w, p, g))
  {
    var v := WithProposal(w, p, g);
    KnownStays(w.hist, v.hist, w.next);
    assert OriginOk(v.hist, w.next, g);
  }

  /** What `PerformOk` says of a remembered proposal. */
  lemma RememberedPerforms(w: World, ws: string, key: string, pid: nat, o: Oracle)
    requires Inv(w) && StepOk(w, DoCommit(ws, key, pid, o)) && pid in w.memory.proposals
    ensures var p := w.memory.proposals[pid];
            var out := Perform(w.store, w.policy, w.digest, ws, p, key, o);
            && pid in w.hist.origins && w.hist.origins[pid].proposal == p && WellFormed(p)
            && OutcomeOk(w.store, ShapeOf(p), SceneOf(w, ws, key, o), o.newId, out)
            && DeedOk(w.hist, DeedOf(w, ws, key, pid, o, out.effect))
  {
    assert OriginOk(w.hist, pid, w.hist.origins[pid]);
    PerformOk(w.store, SceneOf(w, ws, key, o), w.digest, w.memory.proposals[pid], key, o);
  }

  lemma CommitKeepsInv(w: World, ws: string, key: string, pid: nat, o: Oracle)
    requires Inv(w) && StepOk(w, DoCommit(ws, key, pid, o))
    ensures Inv(Commit(w, ws, key, pid, o).0)
  {
    if key != "" && Named(key) !in w.memory.ledger && pid in w.memory.proposals {
      var out := Perform(w.store, w.policy, w.digest, ws, w.memory.proposals[pid], key, o);
      RememberedPerforms(w, ws, key, pid, o);
      SettleKeepsInv(w, DeedOf(w, ws, key, pid, o, out.effect), out, o.newId);
    }
  }

  lemma SettleKeepsInv(w: World, d: Deed, out: Outcome, newId: string)
    requires Inv(w) && Placed(w.store, newId, d.effect) && newId != "" && DeedOk(w.hist, d)
    requires CompOf(out).Some? ==> Undoes(ShapeOf(w.hist.origins[d.pid].proposal), d.scene, d.effect, CompOf(out).value)
    ensures Inv(Settle(w, d, out).0)
  {
    EffectKeepsInv(w, d, newId);
    var w1 := WithEffect(w, d);
    TokenKeepsInv(w1, d, CompOf(out));
    if out.Receipted? {
      var w2 := WithToken(w1, d, out.comp);
      ReceiptKeepsInv(w2, d.scene.workspace, out.ledgerKey,
                      Receipt(d.pid, out.ref, out.replay, if out.comp.Some? then Some(w.next) else None));
    }
  }

  lemma DecisionHolds(rows: map<Key, Row>, pol: Policy, ws: string, q: Request, o: ProposeOracle)
    requires Decide(rows, pol, ws, q, o).Grant?
    ensures GrantHolds(pol, ws, Decide(rows, pol, ws, q, o).tier, Decide(rows, pol, ws, q, o).proposal)
    ensures WellFormed(Decide(rows, pol, ws, q, o).proposal)
  {
    if q.AskCurated? {
      assert Lookup(q.verb).op == UpsertOp ==> Lookup(q.verb).dedup != [];
    }
  }

  lemma ProposeKeepsInv(w: World, ws: string, q: Request, o: ProposeOracle)
    requires Inv(w)
    ensures Inv(Propose(w, ws, q, o).0)
  {
    var d := Decide(w.store.rows, w.policy, ws, q, o);
    if d.Grant? {
      DecisionHolds(w.store.rows, w.policy, ws, q, o);
      ProposalKeepsInv(w, d.proposal, Granted(w.policy, ws, d.tier, d.proposal));
    }
  }

  lemma RollbackKeepsInv(w: World, token: nat)
    requires Inv(w)
    ensures Inv(Rollback(w, token).0)
  {
    if token in w.memory.comps {
      var u := UndoProposal(w.memory.comps[token]);
      TokenGivesOrigin(w, token);
      PreviewKeepsInv(w, token, u);
    }
  }

  lemma PreviewKeepsInv(w: World, token: nat, u: Undo)
    requires Inv(w) && (u.UndoAs? ==> OriginOk(w.hist, w.next, ReversalOf(token, u.tier, u.proposal)))
    ensures Inv(Previewed(w, token, u).0)
  {
    if u.UndoAs? {
      ProposalKeepsInv(w, u.proposal, ReversalOf(token, u.tier, u.proposal));
    }
  }

  /** A token's reversal can always be proposed, and says whom it is about. */
  lemma UndoIsWellFormed(p: Proposal, c: Scene, e: Effect, comp: Comp)
    requires WellFormed(p) && Fits(ShapeOf(p), c, e) && Undoes(ShapeOf(p), c, e, comp)
    ensures UndoProposal(comp).UndoAs? && WellFormed(UndoProposal(comp).proposal)
    ensures comp.UndoVerb? ==> Compensations(comp.verb).UndoBy? && comp.id != ""
  {
    ModelIsFilled(p);
    if comp.UndoVerb? {
      CompensationIsCommittable(comp.verb, comp.id);
      UndoArgs(Compensations(comp.verb).verb, comp.id);
    }
  }

  lemma ModelIsFilled(p: Proposal)
    requires WellFormed(p)
    ensures ShapeOf(p).model != ""
  {
  }

  lemma UndoArgs(u: VerbName, id: string)
    requires CompIdArg(u).Some? && Lookup(u).required == [CompIdArg(u).value] && id != ""
    ensures !Missing(Lookup(u), map[CompIdArg(u).value := Text(id)])
  {
  }

  /** What is remembered of a token: the commit that minted it, and that its reversal can be proposed. */
  lemma TokenIsCoherent(w: World, token: nat)
    requires Inv(w) && token in w.memory.comps
    ensures token in w.hist.minted && w.hist.minted[token].comp == w.memory.comps[token]
    ensures MintedOk(w.hist, token, w.hist.minted[token])
    ensures UndoProposal(w.memory.comps[token]).UndoAs? && WellFormed(UndoProposal(w.memory.comps[token]).proposal)
    ensures var c := w.memory.comps[token]; c.UndoVerb? ==> Compensations(c.verb).UndoBy? && c.id != ""
  {
    var m := w.hist.minted[token];
    assert MintedOk(w.hist, token, m);
    assert OriginOk(w.hist, m.deed.pid, w.hist.origins[m.deed.pid]);
    UndoIsWellFormed(w.hist.origins[m.deed.pid].proposal, m.deed.scene, m.deed.effect, m.comp);
  }

  lemma TokenGivesOrigin(w: World, token: nat)
    requires Inv(w) && token in w.memory.comps
    ensures var u := UndoProposal(w.memory.comps[token]);
            u.UndoAs? && OriginOk(w.hist, w.next, ReversalOf(token, u.tier, u.proposal))
  {
    TokenIsCoherent(w, token);
  }

  lemma StepKeepsInv(w: World, step: Step)
    requires Inv(w) && StepOk(w, step)
    ensures Inv(Next(w, step).0)
  {
    match step
    case DoPropose(ws, q, o) => ProposeKeepsInv(w, ws, q, o);
    case DoCommit(ws, key, pid, o) => CommitKeepsInv(w, ws, key, pid, o);
    case DoRollback(token) => RollbackKeepsInv(w, token);
    case DoGovern(c) =>
    case Restart =>
    case Outside(s) =>
  }

  lemma {:induction false} RunKeepsInv(w: World, steps: seq<Step>)
    requires Inv(w) && RunOk(w, steps)
    ensures Inv(Run(w, steps))
    decreases |steps|
  {
    if steps != [] {
      StepKeepsInv(w, steps[0]);
      RunKeepsInv(Next(w, steps[0]).0, steps[1..]);
    }
  }

  lemma InitialInv(w: World)
    requires Initial(w)
    ensures Inv(w)
  {
  }
}
