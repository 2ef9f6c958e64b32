/** What the four requests answer, over whole runs. */
module Requests {
  import opened Options
  import opened Values
  import opened Governance
  import opened Verbs
  import opened Backend
  import opened Protocol
  import opened Invariants
  import opened AttemptKey
  import opened Ledger
  import opened Endings
  import Marker

  // ---------------------------------------------------------------- status

  /** A commit of this proposal was executed in this life of the adapter. */
  ghost predicate ExecutedNow(w: World, pid: nat) {
    exists i :: 0 <= i < |w.events| && w.events[i].epoch == w.epoch && w.events[i].pid == pid
  }

  ghost predicate Remembers(w: World) {
    EventsOk(w) && forall pid :: pid in w.memory.executed <==> ExecutedNow(w, pid)
  }

  lemma OneMoreExecuted(w: World, v: World, e: Event)
    requires v.epoch == w.epoch == e.epoch && v.events == w.events + [e]
    ensures forall pid :: ExecutedNow(v, pid) <==> ExecutedNow(w, pid) || pid == e.pid
  {
    forall pid ensures ExecutedNow(v, pid) <==> ExecutedNow(w, pid) || pid == e.pid {
      assert v.events[|w.events|] == e;
      if ExecutedNow(w, pid) {
        var i :| 0 <= i < |w.events| && w.events[i].epoch == w.epoch && w.events[i].pid == pid;
        assert v.events[i] == w.events[i];
      }
    }
  }

  lemma StepRemembers(w: World, step: Step)
    requires Remembers(w)
    ensures Remembers(Next(w, step).0)
  {
    var v := Next(w, step).0;
    StepEvents(w, step);
    match step
    case DoCommit(ws, key, pid, o) =>
      CommitSends(w, ws, key, pid, o);
      if Commit(w, ws, key, pid, o).1.Executed? && Named(key) !in w.memory.ledger {
        OneMoreExecuted(w, v, Event(w.epoch, ws, SeqOf(w.memory, ws) + 1, pid));
      } else {
        assert forall p :: ExecutedNow(v, p) <==> ExecutedNow(w, p);
      }
    case Restart =>
      assert v.events == w.events && v.epoch == w.epoch + 1;
      assert forall e | e in w.events :: e.epoch <= w.epoch;
      forall pid ensures !ExecutedNow(v, pid) {
        assert forall i | 0 <= i < |w.events| :: w.events[i] in w.events;
      }
    case _ =>
      assert v.events == w.events && v.epoch == w.epoch && v.memory.executed == w.memory.executed;
      assert forall p :: ExecutedNow(v, p) <==> ExecutedNow(w, p);
  }

  lemma {:induction false} RunRemembers(w: World, steps: seq<Step>)
    requires Remembers(w)
    ensures Remembers(Run(w, steps))
    decreases |steps|
  {
    if steps != [] {
      StepRemembers(w, steps[0]);
      RunRemembers(Next(w, steps[0]).0, steps[1..]);
    }
  }

  /** Over every run the legacy status of a proposal is `executed` exactly when a commit of it was in this
      life of the adapter. Else it is `pending` exactly when a commit of it, under a key the ledger does not
      hold, is not refused as expired, and `expired` when it is. */
  lemma StatusTells(w: World, steps: seq<Step>, pid: nat, ws: string, key: string, o: Oracle)
    requires Initial(w) && RunOk(w, steps) && StepOk(Run(w, steps), DoCommit(ws, key, pid, o))
    requires key != "" && Named(key) !in Run(w, steps).memory.ledger
    ensures var v := Run(w, steps);
            var gone := Commit(v, ws, key, pid, o).1 == Refusal(Expired);
            && (Status(v.memory, pid) == IsExecuted <==> ExecutedNow(v, pid))
            && (Status(v.memory, pid) == IsPending <==> !ExecutedNow(v, pid) && !gone)
            && (Status(v.memory, pid) == IsExpired <==> !ExecutedNow(v, pid) && gone)
  {
    FreshEvents(w);
    RunRemembers(w, steps);
    InitialInv(w);
    RunKeepsInv(w, steps);
    CommitGates(Run(w, steps), ws, key, pid, o);
  }

  /** A second commit of the verb converges: it writes a state, and does not add a record or a note. */
  predicate Repeatable(v: VerbName) {
    Lookup(v).op != CreateOp && v != LogNote
  }

  /** Status by key names a record exactly when it alone carries the marker. It says nothing was found
      exactly when no record carries it, or the verb stamps nothing and converges when committed again. */
  lemma StatusByKeyTells(s: Store, v: VerbName, key: string, digest: string -> string, stampable: bool, up: bool,
                         id: string)
    ensures var verb, a := Lookup(v), StatusByKey(s, v, key, digest, stampable, up);
            var found := Carriers(s, verb.doctype, verb.stamp, Marker.IdemMarker(key, digest));
            var asked := IsKeyed(v) && stampable && up;
            && (a == KeyExecuted(id) <==> asked && found == {Key(verb.doctype, id)})
            && (a == KeyNotFound <==> (asked && found == {}) || (!IsKeyed(v) && Repeatable(v)))
            && (a == KeyUnknown <==>
                  (!asked && (IsKeyed(v) || !Repeatable(v)))
                  || (asked && exists j, k :: j in found && k in found && j != k))
  {
    StampMeansKeyed(v);
    ProbeTells(s, Lookup(v).doctype, CarriesTest(Lookup(v).stamp, Marker.IdemMarker(key, digest)), id);
  }

  lemma ProbeTells(s: Store, model: string, p: Row -> bool, id: string)
    ensures var f, hits := Probe(s, model, p), Hits(s, model, p);
            && (f == One(id) <==> hits == {Key(model, id)})
            && (f == Nothing <==> hits == {})
            && (f == Many <==> exists j, k :: j in hits && k in hits && j != k)
  {
  }

  lemma StampMeansKeyed(v: VerbName)
    ensures Lookup(v).stamp != "" <==> IsKeyed(v)
    ensures !IsKeyed(v) ==> (Lookup(v).convergent <==> Repeatable(v))
  {
  }

  // ---------------------------------------------------------------- commit

  /** A commit is malformed exactly without a key, replayed from the ledger exactly under a key it holds,
      expired exactly when its proposal is not known; in these cases nothing at all changes. */
  lemma CommitGates(w: World, ws: string, key: string, pid: nat, o: Oracle)
    requires StoreOk(w.store) && StepOk(w, DoCommit(ws, key, pid, o))
    ensures var (v, a) := Commit(w, ws, key, pid, o);
            && (a == Refusal(Malformed) <==> key == "")
            && (a == Refusal(Expired) <==> key != "" && Named(key) !in w.memory.ledger && pid !in w.memory.proposals)
            && (key != "" && Named(key) in w.memory.ledger ==>
                  a == Executed(w.memory.ledger[Named(key)].(replayed := true)))
            && (key == "" || Named(key) in w.memory.ledger || pid !in w.memory.proposals ==> v == w)
  {
    if key != "" && Named(key) !in w.memory.ledger && pid in w.memory.proposals {
      var p := w.memory.proposals[pid];
      var out := Perform(w.store, w.policy, w.digest, ws, p, key, o);
      AnsweredExactlyWhen(w.store, w.policy, w.digest, ws, p, key, o);
      SettledAnswer(w, DeedOf(w, ws, key, pid, o, out.effect), out);
    }
  }

  /** What a commit that is not answered beforehand leaves in memory. Executed: a receipt of this proposal,
      filed, with the one new token when it is reversible and none when not. Otherwise: no receipt. */
  ghost predicate Reported(w: World, v: World, a: Answer, pid: nat, reversible: bool) {
    if a.Executed? then
      && a.receipt.pid == pid && v.memory.executed == w.memory.executed + {pid}
      && (exists k | k in v.memory.ledger :: v.memory.ledger == w.memory.ledger[k := a.receipt])
      && (a.receipt.token == if reversible then Some(w.next) else None)
      && v.memory.comps.Keys == w.memory.comps.Keys + (if reversible then {w.next} else {})
      && (forall token | token in w.memory.comps && token != w.next :: v.memory.comps[token] == w.memory.comps[token])
    else
      v.memory.executed == w.memory.executed && v.memory.ledger == w.memory.ledger
  }

  lemma CommitFiles(w: World, ws: string, key: string, pid: nat, o: Oracle)
    requires StoreOk(w.store) && StepOk(w, DoCommit(ws, key, pid, o))
    requires key != "" && Named(key) !in w.memory.ledger && pid in w.memory.proposals
    ensures var p := w.memory.proposals[pid];
            var e := Perform(w.store, w.policy, w.digest, ws, p, key, o).effect;
            var (v, a) := Commit(w, ws, key, pid, o);
            Reported(w, v, a, pid, Reversible(p, w.policy, ws, e))
  {
    var p := w.memory.proposals[pid];
    var out := Perform(w.store, w.policy, w.digest, ws, p, key, o);
    ReceiptSays(w.store, w.policy, w.digest, ws, p, key, o);
    SettledFiles(w, DeedOf(w, ws, key, pid, o, out.effect), out);
  }

  lemma SettledFiles(w: World, d: Deed, out: Outcome)
    requires out.Halted? ==> !out.answer.Executed?
    ensures var (v, a) := Settle(w, d, out); Reported(w, v, a, d.pid, out.Receipted? && out.comp.Some?)
  {
    if out.Receipted? {
      var (v, a) := Settle(w, d, out);
      assert out.ledgerKey in v.memory.ledger && v.memory.ledger == w.memory.ledger[out.ledgerKey := a.receipt];
    }
  }

  lemma SettledAnswer(w: World, d: Deed, out: Outcome)
    ensures var a := Settle(w, d, out).1;
            if out.Receipted? then a.Executed? else a == out.answer
  {
  }

  // ---------------------------------------------------------------- propose

  /** Governance allows what is asked for: by a tier, or for a curated verb by the module scope. */
  predicate Allowed(pol: Policy, ws: string, q: Request) {
    match q
    case AskMethod(target, _, action) => MethodTier(pol, target, action, ws).Some?
    case AskGeneric(op, target, _, _) => op.Some? && WriteTier(pol, target, op.value, ws).Some?
    case AskCurated(v, _, _) => InScope(pol, Lookup(v).doctype)
    case AskUnknown => false
  }

  /** Nothing is missing: the record, the model, the method and the document that are needed, for an
      upsert something to know its record by, and a number above zero where one is needed. */
  predicate Filled(q: Request, numeric: bool) {
    match q
    case AskMethod(target, id, action) => target != "" && id != "" && action != ""
    case AskGeneric(op, target, id, data) =>
      op.Some? && target != "" && (op.value != Create ==> id != "") && (op.value != Delete ==> data.Some?)
    case AskCurated(v, args, native) =>
      && (forall f | f in Lookup(v).required :: f in args && Truthy(args[f]))
      && (v == CreateContact || v == CreateClient ==> Given(native, "email") || Given(native, "phone"))
      && (v == LinkSupplier ==> Given(native, "product_tmpl_id") && Given(native, "partner_id"))
      && (v == SetLandedCost ==> numeric)
    case AskUnknown => true
  }

  predicate Given(doc: Row, f: string) {
    f in doc && Truthy(doc[f])
  }

  /** The request is turned away before its arguments are looked at, or, where the policy is asked about a
      model, once the model is named. */
  predicate Denied(pol: Policy, ws: string, q: Request) {
    !Allowed(pol, ws, q)
    && match q
       case AskMethod(target, id, action) => target != "" && id != "" && action != ""
       case AskGeneric(op, target, _, _) => op.None? || target != ""
       case _ => true
  }

  predicate Gated(q: Request) {
    q.AskCurated? || (q.AskGeneric? && q.op != Some(Delete))
  }

  /** What is asked, as it will be committed. */
  predicate AsAsked(q: Request, tier: string, p: Proposal) {
    match q
    case AskMethod(target, id, action) => p == MethodCall(target, id, action, tier)
    case AskGeneric(op, target, id, data) =>
      p.Generic? && Some(p.op) == op && p.target == target && p.id == id
      && p.data == if data.Some? then data.value else map[]
    case AskCurated(v, args, native) =>
      p.Curated? && p.verb == v && p.args == args && tier == Lookup(v).tier
      && if v == CreateSupplier then SupplierRow(args, p.native) else p.native == native
    case AskUnknown => false
  }

  /** A supplier's record: the name, a company, of rank 1, with the email, phone and tax number given. */
  predicate SupplierRow(args: Row, row: Row) {
    && (forall f | f in row ::
          f in {"name", "is_company", "supplier_rank"} || (f in {"email", "phone", "vat"} && Given(args, f)))
    && Field(row, "name") == Field(args, "name") && Field(row, "is_company") == Flag(true)
    && Field(row, "supplier_rank") == Num(1)
    && forall f | f in {"email", "phone", "vat"} && Given(args, f) :: Field(row, f) == args[f]
  }

  lemma SupplierIsAsGiven(args: Row)
    ensures SupplierRow(args, SupplierDoc(args))
  {
    assert "supplier_rank"[0] == 's' && "name"[0] == 'n' && "is_company"[0] == 'i';
    assert "email"[0] == 'e' && "phone"[0] == 'p' && "vat"[0] == 'v';
  }

  /** PROPOSE grants exactly what is allowed, filled in, provisioned and of valid choices. It refuses as
      unknown what governance does not allow, as invalid what is allowed and not filled in, as unavailable
      what is both and not provisioned. A grant stores what was asked at the tier of the policy; a refusal
      changes nothing. */
  lemma ProposeAnswersExactlyWhen(w: World, ws: string, q: Request, o: ProposeOracle)
    ensures var (v, a) := Propose(w, ws, q, o);
            var denied, filled := Denied(w.policy, ws, q), Filled(q, o.numeric);
            var fits := Gated(q) ==> o.gate.None?;
            && (a.Proposed? <==> Allowed(w.policy, ws, q) && filled && o.exists_ && fits)
            && (a.Proposed? ==>
                  && a.pid == w.next && w.next in v.memory.proposals && AsAsked(q, a.tier, v.memory.proposals[w.next])
                  && v.store == w.store
                  && v.memory.proposals == w.memory.proposals[w.next := v.memory.proposals[w.next]])
            && (!a.Proposed? ==> v == w && a.Refusal?)
            && (o.gate != Some(UnknownVerb) ==> (a == Refusal(UnknownVerb) <==> denied))
            && (o.gate != Some(InvalidArgs) ==> (a == Refusal(InvalidArgs) <==> !denied && !filled))
            && (o.gate != Some(UpstreamUnavailable) ==>
                  (a == Refusal(UpstreamUnavailable) <==> !denied && filled && !o.exists_))
  {
    match q
    case AskCurated(verb, args, native) =>
      ScopeMeans(w.policy, Lookup(verb).doctype);
      SupplierIsAsGiven(args);
      FilledMeans(verb, args, native, o.numeric);
    case _ =>
  }

  lemma FilledMeans(v: VerbName, args: Row, native: Row, numeric: bool)
    ensures Filled(AskCurated(v, args, native), numeric)
            <==> && !Missing(Lookup(v), args)
                 && (Lookup(v).op == UpsertOp && Lookup(v).dedup != [] ==>
                       SomeKeyProbed(ProbeKeys(v, args), NativeDoc(v, args, native)))
                 && (Positive(v) != [] ==> numeric)
  {
    RequiredMeans(Lookup(v), args);
    if v == CreateContact || v == CreateClient {
      ContactIsFilled(native);
    } else if v == LinkSupplier {
      LinkIsFilled(native);
    } else if v == CreateSupplier {
      assert ProbeKeys(v, args)[0].Resolved? && ProbeKeys(v, args)[0] in ProbeKeys(v, args);
    }
  }

  lemma RequiredMeans(verb: Verb, args: Row)
    ensures (forall f | f in verb.required :: f in args && Truthy(args[f])) <==> !Missing(verb, args)
  {
  }

  lemma ContactIsFilled(doc: Row)
    ensures SomeKeyProbed(EMAIL_OR_PHONE, doc) <==> Given(doc, "email") || Given(doc, "phone")
  {
    assert Single("email") in EMAIL_OR_PHONE && Single("phone") in EMAIL_OR_PHONE;
  }

  lemma LinkIsFilled(doc: Row)
    ensures SomeKeyProbed([Group(["product_tmpl_id", "partner_id"])], doc)
            <==> Given(doc, "product_tmpl_id") && Given(doc, "partner_id")
  {
    var k := Group(["product_tmpl_id", "partner_id"]);
    assert k in [k];
    assert "product_tmpl_id" in k.fields && "partner_id" in k.fields;
  }

  // ---------------------------------------------------------------- rollback

  /** The proposal a token stands for: the inverse method, the stored write with nothing bound, or a
      delete, by a verb of the same model, of the record the token names. */
  predicate Reverses(c: Comp, tier: string, p: Proposal) {
    match c
    case UndoMethod(target, id, action, granted) => p == MethodCall(target, id, action, granted) && tier == granted
    case UndoGeneric(op, target, id, data) =>
      p == Generic(op, target, id, data, None) && tier == if op == Delete then "HIGH" else "MEDIUM"
    case UndoVerb(v, id) =>
      p.Curated? && p.native == map[] && tier == "HIGH"
      && Lookup(p.verb).op == DeleteOp && Lookup(p.verb).doctype == Lookup(v).doctype
      && |Lookup(p.verb).required| == 1 && p.args == map[Lookup(p.verb).required[0] := Text(id)]
  }

  /** In every reachable state ROLLBACK refuses a token as expired exactly when it is not remembered, and
      else proposes exactly its reversal; the store is never touched. */
  lemma RollbackAnswersExactlyWhen(w: World, token: nat)
    requires Inv(w)
    ensures var (v, a) := Rollback(w, token);
            && (a == Refusal(CompensationExpired) <==> token !in w.memory.comps)
            && (a.Proposed? <==> token in w.memory.comps)
            && (a.Proposed? ==>
                  && a.pid == w.next && w.next in v.memory.proposals
                  && Reverses(w.memory.comps[token], a.tier, v.memory.proposals[w.next])
                  && v.memory.proposals == w.memory.proposals[w.next := v.memory.proposals[w.next]])
            && v.store == w.store && (!a.Proposed? ==> v == w)
  {
    if token in w.memory.comps {
      TokenIsCoherent(w, token);
      var c := w.memory.comps[token];
      if c.UndoVerb? {
        CompensationIsCommittable(c.verb, c.id);
        ReversalIsDelete(c.verb, c.id);
      }
    }
  }

  lemma ReversalIsDelete(v: VerbName, id: string)
    requires Compensations(v).UndoBy?
    ensures UndoProposal(UndoVerb(v, id)).UndoAs?
    ensures Reverses(UndoVerb(v, id), UndoProposal(UndoVerb(v, id)).tier, UndoProposal(UndoVerb(v, id)).proposal)
  {
    CompensationIsCommittable(v, id);
    assert Lookup(Compensations(v).verb).tier == "HIGH";
  }
}
