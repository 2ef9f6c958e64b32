/** Commit, rollback, commit of the reversal: what is undone, and what others wrote meanwhile. */
module RoundTrip {
  import opened Text
  import opened Options
  import opened Values
  import opened Governance
  import opened Verbs
  import opened Backend
  import opened Protocol
  import opened Invariants
  import Endings

  // ---------------------------------------------------------------- memory lasts until a restart

  ghost predicate NoRestart(steps: seq<Step>) {
    forall s | s in steps :: !s.Restart?
  }

  /** What was remembered is remembered. */
  ghost predicate Keeps(m: Memory, n: Memory) {
    && (forall t | t in m.comps :: t in n.comps && n.comps[t] == m.comps[t])
    && (forall p | p in m.proposals :: p in n.proposals && n.proposals[p] == m.proposals[p])
  }

  lemma CommitKeepsMemory(w: World, ws: string, key: string, pid: nat, o: Oracle)
    requires MemoryOk(w) && HistoryOk(w.hist, w.next)
    ensures Keeps(w.memory, Commit(w, ws, key, pid, o).0.memory)
  {
    if key != "" && Named(key) !in w.memory.ledger && pid in w.memory.proposals {
      var out := Perform(w.store, w.policy, w.digest, ws, w.memory.proposals[pid], key, o);
      SettleKeepsMemory(w, DeedOf(w, ws, key, pid, o, out.effect), out);
    }
  }

  lemma SettleKeepsMemory(w: World, d: Deed, out: Outcome)
    requires MemoryOk(w) && HistoryOk(w.hist, w.next)
    ensures Keeps(w.memory, Settle(w, d, out).0.memory)
  {
    assert w.next !in w.memory.comps;
  }

  lemma ProposalKeepsMemory(w: World, p: Proposal, g: Origin)
    requires MemoryOk(w) && HistoryOk(w.hist, w.next)
    ensures Keeps(w.memory, WithProposal(w, p, g).memory)
  {
    assert w.next !in w.memory.proposals;
  }

  lemma StepKeepsMemory(w: World, step: Step)
    requires MemoryOk(w) && HistoryOk(w.hist, w.next) && !step.Restart?
    ensures Keeps(w.memory, Next(w, step).0.memory)
  {
    match step
    case DoPropose(ws, q, o) =>
      var d := Decide(w.store.rows, w.policy, ws, q, o);
      if d.Grant? {
        ProposalKeepsMemory(w, d.proposal, Granted(w.policy, ws, d.tier, d.proposal));
      }
    case DoCommit(ws, key, pid, o) => CommitKeepsMemory(w, ws, key, pid, o);
    case DoRollback(token) => RollbackKeepsMemory(w, token);
    case DoGovern(_) =>
    case Outside(_) =>
  }

  lemma RollbackKeepsMemory(w: World, token: nat)
    requires MemoryOk(w) && HistoryOk(w.hist, w.next)
    ensures Keeps(w.memory, Rollback(w, token).0.memory)
  {
    if token in w.memory.comps {
      PreviewKeepsMemory(w, token, UndoProposal(w.memory.comps[token]));
    }
  }

  lemma PreviewKeepsMemory(w: World, token: nat, u: Undo)
    requires MemoryOk(w) && HistoryOk(w.hist, w.next)
    ensures Keeps(w.memory, Previewed(w, token, u).0.memory)
  {
    if u.UndoAs? {
      ProposalKeepsMemory(w, u.proposal, ReversalOf(token, u.tier, u.proposal));
    }
  }

  lemma {:induction false} RunKeepsMemory(w: World, steps: seq<Step>)
    requires Inv(w) && RunOk(w, steps) && NoRestart(steps)
    ensures Keeps(w.memory, Run(w, steps).memory)
    decreases |steps|
  {
    if steps != [] {
      assert steps[0] in steps;
      StepKeepsMemory(w, steps[0]);
      StepKeepsInv(w, steps[0]);
      RunKeepsMemory(Next(w, steps[0]).0, steps[1..]);
    }
  }

  // ---------------------------------------------------------------- the reversals, one commit each

  /** The reversal of a create removes exactly the created record. */
  lemma UndoVerbErases(s: Store, v: VerbName, id: string, key: string, digest: string -> string, o: Oracle)
    requires Compensations(v).UndoBy? && id != ""
    requires Key(Lookup(v).doctype, id) in s.rows
    requires !o.resolveDown && o.readUp && o.verifyUp && o.erase == EraseFine
    ensures UndoProposal(UndoVerb(v, id)).UndoAs? && UndoProposal(UndoVerb(v, id)).proposal.Curated?
    ensures var out := CommitCurated(s, UndoProposal(UndoVerb(v, id)).proposal, key, digest, o);
            out.Receipted? && out.ref == id && out.effect == Erased(Key(Lookup(v).doctype, id))
  {
    CompensationIsCommittable(v, id);
    var u := Compensate(v, id).verb;
    OnlyCreatesAreUndoneByVerbs(u);
    EraseTable(s, u, Lookup(v).doctype, id, key, o);
  }

  lemma EraseTable(s: Store, u: VerbName, model: string, id: string, key: string, o: Oracle)
    requires id != "" && Key(model, id) in s.rows && o.readUp && o.verifyUp && o.erase == EraseFine
    ensures var out := CommitDelete(s, u, model, id, key, o);
            out.Receipted? && out.ref == id && out.effect == Erased(Key(model, id))
  {
  }

  /** The reversal of an update patches the values it carries, as they resolve, into the record it names. */
  lemma UndoUpdatePatches(s: Store, model: string, id: string, data: Row, key: string, o: Oracle)
    requires Key(model, id) in s.rows && id != ""
    requires !o.resolveDown && o.readUp && o.verifyUp && o.write == Fine
    ensures UndoProposal(UndoGeneric(Update, model, id, data)).proposal == Generic(Update, model, id, data, None)
    ensures var out := CommitGeneric(s, Generic(Update, model, id, data, None), key, o);
            out.Receipted? && out.ref == id && out.effect == Patched(Key(model, id), Clean(Resolve(data, o)))
  {
  }

  // ---------------------------------------------------------------- round trips over runs

  /** Rollback itself writes nothing, and its proposal can be committed at any later time: `v` is the
      state after the rollback and any run without a restart. */
  lemma RollbackStands(w: World, token: nat, later: seq<Step>, v: World)
    requires Inv(w) && token in w.memory.comps
    requires RunOk(Rollback(w, token).0, later) && NoRestart(later) && v == Run(Rollback(w, token).0, later)
    ensures Rollback(w, token).0.store == w.store && Rollback(w, token).1.Proposed? && Inv(v)
    ensures var pid := Rollback(w, token).1.pid;
            pid in v.memory.proposals && UndoProposal(w.memory.comps[token]).UndoAs?
            && v.memory.proposals[pid] == UndoProposal(w.memory.comps[token]).proposal
  {
    TokenIsCoherent(w, token);
    RollbackKeepsInv(w, token);
    RunKeepsMemory(Rollback(w, token).0, later);
    RunKeepsInv(Rollback(w, token).0, later);
  }

  /** The reversal deletes this record: a verb's compensating delete, or the generic one. */
  predicate Deletes(c: Comp, k: Key) {
    match c
    case UndoVerb(v, id) => k == Key(Lookup(v).doctype, id)
    case UndoGeneric(Delete, t, id, _) => k == Key(t, id)
    case _ => false
  }

  /** The proposals whose creates are labelled reversible: generic creates, and the verbs of the
      reversal table. */
  predicate Reversible(p: Proposal) {
    p.Generic? || (p.Curated? && Compensations(p.verb).UndoBy?)
  }

  /** This commit is performed, and executed by creating a record. */
  ghost predicate CreatesNow(w: World, ws: string, key: string, pid: nat, o: Oracle) {
    && key != "" && Named(key) !in w.memory.ledger && pid in w.memory.proposals
    && Reversible(w.memory.proposals[pid])
    && var out := Perform(w.store, w.policy, w.digest, ws, w.memory.proposals[pid], key, o);
       out.Receipted? && out.effect.Created?
  }

  /** An executed create, generic, curated or an unmatched upsert, adds exactly one record and leaves a
      token that deletes it; the token outlives any run without a restart. */
  lemma CreateLeavesToken(w: World, ws: string, key: string, pid: nat, o: Oracle, between: seq<Step>, v: World)
    returns (k: Key)
    requires Inv(w) && StepOk(w, DoCommit(ws, key, pid, o)) && CreatesNow(w, ws, key, pid, o)
    requires var w1 := Commit(w, ws, key, pid, o).0;
             RunOk(w1, between) && NoRestart(between) && v == Run(w1, between)
    ensures Inv(v) && w.next in v.memory.comps && Deletes(v.memory.comps[w.next], k)
    ensures var (w1, a) := Commit(w, ws, key, pid, o);
            && a.Executed? && a.receipt.ref == k.id && a.receipt.token == Some(w.next)
            && k !in w.store.rows && k in w1.store.rows && w1.store.rows - {k} == w.store.rows
  {
    k := CreateAddsOne(w, ws, key, pid, o);
    CommitKeepsInv(w, ws, key, pid, o);
    RunKeepsMemory(Commit(w, ws, key, pid, o).0, between);
    RunKeepsInv(Commit(w, ws, key, pid, o).0, between);
  }

  lemma CreateAddsOne(w: World, ws: string, key: string, pid: nat, o: Oracle) returns (k: Key)
    requires Inv(w) && StepOk(w, DoCommit(ws, key, pid, o)) && CreatesNow(w, ws, key, pid, o)
    ensures var (w1, a) := Commit(w, ws, key, pid, o);
            && a.Executed? && a.receipt.ref == k.id && a.receipt.token == Some(w.next)
            && w.next in w1.memory.comps && Deletes(w1.memory.comps[w.next], k)
            && k !in w.store.rows && k in w1.store.rows && w1.store.rows - {k} == w.store.rows
  {
    var p := w.memory.proposals[pid];
    var out := Perform(w.store, w.policy, w.digest, ws, p, key, o);
    k := out.effect.key;
    CreateMints(w.store, w.policy, w.digest, ws, p, key, o);
    RememberedPerforms(w, ws, key, pid, o);
    assert k.id == o.newId;
    SettleMints(w, DeedOf(w, ws, key, pid, o, out.effect), out);
    ApplyCreated(w.store, k, out.effect.doc);
  }

  /** The reversal of a create, by the id of the receipt. */
  function CreateUndo(p: Proposal, id: string): Comp
    requires Reversible(p)
  {
    if p.Generic? then UndoGeneric(Delete, p.target, id, map[]) else UndoVerb(p.verb, id)
  }

  lemma CreateMints(s: Store, pol: Policy, digest: string -> string, ws: string, p: Proposal, key: string, o: Oracle)
    requires Reversible(p)
    requires var out := Perform(s, pol, digest, ws, p, key, o); out.Receipted? && out.effect.Created?
    ensures var out := Perform(s, pol, digest, ws, p, key, o); out.comp == Some(CreateUndo(p, out.ref))
  {
    if p.Curated? {
      PerformOnlyDispatches(s, pol, digest, ws, p, key, o);
      DispatchMints(s, p.verb, Lookup(p.verb), p.args, Resolve(p.native, o), key, digest, o);
    } else {
      GenericMints(s, p, key, o);
    }
  }

  lemma PerformOnlyDispatches(s: Store, pol: Policy, digest: string -> string, ws: string, p: Proposal, key: string,
                              o: Oracle)
    requires p.Curated? && Perform(s, pol, digest, ws, p, key, o).Receipted?
    ensures Perform(s, pol, digest, ws, p, key, o)
            == Dispatch(s, p.verb, Lookup(p.verb), p.args, Resolve(p.native, o), key, digest, o)
  {
  }

  lemma GenericMints(s: Store, p: Proposal, key: string, o: Oracle)
    requires p.Generic? && CommitGeneric(s, p, key, o).Receipted? && CommitGeneric(s, p, key, o).effect.Created?
    ensures var out := CommitGeneric(s, p, key, o); out.comp == Some(CreateUndo(p, out.ref))
  {
  }

  lemma ApplyCreated(s: Store, k: Key, doc: Row)
    requires k !in s.rows
    ensures var t := Apply(s, Created(k, doc)); k in t.rows && t.rows - {k} == s.rows
  {
  }

  /** Create, roll back, commit the reversal: whatever ran since, the reversal of a token that deletes a
      created record removes exactly that record and leaves every other one as it finds it. */
  lemma CreateRoundTrip(w: World, token: nat, k: Key, later: seq<Step>, w3: World, ws: string, key: string, o: Oracle)
    requires Inv(w) && token in w.memory.comps && Deletes(w.memory.comps[token], k)
    requires RunOk(Rollback(w, token).0, later) && NoRestart(later) && w3 == Run(Rollback(w, token).0, later)
    requires k in w3.store.rows && key != "" && Named(key) !in w3.memory.ledger
    requires !o.resolveDown && o.readUp && o.verifyUp && o.erase == EraseFine
    ensures Rollback(w, token).0.store == w.store && Rollback(w, token).1.Proposed?
    ensures var (w4, a) := Commit(w3, ws, key, Rollback(w, token).1.pid, o);
            a.Executed? && a.receipt.ref == k.id && w4.store == w3.store.(rows := w3.store.rows - {k})
  {
    RollbackStands(w, token, later, w3);
    TokenIsCoherent(w, token);
    ReversalErases(w3, w.memory.comps[token], k, ws, key, Rollback(w, token).1.pid, o);
  }

  lemma ReversalErases(w: World, c: Comp, k: Key, ws: string, key: string, pid: nat, o: Oracle)
    requires Deletes(c, k) && UndoProposal(c).UndoAs? && WellFormed(UndoProposal(c).proposal)
    requires c.UndoVerb? ==> Compensations(c.verb).UndoBy? && c.id != ""
    requires pid in w.memory.proposals && w.memory.proposals[pid] == UndoProposal(c).proposal
    requires k in w.store.rows && key != "" && Named(key) !in w.memory.ledger
    requires !o.resolveDown && o.readUp && o.verifyUp && o.erase == EraseFine
    ensures var (v, a) := Commit(w, ws, key, pid, o);
            a.Executed? && a.receipt.ref == k.id && v.store == w.store.(rows := w.store.rows - {k})
  {
    if c.UndoVerb? {
      UndoVerbErases(w.store, c.verb, c.id, key, w.digest, o);
    }
    var out := Perform(w.store, w.policy, w.digest, ws, w.memory.proposals[pid], key, o);
    assert out.Receipted? && out.ref == k.id && out.effect == Erased(k);
    CommitSettles(w, ws, key, pid, o);
  }

  /** Create, roll back and commit the reversal with nothing in between: every record is back as it was. */
  lemma CreateThenUndo(w: World, ws: string, key: string, pid: nat, o: Oracle, w1: World, ws2: string, key2: string,
                       o2: Oracle)
    requires Inv(w) && StepOk(w, DoCommit(ws, key, pid, o)) && CreatesNow(w, ws, key, pid, o)
    requires w1 == Commit(w, ws, key, pid, o).0
    requires key2 != "" && Named(key2) !in w1.memory.ledger
    requires !o2.resolveDown && o2.readUp && o2.verifyUp && o2.erase == EraseFine
    ensures Commit(w, ws, key, pid, o).1.Executed? && Rollback(w1, w.next).1.Proposed?
    ensures var (w3, a) := Commit(Rollback(w1, w.next).0, ws2, key2, Rollback(w1, w.next).1.pid, o2);
            a.Executed? && w3.store.rows == w.store.rows
  {
    var k := CreateLeavesToken(w, ws, key, pid, o, [], w1);
    RollbackForgetsNothing(w1, w.next);
    CreateRoundTrip(w1, w.next, k, [], Rollback(w1, w.next).0, ws2, key2, o2);
  }

  lemma RollbackForgetsNothing(w: World, token: nat)
    ensures Rollback(w, token).0.store == w.store && Rollback(w, token).0.memory.ledger == w.memory.ledger
  {
  }

  lemma DispatchMints(s: Store, v: VerbName, verb: Verb, args: Row, doc: Row, key: string, digest: string -> string,
                      o: Oracle)
    requires Compensations(v).UndoBy?
    requires var out := Dispatch(s, v, verb, args, doc, key, digest, o); out.Receipted? && out.effect.Created?
    ensures var out := Dispatch(s, v, verb, args, doc, key, digest, o); out.comp == Some(UndoVerb(v, out.ref))
  {
    match verb.op {
      case UpsertOp => UpsertMints(s, v, verb.doctype, doc, UpsertProbes(s, v, verb, args, doc, key, o), o);
      case CreateOp =>
        var effect := KeyedEffect(verb.doctype, verb.stamp, doc, Marker.IdemMarker(key, digest), o);
        var test := CarriesTest(verb.stamp, Marker.IdemMarker(key, digest));
        KeyedMints(v, effect, key, Probe(s, verb.doctype, test), Probe(AfterLost(s, effect, o), verb.doctype, test), o);
        PlainMints(v, verb.doctype, doc, key, o);
      case _ =>
    }
  }

  lemma ReceiptMints(v: VerbName, e: Effect, id: string, replay: bool, lkey: LedgerKey, readBack: bool, o: Oracle)
    requires Compensations(v).UndoBy?
    ensures var out := CuratedReceipt(v, e, id, None, replay, lkey, readBack, o);
            out.Receipted? ==> out.comp == Some(UndoVerb(v, id)) && out.ref == id
  {
  }

  lemma UpsertMints(s: Store, v: VerbName, model: string, doc: Row, found: Probed, o: Oracle)
    requires Compensations(v).UndoBy?
    ensures var out := CommitUpsert(s, v, model, doc, found, o);
            out.Receipted? && out.effect.Created? ==> out.comp == Some(UndoVerb(v, out.ref))
  {
    match found
    case NoMatch(lkey) =>
      ReceiptMints(v, CreateEffect(Key(model, o.newId), doc, o.write), o.newId, false, lkey, doc != map[], o);
    case _ =>
  }

  lemma PlainMints(v: VerbName, model: string, doc: Row, key: string, o: Oracle)
    requires Compensations(v).UndoBy?
    ensures var out := CommitPlainCreate(v, model, doc, key, o);
            out.Receipted? ==> out.comp == Some(UndoVerb(v, out.ref))
  {
    ReceiptMints(v, CreateEffect(Key(model, o.newId), doc, o.write), o.newId, false, Named(key), doc != map[], o);
  }

  lemma KeyedMints(v: VerbName, effect: Effect, key: string, first: Found, second: Found, o: Oracle)
    requires Compensations(v).UndoBy?
    ensures var out := CommitKeyedCreate(v, effect, key, first, second, o);
            out.Receipted? ==> out.comp == Some(UndoVerb(v, out.ref))
  {
    if first.One? {
      ReceiptMints(v, NoEffect, first.id, true, Named(key), true, o);
    } else if o.write == Fine {
      ReceiptMints(v, effect, o.newId, false, Named(key), true, o);
    } else if second.One? {
      ReceiptMints(v, effect, second.id, true, Named(key), true, o);
    }
  }

  lemma SettleMints(w: World, d: Deed, out: Outcome)
    requires out.Receipted? && out.comp.Some? && d.effect == out.effect
    ensures var (v, a) := Settle(w, d, out);
            && w.next in v.memory.comps && v.memory.comps[w.next] == out.comp.value
            && v.store == Apply(w.store, out.effect)
            && a.Executed? && a.receipt.token == Some(w.next) && a.receipt.ref == out.ref
  {
  }

  lemma CommitSettles(w: World, ws: string, key: string, pid: nat, o: Oracle)
    requires key != "" && Named(key) !in w.memory.ledger && pid in w.memory.proposals
    ensures var out := Perform(w.store, w.policy, w.digest, ws, w.memory.proposals[pid], key, o);
            var (v, a) := Commit(w, ws, key, pid, o);
            v.store == Apply(w.store, out.effect) && (out.Receipted? ==> a.Executed? && a.receipt.ref == out.ref)
  {
  }

  /** Update, roll back, commit the reversal, for the before-image path: the record gets back the
      values of the patched fields, as they resolve; its other fields and every other record keep what
      they hold. */
  lemma UpdateRoundTrip(w: World, token: nat, model: string, id: string, image: Row, later: seq<Step>, w3: World,
                        ws: string, key: string, o: Oracle)
    requires Inv(w) && token in w.memory.comps && id != ""
             && w.memory.comps[token] == UndoGeneric(Update, model, id, image)
    requires RunOk(Rollback(w, token).0, later) && NoRestart(later) && w3 == Run(Rollback(w, token).0, later)
    requires Key(model, id) in w3.store.rows && key != "" && Named(key) !in w3.memory.ledger
    requires !o.resolveDown && o.readUp && o.verifyUp && o.write == Fine
    ensures Rollback(w, token).0.store == w.store && Rollback(w, token).1.Proposed?
    ensures var (w4, a) := Commit(w3, ws, key, Rollback(w, token).1.pid, o);
            a.Executed? && a.receipt.ref == id && Restored(w3.store, w4.store, Key(model, id), Resolve(image, o))
  {
    RollbackStands(w, token, later, w3);
    UndoUpdatePatches(w3.store, model, id, image, key, o);
    CommitSettles(w3, ws, key, Rollback(w, token).1.pid, o);
    PatchRestores(w3.store, Key(model, id), Resolve(image, o));
  }

  /** This commit is performed, and executed by patching a record that a before-image restores: an
      update with that strategy, or a matched upsert. */
  ghost predicate PatchesNow(w: World, ws: string, key: string, pid: nat, o: Oracle) {
    && key != "" && Named(key) !in w.memory.ledger && pid in w.memory.proposals
    && var p := w.memory.proposals[pid];
       && p.Curated? && (IsUpsert(p) || (Lookup(p.verb).op == UpdateOp && Compensations(p.verb) == BeforeImage))
       && var out := Perform(w.store, w.policy, w.digest, ws, p, key, o);
          out.Receipted? && out.effect.Patched?
  }

  /** Update, roll back and commit the reversal with nothing in between: every record is back as it
      was, but for the patched fields that had no value. The values restored are ids and keys already, so
      that resolving them once more leaves them alone. */
  lemma UpdateThenUndo(w: World, ws: string, key: string, pid: nat, o: Oracle, w1: World, ws2: string, key2: string,
                       o2: Oracle)
    requires Inv(w) && StepOk(w, DoCommit(ws, key, pid, o)) && PatchesNow(w, ws, key, pid, o)
    requires w1 == Commit(w, ws, key, pid, o).0
    requires key2 != "" && Named(key2) !in w1.memory.ledger
    requires w.next in w1.memory.comps && LeavesAlone(w1.memory.comps[w.next], o2)
    requires !o2.resolveDown && o2.readUp && o2.verifyUp && o2.write == Fine
    ensures Commit(w, ws, key, pid, o).1.Executed? && Rollback(w1, w.next).1.Proposed?
    ensures var p := w.memory.proposals[pid];
            var (w3, a) := Commit(Rollback(w1, w.next).0, ws2, key2, Rollback(w1, w.next).1.pid, o2);
            && a.Executed?
            && BackAsItWas(w.store, w3.store, Key(Lookup(p.verb).doctype, a.receipt.ref), Resolve(p.native, o))
  {
    var p := w.memory.proposals[pid];
    var doc := Resolve(p.native, o);
    var id := UpdateLeavesImage(w, ws, key, pid, o, w1);
    PatchUndone(w.store, Key(Lookup(p.verb).doctype, id), doc, w1, w.next, ws2, key2, o2);
  }

  /** Resolution leaves the values of the reversal as they are. */
  predicate LeavesAlone(c: Comp, o: Oracle) {
    c.UndoGeneric? ==> Resolve(c.data, o) == c.data
  }

  lemma PatchUndone(s: Store, k: Key, doc: Row, w1: World, token: nat, ws: string, key: string, o: Oracle)
    requires Inv(w1) && token in w1.memory.comps && k.id != "" && k in s.rows
    requires w1.store == Apply(s, Patched(k, Clean(doc))) && LeavesAlone(w1.memory.comps[token], o)
    requires w1.memory.comps[token] == UndoGeneric(Update, k.model, k.id, Snapshot(s.rows[k], doc))
    requires key != "" && Named(key) !in w1.memory.ledger
    requires !o.resolveDown && o.readUp && o.verifyUp && o.write == Fine
    ensures Rollback(w1, token).1.Proposed?
    ensures var (w3, a) := Commit(Rollback(w1, token).0, ws, key, Rollback(w1, token).1.pid, o);
            a.Executed? && a.receipt.ref == k.id && BackAsItWas(s, w3.store, k, doc)
  {
    RollbackForgetsNothing(w1, token);
    var w2 := Rollback(w1, token).0;
    UpdateRoundTrip(w1, token, k.model, k.id, Snapshot(s.rows[k], doc), [], w2, ws, key, o);
    RestoredIsBack(s, w1.store, Commit(w2, ws, key, Rollback(w1, token).1.pid, o).0.store, k, doc);
  }

  /** One record may differ, and only in fields of `doc` that had no value. */
  ghost predicate BackAsItWas(s: Store, t: Store, k: Key, doc: Row) {
    && k in s.rows && t.rows.Keys == s.rows.Keys
    && (forall j | j in s.rows && j != k :: t.rows[j] == s.rows[j])
    && (forall f | !(f in doc && f != "id" && Field(s.rows[k], f) == Null) ::
          Field(t.rows[k], f) == Field(s.rows[k], f))
  }

  lemma RestoredIsBack(s: Store, s1: Store, s2: Store, k: Key, doc: Row)
    requires k in s.rows && s1 == Apply(s, Patched(k, Clean(doc))) && Restored(s1, s2, k, Snapshot(s.rows[k], doc))
    ensures BackAsItWas(s, s2, k, doc)
  {
    assert s1.rows[k] == s.rows[k] + Clean(doc);
    assert Snapshot(s.rows[k], doc).Keys == doc.Keys;
    forall f | f !in doc || f == "id" ensures Field(s1.rows[k], f) == Field(s.rows[k], f) {}
    forall f | f in doc ensures Field(Snapshot(s.rows[k], doc), f) == Field(s.rows[k], f) {}
  }

  lemma UpdateLeavesImage(w: World, ws: string, key: string, pid: nat, o: Oracle, w1: World) returns (id: string)
    requires Inv(w) && StepOk(w, DoCommit(ws, key, pid, o)) && PatchesNow(w, ws, key, pid, o)
    requires w1 == Commit(w, ws, key, pid, o).0
    ensures Inv(w1) && Commit(w, ws, key, pid, o).1.Executed? && w.next in w1.memory.comps && id != ""
    ensures var p := w.memory.proposals[pid];
            var k := Key(Lookup(p.verb).doctype, id);
            var doc := Resolve(p.native, o);
            && k in w.store.rows && w1.store == Apply(w.store, Patched(k, Clean(doc)))
            && w1.memory.comps[w.next] == UndoGeneric(Update, k.model, id, Snapshot(w.store.rows[k], doc))
  {
    var p := w.memory.proposals[pid];
    var out := Perform(w.store, w.policy, w.digest, ws, p, key, o);
    id := out.ref;
    PatchMints(w.store, w.policy, w.digest, ws, p, key, o);
    RememberedPerforms(w, ws, key, pid, o);
    CommitKeepsInv(w, ws, key, pid, o);
    SettleMints(w, DeedOf(w, ws, key, pid, o, out.effect), out);
  }

  /** The outcome patches the record it names and mints what that record held. */
  ghost predicate MintsImage(s: Store, model: string, doc: Row, out: Outcome) {
    && out.Receipted?
    && (var k := Key(model, out.ref);
        && k in s.rows && out.effect == Patched(k, Clean(doc))
        && out.comp == Some(UndoGeneric(Update, model, out.ref, Snapshot(s.rows[k], doc))))
  }

  predicate IsPatch(out: Outcome) {
    out.Receipted? && out.effect.Patched?
  }

  lemma PatchMints(s: Store, pol: Policy, digest: string -> string, ws: string, p: Proposal, key: string, o: Oracle)
    requires p.Curated? && (IsUpsert(p) || (Lookup(p.verb).op == UpdateOp && Compensations(p.verb) == BeforeImage))
    requires IsPatch(Perform(s, pol, digest, ws, p, key, o))
    ensures MintsImage(s, Lookup(p.verb).doctype, Resolve(p.native, o), Perform(s, pol, digest, ws, p, key, o))
  {
    PerformOnlyDispatches(s, pol, digest, ws, p, key, o);
    DispatchPatches(s, p.verb, Lookup(p.verb), p.args, Resolve(p.native, o), key, digest, o);
  }

  lemma DispatchPatches(s: Store, v: VerbName, verb: Verb, args: Row, doc: Row, key: string, digest: string -> string,
                        o: Oracle)
    requires verb.op == UpsertOp || (verb.op == UpdateOp && Compensations(v) == BeforeImage)
    requires IsPatch(Dispatch(s, v, verb, args, doc, key, digest, o))
    ensures MintsImage(s, verb.doctype, doc, Dispatch(s, v, verb, args, doc, key, digest, o))
  {
    if verb.op == UpsertOp {
      MatchMintsImage(s, v, verb.doctype, doc, UpsertProbes(s, v, verb, args, doc, key, o), o);
    } else {
      UpdateMints(s, v, verb.doctype, TargetArg(verb, args), doc, key, o);
    }
  }

  lemma MatchMintsImage(s: Store, v: VerbName, model: string, doc: Row, found: Probed, o: Oracle)
    requires IsPatch(CommitUpsert(s, v, model, doc, found, o))
    ensures MintsImage(s, model, doc, CommitUpsert(s, v, model, doc, found, o))
  {
  }

  lemma UpdateMints(s: Store, v: VerbName, model: string, raw: string, doc: Row, key: string, o: Oracle)
    requires Compensations(v) == BeforeImage && IsPatch(CommitUpdate(s, v, model, raw, doc, key, o))
    ensures MintsImage(s, model, doc, CommitUpdate(s, v, model, raw, doc, key, o))
  {
  }

  lemma PatchRestores(s: Store, k: Key, image: Row)
    requires k in s.rows
    ensures Restored(s, Apply(s, Patched(k, Clean(image))), k, image)
  {
    PatchedFields(s.rows[k], image);
  }

  /** `after` is `s` with the fields of the image in one record at the values the image has for them; a
      field it has no value for is left alone. */
  ghost predicate Restored(s: Store, after: Store, k: Key, image: Row) {
    && k in s.rows && after.rows.Keys == s.rows.Keys && after.used == s.used && after.calls == s.calls
    && (forall j | j in s.rows && j != k :: after.rows[j] == s.rows[j])
    && (forall f :: Field(after.rows[k], f)
                    == if f != "id" && Field(image, f) != Null then Field(image, f) else Field(s.rows[k], f))
  }

  lemma PatchedFields(row: Row, image: Row)
    ensures forall f ::
              Field(row + Clean(image), f)
              == if f != "id" && Field(image, f) != Null then Field(image, f) else Field(row, f)
  {
  }

  /** The before-image of a commit is the record as that commit found it. */
  lemma CommitMintsBeforeImage(s: Store, v: VerbName, model: string, raw: string, doc: Row, key: string, o: Oracle,
                               found: Probed)
    ensures var out := CommitUpdate(s, v, model, raw, doc, key, o);
            out.Receipted? && Compensations(v) == BeforeImage ==>
              out.comp == Some(UndoGeneric(Update, model, out.ref, Snapshot(s.rows[Key(model, out.ref)], doc)))
              && out.effect == Patched(Key(model, out.ref), Clean(doc))
    ensures var out := CommitUpsert(s, v, model, doc, found, o);
            out.Receipted? && found.Match? ==>
              out.comp == Some(UndoGeneric(Update, model, out.ref, Snapshot(s.rows[Key(model, out.ref)], doc)))
              && out.effect == Patched(Key(model, out.ref), Clean(doc))
  {
    MatchMintsBeforeImage(s, v, model, doc, found, o);
  }

  lemma MatchMintsBeforeImage(s: Store, v: VerbName, model: string, doc: Row, found: Probed, o: Oracle)
    ensures var out := CommitUpsert(s, v, model, doc, found, o);
            out.Receipted? && found.Match? ==>
              out.comp == Some(UndoGeneric(Update, model, out.ref, Snapshot(s.rows[Key(model, out.ref)], doc)))
              && out.effect == Patched(Key(model, out.ref), Clean(doc))
  {
  }

  /** A patched field is restored exactly when it had a value before, or has none now: an unset value
      is dropped from the write that should restore it. */
  lemma FieldRestoredExactlyWhen(row: Row, before: Row, doc: Row, f: string)
    requires f in doc && f != "id"
    ensures Field(row + Clean(Snapshot(before, doc)), f) == Field(before, f)
            <==> Field(before, f) != Null || Field(row, f) == Null
  {
    PatchedFields(row, Snapshot(before, doc));
  }

  /** The reversal of a generic update carries the whole record as the update found it. Written over
      whatever the record holds by then, it sets every field that had a value back to it, the ones
      others edited meanwhile included, and leaves exactly the others alone. */
  lemma GenericUndoClobbers(s: Store, p: Proposal, key: string, o: Oracle, row: Row)
    requires p.Generic? && p.op == Update && CommitGeneric(s, p, key, o).Receipted?
    ensures var out := CommitGeneric(s, p, key, o);
            var before := s.rows[Key(p.target, out.ref)];
            && Key(p.target, out.ref) in s.rows
            && out.comp == Some(UndoGeneric(Update, p.target, out.ref, before))
            && (forall f :: Field(row + Clean(before), f)
                            == if f != "id" && Field(before, f) != Null then Field(before, f) else Field(row, f))
  {
  }

  // ---------------------------------------------------------------- deletes

  /** A generic delete, rolled back, with its reversal committed: the row is back under a new id, without
      its unset values and its old id, and every other record is as it was. */
  lemma DeleteThenUndo(w: World, ws: string, key: string, pid: nat, o: Oracle, w1: World, ws2: string, key2: string,
                       o2: Oracle)
    requires Inv(w) && StepOk(w, DoCommit(ws, key, pid, o))
    requires key != "" && Named(key) !in w.memory.ledger && pid in w.memory.proposals
    requires var p := w.memory.proposals[pid];
             p.Generic? && p.op == Delete && CommitGeneric(w.store, p, key, o).Receipted?
             && CommitGeneric(w.store, p, key, o).effect.Erased?
    requires w1 == Commit(w, ws, key, pid, o).0
    requires key2 != "" && Named(key2) !in w1.memory.ledger
    requires w.next in w1.memory.comps && LeavesAlone(w1.memory.comps[w.next], o2)
    requires !o2.resolveDown && o2.verifyUp && o2.write == Fine
    ensures Commit(w, ws, key, pid, o).1.Executed? && Rollback(w1, w.next).1.Proposed?
    ensures var k := Key(w.memory.proposals[pid].target, Commit(w, ws, key, pid, o).1.receipt.ref);
            var (w3, a) := Commit(Rollback(w1, w.next).0, ws2, key2, Rollback(w1, w.next).1.pid, o2);
            && k in w.store.rows && a.Executed? && a.receipt.ref == o2.newId
            && w3.store.rows == (w.store.rows - {k})[Key(k.model, o2.newId) := Clean(w.store.rows[k])]
  {
    var k := DeleteLeavesRow(w, ws, key, pid, o, w1);
    RollbackStands(w1, w.next, [], Rollback(w1, w.next).0);
    RollbackForgetsNothing(w1, w.next);
    RowIsCreated(Rollback(w1, w.next).0, ws2, key2, Rollback(w1, w.next).1.pid, k.model, w.store.rows[k], o2);
  }

  lemma DeleteLeavesRow(w: World, ws: string, key: string, pid: nat, o: Oracle, w1: World) returns (k: Key)
    requires Inv(w) && StepOk(w, DoCommit(ws, key, pid, o))
    requires key != "" && Named(key) !in w.memory.ledger && pid in w.memory.proposals
    requires var p := w.memory.proposals[pid];
             p.Generic? && p.op == Delete && CommitGeneric(w.store, p, key, o).Receipted?
             && CommitGeneric(w.store, p, key, o).effect.Erased?
    requires w1 == Commit(w, ws, key, pid, o).0
    ensures Inv(w1) && Commit(w, ws, key, pid, o).1.Executed?
    ensures k == Key(w.memory.proposals[pid].target, Commit(w, ws, key, pid, o).1.receipt.ref)
    ensures k in w.store.rows && w1.store.rows == w.store.rows - {k}
    ensures w.next in w1.memory.comps && w1.memory.comps[w.next] == UndoGeneric(Create, k.model, "", w.store.rows[k])
  {
    var p := w.memory.proposals[pid];
    var out := CommitGeneric(w.store, p, key, o);
    k := Key(p.target, out.ref);
    CommitKeepsInv(w, ws, key, pid, o);
    ErasedMints(w.store, p, key, o);
    SettleMints(w, DeedOf(w, ws, key, pid, o, out.effect), out);
  }

  lemma ErasedMints(s: Store, p: Proposal, key: string, o: Oracle)
    requires p.Generic? && p.op == Delete && CommitGeneric(s, p, key, o).Receipted?
             && CommitGeneric(s, p, key, o).effect.Erased?
    ensures var out := CommitGeneric(s, p, key, o);
            var k := Key(p.target, out.ref);
            && k in s.rows && out.effect == Erased(k) && out.comp == Some(UndoGeneric(Create, p.target, "", s.rows[k]))
  {
  }

  lemma RowIsCreated(w: World, ws: string, key: string, pid: nat, model: string, row: Row, o: Oracle)
    requires pid in w.memory.proposals && w.memory.proposals[pid] == Generic(Create, model, "", row, None)
    requires key != "" && Named(key) !in w.memory.ledger && Resolve(row, o) == row
    requires !o.resolveDown && o.verifyUp && o.write == Fine
    ensures var (v, a) := Commit(w, ws, key, pid, o);
            a.Executed? && a.receipt.ref == o.newId && v.store.rows == w.store.rows[Key(model, o.newId) := Clean(row)]
  {
    CommitSettles(w, ws, key, pid, o);
  }

  /** This commit calls a method that has an inverse. */
  ghost predicate CallsNow(w: World, ws: string, key: string, pid: nat, o: Oracle) {
    && key != "" && Named(key) !in w.memory.ledger && pid in w.memory.proposals
    && var out := Perform(w.store, w.policy, w.digest, ws, w.memory.proposals[pid], key, o);
       out.Receipted? && out.effect.Called? && out.comp.Some?
  }

  /** Call a workflow method, roll back, commit the reversal: Odoo was called twice, for the method and
      then for the inverse its grant or its verb declares, on the same record, and no record changed. */
  lemma CallThenUndo(w: World, ws: string, key: string, pid: nat, o: Oracle, w1: World, undo: (World, Answer),
                     ws2: string, key2: string, o2: Oracle, done: (World, Answer))
    requires Inv(w) && StepOk(w, DoCommit(ws, key, pid, o)) && CallsNow(w, ws, key, pid, o)
    requires w1 == Commit(w, ws, key, pid, o).0 && undo == Rollback(w1, w.next)
    requires undo.1.Proposed? ==> done == Commit(undo.0, ws2, key2, undo.1.pid, o2)
    requires key2 != "" && Named(key2) !in w1.memory.ledger
    requires o2.readUp && o2.call == CallFine && o2.alias.None?
    ensures Commit(w, ws, key, pid, o).1.Executed? && undo.1.Proposed? && done.1.Executed?
    ensures CalledTwice(ShapeOf(w.memory.proposals[pid]), Commit(w, ws, key, pid, o).1.receipt.ref,
                        InverseOf(ShapeOf(w.memory.proposals[pid]), SceneOf(w, ws, key, o)), w.store, done.0.store)
    ensures undo.1.tier == ShapeOf(w.memory.proposals[pid]).tier
    ensures done.1.receipt.ref == Commit(w, ws, key, pid, o).1.receipt.ref
  {
    var q := ShapeOf(w.memory.proposals[pid]);
    var id := CallLeavesInverse(w, ws, key, pid, o, w1);
    var inverse := InverseOf(q, SceneOf(w, ws, key, o));
    RollbackStands(w1, w.next, [], undo.0);
    RollbackForgetsNothing(w1, w.next);
    InverseIsCalled(undo.0, ws2, key2, undo.1.pid, MethodCall(q.model, id, inverse, q.tier), o2);
    TwoCalls(w.store, w1.store, done.0.store, q, id, inverse);
  }

  /** Between the two stores Odoo was called for the method and then for its inverse, and nothing else. */
  ghost predicate CalledTwice(q: Shape, id: string, inverse: string, s: Store, t: Store) {
    && inverse != ""
    && t.rows == s.rows && t.used == s.used
    && t.calls == s.calls + [Call(q.model, id, q.action), Call(q.model, id, inverse)]
  }

  lemma TwoCalls(s: Store, s1: Store, s2: Store, q: Shape, id: string, inverse: string)
    requires s1 == Apply(s, Called(Call(q.model, id, q.action)))
    requires s2 == Apply(s1, Called(Call(q.model, id, inverse))) && inverse != ""
    ensures CalledTwice(q, id, inverse, s, s2)
  {
  }

  lemma CallLeavesInverse(w: World, ws: string, key: string, pid: nat, o: Oracle, w1: World) returns (id: string)
    requires Inv(w) && StepOk(w, DoCommit(ws, key, pid, o)) && CallsNow(w, ws, key, pid, o)
    requires w1 == Commit(w, ws, key, pid, o).0
    ensures Inv(w1) && Commit(w, ws, key, pid, o).1.Executed? && id == Commit(w, ws, key, pid, o).1.receipt.ref
    ensures var q := ShapeOf(w.memory.proposals[pid]);
            var inverse := InverseOf(q, SceneOf(w, ws, key, o));
            && inverse != "" && w.next in w1.memory.comps
            && w1.memory.comps[w.next] == UndoMethod(q.model, id, inverse, q.tier)
            && w1.store == Apply(w.store, Called(Call(q.model, id, q.action)))
  {
    var p := w.memory.proposals[pid];
    var out := Perform(w.store, w.policy, w.digest, ws, p, key, o);
    id := out.ref;
    RememberedPerforms(w, ws, key, pid, o);
    CommitKeepsInv(w, ws, key, pid, o);
    SettleMints(w, DeedOf(w, ws, key, pid, o, out.effect), out);
    Endings.ReceiptSays(w.store, w.policy, w.digest, ws, p, key, o);
    UndoneByInverse(ShapeOf(p), SceneOf(w, ws, key, o), out.effect, out.comp.value);
  }

  /** Only an inverse method undoes a call. */
  lemma UndoneByInverse(q: Shape, c: Scene, e: Effect, comp: Comp)
    requires e.Called? && Fits(q, c, e) && Undoes(q, c, e, comp)
    ensures comp == UndoMethod(q.model, e.call.id, InverseOf(q, c), q.tier) && InverseOf(q, c) != ""
    ensures e == Called(Call(q.model, e.call.id, q.action))
  {
  }

  lemma InverseIsCalled(w: World, ws: string, key: string, pid: nat, p: Proposal, o: Oracle)
    requires pid in w.memory.proposals && w.memory.proposals[pid] == p && p.MethodCall?
    requires key != "" && Named(key) !in w.memory.ledger
    requires o.readUp && o.call == CallFine && o.alias.None?
    ensures var (v, a) := Commit(w, ws, key, pid, o);
            && a.Executed? && a.receipt.ref == p.id
            && v.store == Apply(w.store, Called(Call(p.target, p.id, p.action)))
  {
    CommitSettles(w, ws, key, pid, o);
  }

  // ---------------------------------------------------------------- the state-witness

  /** What a granted generic update is bound to: the values its fields hold in the record its id stands
      for, exactly when the id stands for one and there are fields. */
  lemma BoundExactlyWhen(rows: map<Key, Row>, pol: Policy, ws: string, q: Request, a: ProposeOracle)
    requires q.AskGeneric? && q.op == Some(Update) && Decide(rows, pol, ws, q, a).Grant?
    ensures var p := Decide(rows, pol, ws, q, a).proposal;
            var id := ResolveId(rows, q.target, q.id, a.alias);
            && q.data.Some? && p == Generic(Update, q.target, q.id, q.data.value, p.bound) && q.id != ""
            && (p.bound.Some? <==> id.Some? && q.data.value != map[])
            && (p.bound.Some? ==> p.bound.value == Snapshot(RowAt(rows, Key(q.target, id.value)), q.data.value))
  {
    var data := q.data.value;
    assert Decide(rows, pol, ws, q, a).proposal.bound == Witness(rows, Update, q.target, q.id, data, a.alias);
    forall row: Row ensures Snapshot(row, data) == map[] <==> data == map[] {
      assert Snapshot(row, data).Keys == data.Keys;
    }
  }

  /** Guarded by what was seen: whatever the store and the answers, the proposal patches a record only
      while the fields it writes hold those values there. */
  ghost predicate Guarded(p: Proposal, seen: Row)
    requires p.Generic?
  {
    forall s, key, o :: var e := CommitGeneric(s, p, key, o).effect;
      e != NoEffect ==> e.Patched? && e.key in s.rows && Snapshot(s.rows[e.key], p.data) == seen
  }

  lemma BoundGuards(p: Proposal, s: Store, key: string, o: Oracle)
    requires p.Generic? && p.op == Update && p.bound.Some?
    ensures var e := CommitGeneric(s, p, key, o).effect;
            e != NoEffect ==> e.Patched? && e.key in s.rows && Snapshot(s.rows[e.key], p.data) == p.bound.value
    ensures var id := ResolveId(s.rows, p.target, p.id, o.alias);
            !o.resolveDown && o.readUp && id.Some? && Snapshot(s.rows[Key(p.target, id.value)], p.data) != p.bound.value
            ==> CommitGeneric(s, p, key, o) == Stop(NoEffect, Refusal(PreconditionFailed))
  {
    forall row: Row ensures Snapshot(row, Resolve(p.data, o)) == Snapshot(row, p.data) {}
  }

  lemma UnboundPatches(p: Proposal, s: Store, key: string, o: Oracle)
    requires p.Generic? && p.op == Update && p.bound.None? && p.id != "" && Key(p.target, p.id) in s.rows
    requires !o.resolveDown && o.readUp && o.write == Fine
    ensures CommitGeneric(s, p, key, o).effect == Patched(Key(p.target, p.id), Clean(Resolve(p.data, o)))
  {
  }

  /** No stale write, exactly when: a granted generic update is guarded by what it previewed if and
      only if its id stood for a record at PROPOSE, or it writes no field at all. */
  lemma WitnessGuardsExactlyWhen(rows: map<Key, Row>, pol: Policy, ws: string, q: Request, a: ProposeOracle)
    requires q.AskGeneric? && q.op == Some(Update) && Decide(rows, pol, ws, q, a).Grant?
    ensures Decide(rows, pol, ws, q, a).proposal.Generic? && q.data.Some?
    ensures (exists seen :: Guarded(Decide(rows, pol, ws, q, a).proposal, seen))
            <==> ResolveId(rows, q.target, q.id, a.alias).Some? || q.data.value == map[]
  {
    BoundExactlyWhen(rows, pol, ws, q, a);
    var p := Decide(rows, pol, ws, q, a).proposal;
    if p.bound.Some? {
      forall s, key, o
        ensures var e := CommitGeneric(s, p, key, o).effect;
                e != NoEffect ==> e.Patched? && e.key in s.rows && Snapshot(s.rows[e.key], p.data) == p.bound.value
      {
        BoundGuards(p, s, key, o);
      }
      assert Guarded(p, p.bound.value);
    } else if p.data == map[] {
      EmptyIsGuarded(p);
    } else {
      forall seen ensures !Guarded(p, seen) {
        NothingGuards(p, seen);
      }
    }
  }

  lemma EmptyIsGuarded(p: Proposal)
    requires p.Generic? && p.op == Update && p.data == map[]
    ensures Guarded(p, map[])
  {
    forall s, key, o
      ensures var e := CommitGeneric(s, p, key, o).effect;
              e != NoEffect ==> e.Patched? && e.key in s.rows && Snapshot(s.rows[e.key], p.data) == map[]
    {
    }
  }

  /** Unbound, it overwrites any two values of one field alike. */
  lemma NothingGuards(p: Proposal, seen: Row)
    requires p.Generic? && p.op == Update && p.bound.None? && p.id != "" && p.data != map[]
    ensures !Guarded(p, seen)
  {
    var f :| f in p.data;
    var k := Key(p.target, p.id);
    var s0, s1 := Store(map[k := map[f := Num(0)]], {k}, []), Store(map[k := map[f := Num(1)]], {k}, []);
    var o := Oracle(false, map[], true, true, true, true, {}, true, None, "new", Fine, EraseFine, CallFine, true);
    UnboundPatches(p, s0, "key", o);
    UnboundPatches(p, s1, "key", o);
    assert Snapshot(s0.rows[k], p.data)[f] == Num(0) && Snapshot(s1.rows[k], p.data)[f] == Num(1);
    assert CommitGeneric(s0, p, "key", o).effect != NoEffect && CommitGeneric(s1, p, "key", o).effect != NoEffect;
  }

  /** The failing input: a partner that is not there when the update is proposed, and is when it is
      committed. The shipped policy grants the update, and it is patched unseen. */
  lemma AbsentAtProposeIsUnguarded(rows: map<Key, Row>, ws: string, data: Row, a: ProposeOracle, s: Store, key: string,
                                   o: Oracle)
    requires Key("res.partner", "77") !in rows && a.alias.None? && a.exists_ && a.gate.None?
    requires Key("res.partner", "77") in s.rows && !o.resolveDown && o.readUp && o.write == Fine
    ensures var d := Decide(rows, SHIPPED, ws, AskGeneric(Some(Update), "res.partner", "77", Some(data)), a);
            && d.Grant? && d.proposal == Generic(Update, "res.partner", "77", data, None)
            && CommitGeneric(s, d.proposal, key, o).effect == Patched(Key("res.partner", "77"), Clean(Resolve(data, o)))
  {
    assert "res.partner" in DECLARED_TARGETS;
    UnboundPatches(Generic(Update, "res.partner", "77", data, None), s, key, o);
  }

  /** The record patched is the one the id stands for at COMMIT. It is the previewed one when the id is
      a record's own id both times; a human identifier may have come to stand for another record, and
      then only the values are compared. */
  lemma PatchedIsNamedAtCommit(p: Proposal, s: Store, key: string, o: Oracle)
    requires p.Generic? && p.op == Update
    ensures var e := CommitGeneric(s, p, key, o).effect;
            var id := ResolveId(s.rows, p.target, p.id, o.alias);
            e != NoEffect ==> e.Patched? && id.Some? && e.key == Key(p.target, id.value)
                              && (Key(p.target, p.id) in s.rows ==> e.key == Key(p.target, p.id))
  {
  }

  // ---------------------------------------------------------------- convergent verbs

  /** Status by key calls a convergent verb safe to commit again. For an update, whatever the record
      argument is and whatever happens to either commit: the second one leaves the store as it finds it
      exactly when it does not land, the first one landed on the record it lands on, or its patch changes
      nothing there. */
  lemma ConvergentUpdateIsIdleExactlyWhen(s: Store, v: VerbName, model: string, raw: string, doc: Row,
                                          key1: string, key2: string, o1: Oracle, o2: Oracle)
    ensures var id1, id2 := ResolveOr(s.rows, model, raw, o1.alias), ResolveOr(s.rows, model, raw, o2.alias);
            var e1 := CommitUpdate(s, v, model, raw, doc, key1, o1).effect;
            var s1 := Apply(s, e1);
            var e2 := CommitUpdate(s1, v, model, raw, doc, key2, o2).effect;
            Apply(s1, e2) == s1
            <==> e2 == NoEffect || (e1 != NoEffect && id1 == id2) || Apply(s, Patched(Key(model, id2), Clean(doc))) == s
  {
    var k1 := Key(model, ResolveOr(s.rows, model, raw, o1.alias));
    var k2 := Key(model, ResolveOr(s.rows, model, raw, o2.alias));
    var e1 := CommitUpdate(s, v, model, raw, doc, key1, o1).effect;
    var s1 := Apply(s, e1);
    UpdatesOnly(s, v, model, raw, doc, key1, o1);
    UpdatesOnly(s1, v, model, raw, doc, key2, o2);
    SameKeysResolveAlike(s, s1, model, raw, o2.alias);
    if k1 == k2 {
      if k1 in s.rows {
        UpdateTwice(s, k1, doc);
      }
    } else {
      PatchElsewhere(s, k1, k2, doc);
    }
  }

  lemma UpdatesOnly(s: Store, v: VerbName, model: string, raw: string, doc: Row, key: string, o: Oracle)
    ensures var e := CommitUpdate(s, v, model, raw, doc, key, o).effect;
            var k := Key(model, ResolveOr(s.rows, model, raw, o.alias));
            (e == NoEffect || (e == Patched(k, Clean(doc)) && k in s.rows)) && Apply(s, e).rows.Keys == s.rows.Keys
  {
  }

  lemma SameKeysResolveAlike(s: Store, t: Store, model: string, raw: string, alias: Option<string>)
    requires s.rows.Keys == t.rows.Keys
    ensures ResolveOr(t.rows, model, raw, alias) == ResolveOr(s.rows, model, raw, alias)
  {
  }

  /** Patching one record changes nothing in the effect of patching another. */
  lemma PatchElsewhere(s: Store, k1: Key, k2: Key, doc: Row)
    requires k1 != k2
    ensures var s1 := Apply(s, Patched(k1, Clean(doc)));
            Apply(s1, Patched(k2, Clean(doc))) == s1 <==> Apply(s, Patched(k2, Clean(doc))) == s
  {
    var s1 := Apply(s, Patched(k1, Clean(doc)));
    if k2 in s.rows {
      assert s1.rows[k2] == s.rows[k2];
      PatchIsIdleExactlyWhen(s1, k2, Clean(doc));
      PatchIsIdleExactlyWhen(s, k2, Clean(doc));
    }
  }

  lemma PatchIsIdleExactlyWhen(s: Store, k: Key, patch: Row)
    requires k in s.rows
    ensures Apply(s, Patched(k, patch)) == s <==> s.rows[k] + patch == s.rows[k]
  {
    assert Apply(s, Patched(k, patch)).rows[k] == s.rows[k] + patch;
    if s.rows[k] + patch == s.rows[k] {
      assert s.rows[k := s.rows[k]] == s.rows;
    }
  }

  lemma UpdateTwice(s: Store, k: Key, doc: Row)
    requires k in s.rows
    ensures var e := Patched(k, Clean(doc)); Apply(Apply(s, e), e) == Apply(s, e)
  {
    var once := s.rows[k] + Clean(doc);
    assert once + Clean(doc) == once;
    assert s.rows[k := once][k := once] == s.rows[k := once];
  }

  /** The failing input: a human identifier that stood for one record at the first commit stands for
      another at the second. Both are patched. */
  lemma MovedIdentifierPatchesTwo(s: Store, v: VerbName, model: string, raw: string, doc: Row, a: string, b: string,
                                  key1: string, key2: string, o1: Oracle, o2: Oracle)
    requires raw != "" && Key(model, raw) !in s.rows && Key(model, a) in s.rows && Key(model, b) in s.rows && a != b
    requires o1.alias == Some(a) && o1.readUp && o1.write == Fine && o2.alias == Some(b) && o2.readUp
             && o2.write == Fine
    requires s.rows[Key(model, b)] + Clean(doc) != s.rows[Key(model, b)]
    ensures var s1 := Apply(s, CommitUpdate(s, v, model, raw, doc, key1, o1).effect);
            var e2 := CommitUpdate(s1, v, model, raw, doc, key2, o2).effect;
            e2 == Patched(Key(model, b), Clean(doc)) && Apply(s1, e2) != s1
  {
    ConvergentUpdateIsIdleExactlyWhen(s, v, model, raw, doc, key1, key2, o1, o2);
    PatchIsIdleExactlyWhen(s, Key(model, b), Clean(doc));
  }

  /** For a delete: exactly when the second one does not land, the first one landed on the id the second
      one resolves to, or that id names no record. */
  lemma ConvergentDeleteIsIdleExactlyWhen(s: Store, v: VerbName, model: string, raw: string,
                                          key1: string, key2: string, o1: Oracle, o2: Oracle)
    ensures var e1 := CommitDelete(s, v, model, raw, key1, o1).effect;
            var s1 := Apply(s, e1);
            var id1, id2 := ResolveOr(s.rows, model, raw, o1.alias), ResolveOr(s1.rows, model, raw, o2.alias);
            var e2 := CommitDelete(s1, v, model, raw, key2, o2).effect;
            Apply(s1, e2) == s1 <==> e2 == NoEffect || (e1 != NoEffect && id1 == id2) || Key(model, id2) !in s.rows
  {
    var e1 := CommitDelete(s, v, model, raw, key1, o1).effect;
    var s1 := Apply(s, e1);
    DeletesOnly(s, v, model, raw, key1, o1);
    DeletesOnly(s1, v, model, raw, key2, o2);
    EraseIsIdleExactlyWhen(s1, Key(model, ResolveOr(s1.rows, model, raw, o2.alias)));
  }

  lemma DeletesOnly(s: Store, v: VerbName, model: string, raw: string, key: string, o: Oracle)
    ensures var e := CommitDelete(s, v, model, raw, key, o).effect;
            e == NoEffect || e == Erased(Key(model, ResolveOr(s.rows, model, raw, o.alias)))
  {
  }

  lemma EraseIsIdleExactlyWhen(s: Store, k: Key)
    ensures Apply(s, Erased(k)) == s <==> k !in s.rows
  {
    assert k !in s.rows ==> s.rows - {k} == s.rows;
  }

  /** The failing input: the deleted id, or the identifier used for it, stands for another record by
      then. That one is deleted next. */
  lemma MovedIdentifierDeletesTwo(s: Store, v: VerbName, model: string, raw: string, a: string, b: string,
                                  key1: string, key2: string, o1: Oracle, o2: Oracle)
    requires raw != "" && Key(model, a) in s.rows && Key(model, b) in s.rows && a != b && raw != b
    requires raw == a || (Key(model, raw) !in s.rows && o1.alias == Some(a))
    requires o1.readUp && o1.erase == EraseFine && o2.alias == Some(b) && o2.readUp && o2.erase == EraseFine
    ensures var s1 := Apply(s, CommitDelete(s, v, model, raw, key1, o1).effect);
            var e2 := CommitDelete(s1, v, model, raw, key2, o2).effect;
            Key(model, a) !in s1.rows && e2 == Erased(Key(model, b)) && Key(model, b) in s1.rows
  {
  }

  /** For a workflow method: the records stay, and Odoo is called a second time exactly when the second
      commit lands. */
  lemma ConvergentCallIsIdleExactlyWhen(s: Store, v: VerbName, verb: Verb, raw: string, key1: string, key2: string,
                                        o1: Oracle, o2: Oracle)
    ensures var e1 := CommitAction(s, v, verb, raw, key1, o1).effect;
            var s1 := Apply(s, e1);
            var e2 := CommitAction(s1, v, verb, raw, key2, o2).effect;
            && Apply(s1, e2).rows == s.rows
            && (Apply(s1, e2) == s1 <==> e2 == NoEffect)
  {
    var s1 := Apply(s, CommitAction(s, v, verb, raw, key1, o1).effect);
    var e2 := CommitAction(s1, v, verb, raw, key2, o2).effect;
    assert e2 != NoEffect ==> |Apply(s1, e2).calls| == |s1.calls| + 1;
  }
}
