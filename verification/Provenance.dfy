/** Where every effect comes from, and what every token can still do. */
module Provenance {
  import opened Text
  import opened Options
  import opened Values
  import opened Governance
  import opened Verbs
  import opened Backend
  import opened Protocol
  import opened Invariants

  // ---------------------------------------------------------------- provenance

  /** The proposal a chain of reversals started from. */
  ghost function Root(h: History, next: nat, pid: nat): (root: nat)
    requires HistoryOk(h, next) && pid in h.origins
    ensures root in h.origins && h.origins[root].Granted? && root <= pid
    decreases pid
  {
    assert OriginOk(h, pid, h.origins[pid]);
    match h.origins[pid]
    case Granted(_, _, _, _) => pid
    case ReversalOf(token, _, _) =>
      assert MintedOk(h, token, h.minted[token]);
      Root(h, next, h.minted[token].deed.pid)
  }

  /** A reversal is the one its token stands for, and undoes what the token's own commit did. */
  ghost predicate ReversalLinks(h: History, pid: nat) {
    pid in h.origins && h.origins[pid].ReversalOf?
    ==> var token := h.origins[pid].token;
        && token in h.minted && token < pid
        && UndoProposal(h.minted[token].comp) == UndoAs(h.origins[pid].proposal, h.origins[pid].tier)
        && MintedOk(h, token, h.minted[token])
  }

  ghost predicate GrantStands(g: Origin) {
    g.Granted? && GrantHolds(g.policy, g.workspace, g.tier, g.proposal)
  }

  /** Over every run, every change of the store is the one a proposal proposed: of its kind, on the
      record it names or its keys find, with the fields it writes. The proposal was granted when it was
      made, or is the end of a chain of reversals that leads back to such a grant, each of which undoes
      the commit before it. */
  lemma EveryEffectWasGranted(w: World, steps: seq<Step>, i: nat)
    requires Initial(w) && RunOk(w, steps)
    requires i < |Run(w, steps).hist.effects|
    ensures var h := Run(w, steps).hist;
            && HistoryOk(h, Run(w, steps).next)
            && DeedOk(h, h.effects[i])
            && GrantStands(h.origins[Root(h, Run(w, steps).next, h.effects[i].pid)])
            && (forall p | p in h.origins :: ReversalLinks(h, p))
  {
    InitialInv(w);
    RunKeepsInv(w, steps);
    var v := Run(w, steps);
    var h := v.hist;
    assert DeedOk(h, h.effects[i]);
    var root := Root(h, v.next, h.effects[i].pid);
    assert OriginOk(h, root, h.origins[root]);
    forall p | p in h.origins ensures ReversalLinks(h, p) {
      ReversalIsLinked(h, v.next, p);
    }
  }

  lemma ReversalIsLinked(h: History, next: nat, pid: nat)
    requires HistoryOk(h, next) && pid in h.origins
    ensures ReversalLinks(h, pid)
  {
    assert OriginOk(h, pid, h.origins[pid]);
    if h.origins[pid].ReversalOf? {
      assert MintedOk(h, h.origins[pid].token, h.minted[h.origins[pid].token]);
    }
  }

  // ---------------------------------------------------------------- one-way doors

  /** The accounting and HR models: `account`, `hr` and everything below them. */
  predicate OneWay(model: string) {
    Under(model, "account") || Under(model, "hr")
  }

  lemma NotUnder(target: string, name: string)
    requires target != [] && name != [] && target[0] != name[0]
    ensures !Under(target, name)
  {
    if |target| > |name| {
      assert target[..|name|][0] == target[0];
    }
  }

  /** No curated verb deletes financial or HR records. */
  lemma CuratedDeletesAreNotOneWay(v: VerbName)
    requires Lookup(v).op == DeleteOp
    ensures !OneWay(Lookup(v).doctype)
  {
    var t := Lookup(v).doctype;
    assert t == "crm.lead" || t == "res.partner" || t == "purchase.order" || t == "product.supplierinfo";
    assert t[0] == 'c' || t[0] == 'r' || t[0] == 'p';
    NotUnder(t, "account");
    NotUnder(t, "hr");
  }

  /** Over every run, an erased financial or HR record was erased at CRITICAL exactly when the erasing
      proposal was asked for; the reversal of a create erases it at HIGH. */
  lemma ErasureIsCriticalExactlyWhenGranted(w: World, steps: seq<Step>, i: nat)
    requires Initial(w) && RunOk(w, steps)
    requires i < |Run(w, steps).hist.effects|
    requires var e := Run(w, steps).hist.effects[i].effect; e.Erased? && OneWay(e.key.model)
    ensures var h := Run(w, steps).hist;
            && h.effects[i].pid in h.origins
            && h.origins[h.effects[i].pid].tier
               == if h.origins[h.effects[i].pid].Granted? then "CRITICAL" else "HIGH"
  {
    InitialInv(w);
    RunKeepsInv(w, steps);
    var h := Run(w, steps).hist;
    assert DeedOk(h, h.effects[i]);
    var pid := h.effects[i].pid;
    assert OriginOk(h, pid, h.origins[pid]);
    ErasingTier(h, pid, h.origins[pid], h.effects[i].effect.key.model);
  }

  lemma ErasingTier(h: History, pid: nat, g: Origin, model: string)
    requires OriginOk(h, pid, g) && ShapeOf(g.proposal).kind == Erasing && ShapeOf(g.proposal).model == model
             && OneWay(model)
    ensures g.tier == if g.Granted? then "CRITICAL" else "HIGH"
  {
    if g.proposal.Curated? {
      CuratedDeletesAreNotOneWay(g.proposal.verb);
    } else if g.Granted? {
      DestructiveIsCritical(g.policy, model, g.workspace);
    }
  }

  /** Such a run: a tenant may create journal entries but not delete them. Creating one, rolling back
      and committing the reversal deletes it at HIGH. */
  lemma ReversalErasesAtHigh(w: World, ws: string, data: Row, a: ProposeOracle, key: string, o: Oracle, key2: string,
                             o2: Oracle)
    requires Initial(w) && w.policy == Govern(SHIPPED, GrantWrite(ws, "account.move", Create, "HIGH"))
    requires a.exists_ && a.gate.None? && key != "" && key2 != "" && key != key2
    requires o.newId != "" && (forall k | k in w.store.used :: k.id != o.newId)
    requires !o.resolveDown && o.write == Fine && o.verifyUp
    requires !o2.resolveDown && o2.readUp && o2.erase == EraseFine && o2.verifyUp
    ensures WriteTier(w.policy, "account.move", Delete, ws) == None
    ensures var w1 := Propose(w, ws, AskGeneric(Some(Create), "account.move", "", Some(data)), a).0;
            var w2 := Commit(w1, ws, key, w.next, o).0;
            var (w3, a3) := Rollback(w2, w.next + 1);
            var w4 := Commit(w3, ws, key2, w.next + 2, o2).0;
            && Key("account.move", o.newId) in w2.store.rows
            && a3 == Proposed(w.next + 2, "HIGH")
            && w4.store.rows == w2.store.rows - {Key("account.move", o.newId)}
  {
    var w1 := JournalProposed(w, ws, data, a);
    GenericCreateMints(w1, ws, key, w.next, o);
    UndoneAtHigh(Commit(w1, ws, key, w.next, o).0, w.next + 1, "account.move", o.newId, ws, key2, o2);
  }

  lemma JournalProposed(w: World, ws: string, data: Row, a: ProposeOracle) returns (v: World)
    requires w.memory == EMPTY && w.policy == Govern(SHIPPED, GrantWrite(ws, "account.move", Create, "HIGH"))
    requires a.exists_ && a.gate.None?
    ensures WriteTier(w.policy, "account.move", Delete, ws) == None
    ensures v == Propose(w, ws, AskGeneric(Some(Create), "account.move", "", Some(data)), a).0
    ensures w.next in v.memory.proposals
            && v.memory.proposals[w.next] == Generic(Create, "account.move", "", data, None)
    ensures v.memory.ledger == map[] && v.next == w.next + 1 && v.store == w.store
  {
    var p := Generic(Create, "account.move", "", data, None);
    JournalIsGrantOnly(ws);
    assert Decide(w.store.rows, w.policy, ws, AskGeneric(Some(Create), "account.move", "", Some(data)), a)
           == Grant("HIGH", p);
    v := WithProposal(w, p, Granted(w.policy, ws, "HIGH", p));
  }

  /** A generic create that is answered leaves its record and a token to delete it. */
  lemma GenericCreateMints(w: World, ws: string, key: string, pid: nat, o: Oracle)
    requires key != "" && Named(key) !in w.memory.ledger && pid in w.memory.proposals
    requires var p := w.memory.proposals[pid]; p.Generic? && p.op == Create
    requires !o.resolveDown && o.write == Fine && o.verifyUp
    ensures var p := w.memory.proposals[pid];
            var k := Key(p.target, o.newId);
            var (v, a) := Commit(w, ws, key, pid, o);
            && a == Executed(Receipt(pid, o.newId, false, Some(w.next)))
            && v.store == Apply(w.store, Created(k, Clean(Resolve(p.data, o)))) && k in v.store.rows
            && v.memory.comps == w.memory.comps[w.next := UndoGeneric(Delete, p.target, o.newId, map[])]
            && v.memory.ledger.Keys == w.memory.ledger.Keys + {Named(key)} && v.next == w.next + 1
  {
    var p := w.memory.proposals[pid];
    var out := CommitGeneric(w.store, p, key, o);
    assert out == Receipted(Created(Key(p.target, o.newId), Clean(Resolve(p.data, o))), o.newId,
                            Some(UndoGeneric(Delete, p.target, o.newId, map[])), false, Named(key));
    SettleMatters(w, DeedOf(w, ws, key, pid, o, out.effect), out);
  }

  lemma UndoneAtHigh(w: World, token: nat, model: string, id: string, ws: string, key: string, o: Oracle)
    requires token in w.memory.comps && w.memory.comps[token] == UndoGeneric(Delete, model, id, map[])
    requires Key(model, id) in w.store.rows && id != "" && key != "" && Named(key) !in w.memory.ledger
    requires !o.resolveDown && o.readUp && o.erase == EraseFine && o.verifyUp
    ensures Rollback(w, token).1 == Proposed(w.next, "HIGH")
    ensures Commit(Rollback(w, token).0, ws, key, w.next, o).0.store.rows == w.store.rows - {Key(model, id)}
  {
    ReversalDeletes(Rollback(w, token).0, ws, key, w.next, model, id, o);
  }

  lemma JournalIsGrantOnly(ws: string)
    ensures var pol := Govern(SHIPPED, GrantWrite(ws, "account.move", Create, "HIGH"));
            WriteTier(pol, "account.move", Create, ws) == Some("HIGH")
            && WriteTier(pol, "account.move", Delete, ws) == None
  {
    assert "account.move"[0] == 'a' && forall t | t in DECLARED_TARGETS :: t[0] == 'c' || t[0] == 'r' || t[0] == 'p';
  }

  lemma ReversalDeletes(w: World, ws: string, key: string, pid: nat, model: string, id: string, o: Oracle)
    requires pid in w.memory.proposals && w.memory.proposals[pid] == Generic(Delete, model, id, map[], None)
    requires key != "" && Named(key) !in w.memory.ledger && Key(model, id) in w.store.rows && id != ""
    requires !o.resolveDown && o.readUp && o.erase == EraseFine && o.verifyUp
    ensures var (v, a) := Commit(w, ws, key, pid, o);
            a.Executed? && a.receipt.ref == id && v.store == w.store.(rows := w.store.rows - {Key(model, id)})
  {
  }

  // ---------------------------------------------------------------- policy changes

  /** Governance is consulted when a proposal is made and never again: no later change of grants or
      scope alters what committing it does to the store, or whether it is executed. For everything but
      a workflow method it alters nothing the adapter remembers either; for a method it decides whether
      a token is minted. */
  lemma CommitIgnoresPolicy(w: World, pol: Policy, ws: string, key: string, pid: nat, o: Oracle)
    ensures var (v, a), (v', a') := Commit(w, ws, key, pid, o), Commit(w.(policy := pol), ws, key, pid, o);
            && v'.store == v.store && (a'.Executed? <==> a.Executed?)
            && (pid in w.memory.proposals && !w.memory.proposals[pid].MethodCall? ==> v'.memory == v.memory && a' == a)
  {
    if key != "" && Named(key) !in w.memory.ledger && pid in w.memory.proposals {
      var p := w.memory.proposals[pid];
      var out := Perform(w.store, w.policy, w.digest, ws, p, key, o);
      var out' := Perform(w.store, pol, w.digest, ws, p, key, o);
      PerformIgnoresPolicy(w.store, w.policy, pol, w.digest, ws, p, key, o);
      var u := w.(policy := pol);
      SettlesAlike(w, u, DeedOf(w, ws, key, pid, o, out.effect), DeedOf(u, ws, key, pid, o, out'.effect), out, out');
    }
  }

  lemma SettlesAlike(w: World, u: World, d: Deed, d': Deed, out: Outcome, out': Outcome)
    requires u == w.(policy := u.policy) && d.pid == d'.pid && d.scene.workspace == d'.scene.workspace
    requires d.effect == out.effect == out'.effect == d'.effect && (out.Receipted? <==> out'.Receipted?)
    requires out.Halted? ==> !out.answer.Executed? && !out'.answer.Executed?
    ensures var (v, a), (v', a') := Settle(w, d, out), Settle(u, d', out');
            v'.store == v.store && (a'.Executed? <==> a.Executed?) && (out == out' ==> v'.memory == v.memory && a' == a)
  {
    SettleMatters(w, d, out);
    SettleMatters(u, d', out');
  }

  lemma PerformIgnoresPolicy(s: Store, pol: Policy, pol': Policy, digest: string -> string, ws: string, p: Proposal,
                             key: string, o: Oracle)
    ensures var out, out' := Perform(s, pol, digest, ws, p, key, o), Perform(s, pol', digest, ws, p, key, o);
            out.effect == out'.effect && (out.Receipted? <==> out'.Receipted?) && (!p.MethodCall? ==> out == out')
  {
  }

  /** What a settled commit leaves, without the record of the run. */
  lemma SettleMatters(w: World, d: Deed, out: Outcome)
    requires d.effect == out.effect
    ensures var (v, a) := Settle(w, d, out);
            var comp := CompOf(out);
            var comps := if comp.Some? then w.memory.comps[w.next := comp.value] else w.memory.comps;
            var ws, n := d.scene.workspace, SeqOf(w.memory, d.scene.workspace) + 1;
            && v.store == Apply(w.store, out.effect)
            && match out
               case Halted(_, b, _) => a == b && v.memory == w.memory.(comps := comps)
               case Receipted(_, ref, _, replay, lkey) =>
                 var r := Receipt(d.pid, ref, replay, if comp.Some? then Some(w.next) else None);
                 && a == Executed(r)
                 && v.memory == w.memory.(comps := comps, ledger := w.memory.ledger[lkey := r],
                                          executed := w.memory.executed + {d.pid}, seqs := w.memory.seqs[ws := n])
  {
  }

  // ---------------------------------------------------------------- who writes

  /** Only COMMIT and other writers change the store. */
  lemma OnlyCommitsWrite(w: World, step: Step)
    requires !step.DoCommit? && !step.Outside?
    ensures Next(w, step).0.store == w.store && Next(w, step).0.hist.effects == w.hist.effects
  {
  }

  function Replay(s: Store, effects: seq<Deed>): Store
    decreases |effects|
  {
    if effects == [] then s else Apply(Replay(s, effects[..|effects| - 1]), effects[|effects| - 1].effect)
  }

  /** One step adds at most one effect, and changes the store by exactly that. */
  lemma StepExtendsLog(w: World, step: Step)
    requires !step.Outside?
    ensures var v := Next(w, step).0;
            (v.store == w.store && v.hist.effects == w.hist.effects)
            || (exists d :: v.hist.effects == w.hist.effects + [d] && v.store == Apply(w.store, d.effect))
  {
    match step
    case DoCommit(ws, key, pid, o) =>
      if key != "" && Named(key) !in w.memory.ledger && pid in w.memory.proposals {
        var out := Perform(w.store, w.policy, w.digest, ws, w.memory.proposals[pid], key, o);
        var d := DeedOf(w, ws, key, pid, o, out.effect);
        assert out.effect != NoEffect ==>
          Next(w, step).0.hist.effects == w.hist.effects + [d] && Next(w, step).0.store == Apply(w.store, d.effect);
      }
    case _ => OnlyCommitsWrite(w, step);
  }

  /** Conservation: without other writers, the store is the first store with the recorded effects
      replayed, whatever answers were lost on the way. */
  lemma {:induction false} StoreIsItsLog(w: World, s: Store, steps: seq<Step>)
    requires w.store == Replay(s, w.hist.effects)
    requires forall step | step in steps :: !step.Outside?
    ensures Run(w, steps).store == Replay(s, Run(w, steps).hist.effects)
    decreases |steps|
  {
    if steps != [] {
      assert steps[0] in steps;
      var v := Next(w, steps[0]).0;
      StepExtendsLog(w, steps[0]);
      if v.hist.effects != w.hist.effects {
        assert v.hist.effects[..|v.hist.effects| - 1] == w.hist.effects;
      }
      StoreIsItsLog(v, s, steps[1..]);
    }
  }

  // ---------------------------------------------------------------- tokens

  /** A proposal that can be committed: everything it needs is filled in, the record it is about first
      of all, unless it creates one. */
  predicate Committable(p: Proposal) {
    var q := ShapeOf(p);
    WellFormed(p) && q.model != ""
    && (q.kind != Creating && q.kind != Upserting ==> q.raw != "") && (q.kind == Calling ==> q.action != "")
  }

  lemma UndoIsCommittable(comp: Comp)
    requires UndoProposal(comp).UndoAs? && WellFormed(UndoProposal(comp).proposal)
    requires comp.UndoVerb? ==> Compensations(comp.verb).UndoBy? && comp.id != ""
    ensures Committable(UndoProposal(comp).proposal)
  {
    ModelIsFilled(UndoProposal(comp).proposal);
    if comp.UndoVerb? {
      CompensationIsCommittable(comp.verb, comp.id);
    }
  }

  /** Token coherence over all runs: every remembered token was minted by a recorded commit, undoes
      that commit's own effect with what was there before it, and rolling it back always yields a
      committable proposal. It is never refused, and never crashes. */
  lemma TokenCoherence(w: World, steps: seq<Step>, token: nat)
    requires Initial(w) && RunOk(w, steps)
    requires token in Run(w, steps).memory.comps
    ensures var v := Run(w, steps);
            var (v', a) := Rollback(v, token);
            && token in v.hist.minted && v.hist.minted[token].comp == v.memory.comps[token]
            && MintedOk(v.hist, token, v.hist.minted[token])
            && a.Proposed? && a.pid in v'.memory.proposals && Committable(v'.memory.proposals[a.pid])
            && v'.store == v.store
  {
    InitialInv(w);
    RunKeepsInv(w, steps);
    TokenIsCoherent(Run(w, steps), token);
    UndoIsProposed(Run(w, steps), token);
  }

  lemma UndoIsProposed(w: World, token: nat)
    requires token in w.memory.comps
    requires UndoProposal(w.memory.comps[token]).UndoAs? && WellFormed(UndoProposal(w.memory.comps[token]).proposal)
    requires var c := w.memory.comps[token]; c.UndoVerb? ==> Compensations(c.verb).UndoBy? && c.id != ""
    ensures var (v, a) := Rollback(w, token);
            && a.Proposed? && a.pid in v.memory.proposals && Committable(v.memory.proposals[a.pid])
            && v.store == w.store
  {
    UndoIsCommittable(w.memory.comps[token]);
  }

  /** A generic delete answered `executed` removed its record exactly when the backend did not ignore
      it; either way its token proposes to create the record again. */
  lemma GenericDeleteRemovedExactlyWhen(s: Store, p: Proposal, key: string, o: Oracle)
    requires p.Generic? && p.op == Delete && CommitGeneric(s, p, key, o).Receipted?
    ensures var out := CommitGeneric(s, p, key, o);
            var k := Key(p.target, out.ref);
            && k in s.rows && out.comp == Some(UndoGeneric(Create, p.target, "", s.rows[k]))
            && (k !in Apply(s, out.effect).rows <==> o.erase != EraseIgnored)
            && (o.erase == EraseIgnored ==> Apply(s, out.effect) == s)
  {
  }

  /** The curated deletes check the absence: `executed` means the record is gone, and an ignored
      delete of an existing record is always a failure. */
  lemma CuratedDeleteIsHonest(s: Store, v: VerbName, model: string, raw: string, key: string, o: Oracle)
    ensures var out := CommitDelete(s, v, model, raw, key, o);
            && (out.Receipted? ==> Key(model, out.ref) !in Apply(s, out.effect).rows)
            && (Key(model, raw) in s.rows && raw != "" && o.readUp && o.verifyUp && o.erase == EraseIgnored
                ==> out == Stop(NoEffect, FailedTerminal))
  {
    var id := ResolveOr(s.rows, model, raw, o.alias);
    var e := EraseEffect(Key(model, id), o.erase);
    if o.readUp && o.verifyUp && EraseReply(o.erase) == Ok && Key(model, id) !in Apply(s, e).rows {
      assert CommitDelete(s, v, model, raw, key, o) == CuratedReceipt(v, e, id, None, false, Named(key), false, o);
    }
  }
}
