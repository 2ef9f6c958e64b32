/** The idempotency ledger and the event sequences. */
module Ledger {
  import opened Text
  import opened Options
  import opened Values
  import opened Governance
  import opened Domain
  import opened Verbs
  import opened Backend
  import opened Protocol
  import opened Invariants
  import Marker

  // ---------------------------------------------------------------- which key a receipt goes under

  lemma {:induction false} ProbedKey(s: Store, model: string, keys: seq<DedupKey>, doc: Row, down: set<nat>, i: nat,
                                     lkey: LedgerKey)
    ensures var f := ProbeKeysFrom(s, model, keys, doc, down, i, lkey);
            !f.Stuck? && i < |keys| ==> exists k | k in keys :: f.lkey == LedgerKeyOf(k)
    ensures var f := ProbeKeysFrom(s, model, keys, doc, down, i, lkey);
            !f.Stuck? && i >= |keys| ==> f.lkey == lkey
    decreases |keys| - i
  {
    if i < |keys| {
      assert keys[i] in keys;
      ProbedKey(s, model, keys, doc, down, i + 1, LedgerKeyOf(keys[i]));
    }
  }

  /** An upsert's receipt is filed under a deduplication key, never under the commit's key unless that
      key happens to be the field's own name: the loop over the keys reuses the name. */
  lemma UpsertReceiptKey(s: Store, pol: Policy, digest: string -> string, ws: string, p: Proposal, key: string,
                         o: Oracle)
    requires IsUpsert(p)
    ensures var out := Perform(s, pol, digest, ws, p, key, o);
            out.Receipted? ==> exists k | k in ProbeKeys(p.verb, p.args) :: out.ledgerKey == LedgerKeyOf(k)
  {
    var verb := Lookup(p.verb);
    var keys := ProbeKeys(p.verb, p.args);
    UpsertsHaveKeys(p.verb, p.args);
    ProbedKey(s, verb.doctype, keys, Resolve(p.native, o), o.downProbes, 0, Named(key));
    UpsertFiling(s, p.verb, verb, p.args, Resolve(p.native, o), key, digest, o);
  }

  lemma UpsertFiling(s: Store, v: VerbName, verb: Verb, args: Row, doc: Row, key: string, digest: string -> string,
                     o: Oracle)
    requires verb.op == UpsertOp
    ensures var out := Dispatch(s, v, verb, args, doc, key, digest, o);
            out.Receipted? ==> !UpsertProbes(s, v, verb, args, doc, key, o).Stuck?
                               && out.ledgerKey == UpsertProbes(s, v, verb, args, doc, key, o).lkey
  {
  }

  lemma UpsertsHaveKeys(v: VerbName, args: Row)
    requires Lookup(v).op == UpsertOp
    ensures ProbeKeys(v, args) != []
    ensures forall k | k in ProbeKeys(v, args) :: k == Single("email") || k == Single("phone") || !k.Single?
  {
  }

  /** Does the email key decide the upsert? It is asked first, and finds one record. */
  ghost predicate EmailDecides(s: Store, p: Proposal, o: Oracle)
    requires p.Curated?
  {
    var d := ProbeDomain(Single("email"), Resolve(p.native, o));
    d.Some? && Probe(s, Lookup(p.verb).doctype, DomainTest(d.value)).One?
  }

  /** The text that answers a retry from memory: the commit's own key, but for an upsert the field
      whose key was asked last, and for upserts with compound keys no text at all. */
  ghost function ReplayText(s: Store, p: Proposal, key: string, o: Oracle): Option<string> {
    if !IsUpsert(p) then Some(key)
    else if Lookup(p.verb).dedup == EMAIL_OR_PHONE then Some(if EmailDecides(s, p, o) then "email" else "phone")
    else None
  }

  lemma ContactProbes(s: Store, model: string, doc: Row, down: set<nat>, lkey: LedgerKey)
    ensures var f := ProbeKeysFrom(s, model, EMAIL_OR_PHONE, doc, down, 0, lkey);
            var d := ProbeDomain(Single("email"), doc);
            !f.Stuck? ==>
              f.lkey == Named(if d.Some? && Probe(s, model, DomainTest(d.value)).One? then "email" else "phone")
  {
    var f1 := ProbeKeysFrom(s, model, EMAIL_OR_PHONE, doc, down, 1, Named("email"));
    var f2 := ProbeKeysFrom(s, model, EMAIL_OR_PHONE, doc, down, 2, Named("phone"));
    assert f2 == NoMatch(Named("phone"));
    assert !f1.Stuck? ==> f1.lkey == Named("phone");
  }

  lemma ContactKeys(v: VerbName, args: Row)
    requires Lookup(v).op == UpsertOp
    ensures Lookup(v).dedup == EMAIL_OR_PHONE ==> ProbeKeys(v, args) == EMAIL_OR_PHONE
    ensures Lookup(v).dedup != EMAIL_OR_PHONE ==> forall k | k in ProbeKeys(v, args) :: !k.Single?
  {
  }

  /** Which text answers from memory after an executed commit. */
  lemma FiledUnder(s: Store, pol: Policy, digest: string -> string, ws: string, p: Proposal, key: string, o: Oracle)
    requires Perform(s, pol, digest, ws, p, key, o).Receipted?
    ensures var k := Perform(s, pol, digest, ws, p, key, o).ledgerKey;
            if ReplayText(s, p, key, o).Some? then k == Named(ReplayText(s, p, key, o).value) else !k.Named?
  {
    if IsUpsert(p) {
      var verb := Lookup(p.verb);
      UpsertReceiptKey(s, pol, digest, ws, p, key, o);
      ContactKeys(p.verb, p.args);
      if verb.dedup == EMAIL_OR_PHONE {
        ContactProbes(s, verb.doctype, Resolve(p.native, o), o.downProbes, Named(key));
        UpsertFiling(s, p.verb, verb, p.args, Resolve(p.native, o), key, digest, o);
      }
    }
  }

  /** So an executed commit is replayed from memory under its own key exactly when it is not an
      upsert, or its key is literally the name of the field that was asked last. */
  lemma RetryIsReplayedExactlyWhen(w: World, ws: string, key: string, pid: nat, o: Oracle)
    requires key != "" && Named(key) !in w.memory.ledger && pid in w.memory.proposals
    requires Commit(w, ws, key, pid, o).1.Executed?
    ensures Named(key) in Commit(w, ws, key, pid, o).0.memory.ledger
            <==> ReplayText(w.store, w.memory.proposals[pid], key, o) == Some(key)
  {
    FiledInMemory(w, ws, key, pid, o);
  }

  lemma FiledInMemory(w: World, ws: string, key: string, pid: nat, o: Oracle)
    requires key != "" && Named(key) !in w.memory.ledger && pid in w.memory.proposals
    requires Commit(w, ws, key, pid, o).1.Executed?
    ensures var (v, a) := Commit(w, ws, key, pid, o);
            var t := ReplayText(w.store, w.memory.proposals[pid], key, o);
            && a.receipt.pid == pid
            && exists k ::
              v.memory.ledger == w.memory.ledger[k := a.receipt] && (if t.Some? then k == Named(t.value) else !k.Named?)
  {
    var p := w.memory.proposals[pid];
    var out := Perform(w.store, w.policy, w.digest, ws, p, key, o);
    SettleLedger(w, DeedOf(w, ws, key, pid, o, out.effect), out);
    FiledUnder(w.store, w.policy, w.digest, ws, p, key, o);
  }

  /** The shadowed key answers a stranger: whatever was executed, the text its receipt was filed under
      answers every later commit of every proposal, for as long as nothing restarts and no other upsert
      is committed. Nothing is written then. */
  lemma ShadowedKeyAnswersStranger(w: World, ws: string, key: string, pid: nat, o: Oracle, steps: seq<Step>,
                                   text: string, ws': string, pid': nat, o': Oracle)
    requires key != "" && Named(key) !in w.memory.ledger && pid in w.memory.proposals
    requires Commit(w, ws, key, pid, o).1.Executed?
             && ReplayText(w.store, w.memory.proposals[pid], key, o) == Some(text) && text != ""
    requires PlainRun(Commit(w, ws, key, pid, o).0, steps)
    ensures var r := Commit(w, ws, key, pid, o).1.receipt;
            var v := Run(Commit(w, ws, key, pid, o).0, steps);
            r.pid == pid && Commit(v, ws', text, pid', o') == (v, Executed(r.(replayed := true)))
  {
    FiledInMemory(w, ws, key, pid, o);
    LedgerOnlyGrows(Commit(w, ws, key, pid, o).0, steps);
  }

  /** Reached on a fresh adapter with the shipped policy: one contact holds the email, the upsert of
      that contact is proposed and committed, and from then on a commit of anything under the key
      `email` is answered with the contact's receipt. */
  lemma EmailKeyIsTaken(w: World, ws: string, args: Row, native: Row, a: ProposeOracle, key: string, o: Oracle,
                        ws': string, pid': nat, o': Oracle)
    requires Initial(w) && w.policy == SHIPPED
    requires Truthy(Field(args, "name")) && Truthy(Field(native, "email")) && a.exists_ && a.gate.None?
    requires key != "" && !o.resolveDown && o.resolved == map[] && o.downProbes == {} && o.readUp && o.verifyUp
             && o.write == Fine
    requires Probe(w.store, "res.partner", DomainTest([Triple("email", Eq(Field(native, "email")))])).One?
    ensures var w1 := Propose(w, ws, AskCurated(CreateContact, args, native), a).0;
            var (w2, a2) := Commit(w1, ws, key, w.next, o);
            && a2.Executed? && a2.receipt.pid == w.next
            && Commit(w2, ws', "email", pid', o') == (w2, Executed(a2.receipt.(replayed := true)))
  {
    var p := Curated(CreateContact, args, native);
    var w1 := ContactProposed(w, ws, args, native, a);
    ContactExecuted(w1, ws, key, w.next, p, o);
    ShadowedKeyAnswersStranger(w1, ws, key, w.next, o, [], "email", ws', pid', o');
  }

  lemma ContactProposed(w: World, ws: string, args: Row, native: Row, a: ProposeOracle) returns (v: World)
    requires Initial(w) && w.policy == SHIPPED
    requires Truthy(Field(args, "name")) && Truthy(Field(native, "email")) && a.exists_ && a.gate.None?
    ensures v == Propose(w, ws, AskCurated(CreateContact, args, native), a).0
    ensures w.next in v.memory.proposals && v.memory.proposals[w.next] == Curated(CreateContact, args, native)
    ensures v.store == w.store && v.memory.ledger == map[]
  {
    var p := Curated(CreateContact, args, native);
    assert EMAIL_OR_PHONE[0] in EMAIL_OR_PHONE && ProbeDomain(EMAIL_OR_PHONE[0], native).Some?;
    assert SomeKeyProbed(ProbeKeys(CreateContact, args), native);
    v := WithProposal(w, p, Granted(w.policy, ws, "MEDIUM", p));
  }

  lemma ContactExecuted(w: World, ws: string, key: string, pid: nat, p: Proposal, o: Oracle)
    requires StoreOk(w.store) && p.Curated? && p.verb == CreateContact && Truthy(Field(p.native, "email"))
    requires key != "" && Named(key) !in w.memory.ledger && pid in w.memory.proposals && w.memory.proposals[pid] == p
    requires !o.resolveDown && o.resolved == map[] && o.downProbes == {} && o.readUp && o.verifyUp && o.write == Fine
    requires Probe(w.store, "res.partner", DomainTest([Triple("email", Eq(Field(p.native, "email")))])).One?
    ensures Commit(w, ws, key, pid, o).1.Executed? && ReplayText(w.store, p, key, o) == Some("email")
  {
    assert Resolve(p.native, o) == p.native;
    var test := DomainTest([Triple("email", Eq(Field(p.native, "email")))]);
    ProbeFinds(w.store, "res.partner", test);
    var id := Probe(w.store, "res.partner", test).id;
    assert ProbeDomain(EMAIL_OR_PHONE[0], p.native) == Some([Triple("email", Eq(Field(p.native, "email")))]);
    assert ProbeKeysFrom(w.store, "res.partner", EMAIL_OR_PHONE, p.native, {}, 0, Named(key))
           == Match(id, Named("email"));
    var out := CommitUpsert(w.store, CreateContact, "res.partner", p.native, Match(id, Named("email")), o);
    assert out.Receipted?;
    SettleLedger(w, DeedOf(w, ws, key, pid, o, out.effect), out);
  }

  // ---------------------------------------------------------------- crashes

  predicate IsCrash(out: Outcome) {
    out.Halted? && out.answer == Crashed
  }

  /** The generic write was reached and answered, so its result is read back. */
  predicate GenericReadsBack(s: Store, p: Proposal, o: Oracle)
    requires p.Generic?
  {
    var id := ResolveId(s.rows, p.target, p.id, o.alias);
    && !o.resolveDown
    && match p.op
       case Create => o.write == Fine
       case Update =>
         o.readUp && id.Some? && o.write == Fine
         && (p.bound.Some? ==> p.bound.value == Snapshot(RowAt(s.rows, Key(p.target, id.value)), p.data))
       case Delete => o.readUp && id.Some? && EraseReply(o.erase) == Ok
  }

  /** The curated write was reached and answered, and there is something to read back: the fields
      written, or the absence of the deleted record. A workflow method reads nothing back. */
  ghost predicate VerbReadsBack(s: Store, v: VerbName, verb: Verb, args: Row, doc: Row, key: string,
                                digest: string -> string, o: Oracle)
  {
    match verb.op
    case DeleteOp => o.readUp && EraseReply(o.erase) == Ok
    case UpdateOp =>
      var id := ResolveOr(s.rows, verb.doctype, TargetArg(verb, args), o.alias);
      o.readUp && o.write == Fine && Key(verb.doctype, id) in s.rows && doc != map[] && id != ""
    case MethodOp => false
    case UpsertOp => UpsertReadsBack(s, verb.doctype, doc, UpsertProbes(s, v, verb, args, doc, key, o), o)
    case CreateOp =>
      if verb.stamp != "" && o.stampable then
        KeyedReadsBack(s, verb.doctype, verb.stamp, doc, Marker.IdemMarker(key, digest), o)
      else
        o.write == Fine && doc != map[]
  }

  predicate UpsertReadsBack(s: Store, model: string, doc: Row, found: Probed, o: Oracle) {
    match found
    case Stuck => false
    case NoMatch(_) => o.write == Fine && doc != map[]
    case Match(id, _) => o.readUp && o.write == Fine && Key(model, id) in s.rows && doc != map[]
  }

  /** A record is at hand: found at first, created, or found after a lost answer. */
  ghost predicate KeyedReadsBack(s: Store, model: string, field: string, doc: Row, marker: string, o: Oracle) {
    var test := CarriesTest(field, marker);
    var effect := KeyedEffect(model, field, doc, marker, o);
    && o.probeUp
    && (Probe(s, model, test).One?
        || (Probe(s, model, test) == Nothing
            && (o.write == Fine || (o.write.Lost? && o.reprobeUp && Probe(AfterLost(s, effect, o), model, test).One?))))
  }

  ghost predicate ReadsBack(s: Store, p: Proposal, key: string, digest: string -> string, o: Oracle) {
    match p
    case MethodCall(_, _, _, _) => false
    case Generic(_, _, _, _, _) => GenericReadsBack(s, p, o)
    case Curated(v, args, native) =>
      !o.resolveDown && VerbReadsBack(s, v, Lookup(v), args, Resolve(native, o), key, digest, o)
  }

  /** A commit ends in an exception exactly when it reads its write back and that read fails. */
  lemma CrashesExactlyWhen(s: Store, pol: Policy, digest: string -> string, ws: string, p: Proposal, key: string,
                           o: Oracle)
    ensures IsCrash(Perform(s, pol, digest, ws, p, key, o)) <==> ReadsBack(s, p, key, digest, o) && !o.verifyUp
  {
    match p
    case MethodCall(_, _, _, _) =>
    case Generic(_, _, _, _, _) => GenericCrashes(s, p, key, o);
    case Curated(v, args, native) => VerbCrashes(s, v, Lookup(v), args, Resolve(native, o), key, digest, o);
  }

  lemma GenericCrashes(s: Store, p: Proposal, key: string, o: Oracle)
    requires p.Generic?
    ensures IsCrash(CommitGeneric(s, p, key, o)) <==> GenericReadsBack(s, p, o) && !o.verifyUp
  {
    forall row: Row ensures Snapshot(row, Resolve(p.data, o)) == Snapshot(row, p.data) {}
  }

  lemma VerbCrashes(s: Store, v: VerbName, verb: Verb, args: Row, doc: Row, key: string, digest: string -> string,
                    o: Oracle)
    ensures IsCrash(Dispatch(s, v, verb, args, doc, key, digest, o))
            <==> VerbReadsBack(s, v, verb, args, doc, key, digest, o) && !o.verifyUp
  {
    if verb.op == UpsertOp {
      UpsertCrashes(s, v, verb.doctype, doc, UpsertProbes(s, v, verb, args, doc, key, o), o);
    } else if verb.op == CreateOp {
      CreateCrashes(s, v, verb, args, doc, key, digest, o);
    } else {
      NamedCrashes(s, v, verb, args, doc, key, digest, o);
    }
  }

  lemma CreateCrashes(s: Store, v: VerbName, verb: Verb, args: Row, doc: Row, key: string, digest: string -> string,
                      o: Oracle)
    requires verb.op == CreateOp
    ensures IsCrash(Dispatch(s, v, verb, args, doc, key, digest, o))
            <==> VerbReadsBack(s, v, verb, args, doc, key, digest, o) && !o.verifyUp
  {
    if verb.stamp != "" && o.stampable {
      KeyedCrashes(s, v, verb.doctype, verb.stamp, doc, Marker.IdemMarker(key, digest), key, o);
    } else {
      PlainCrashes(v, verb.doctype, doc, key, o);
    }
  }

  lemma PlainCrashes(v: VerbName, model: string, doc: Row, key: string, o: Oracle)
    ensures IsCrash(CommitPlainCreate(v, model, doc, key, o)) <==> o.write == Fine && doc != map[] && !o.verifyUp
  {
  }

  lemma NamedCrashes(s: Store, v: VerbName, verb: Verb, args: Row, doc: Row, key: string, digest: string -> string,
                     o: Oracle)
    requires verb.op == DeleteOp || verb.op == UpdateOp || verb.op == MethodOp
    ensures IsCrash(Dispatch(s, v, verb, args, doc, key, digest, o))
            <==> VerbReadsBack(s, v, verb, args, doc, key, digest, o) && !o.verifyUp
  {
    var raw := TargetArg(verb, args);
    if verb.op == DeleteOp {
      DeleteCrashes(s, v, verb.doctype, raw, key, o);
      assert Dispatch(s, v, verb, args, doc, key, digest, o) == CommitDelete(s, v, verb.doctype, raw, key, o);
    } else if verb.op == UpdateOp {
      UpdateCrashes(s, v, verb.doctype, raw, doc, key, o);
      assert Dispatch(s, v, verb, args, doc, key, digest, o) == CommitUpdate(s, v, verb.doctype, raw, doc, key, o);
    } else {
      ActionCrashes(s, v, verb, raw, key, o);
      assert Dispatch(s, v, verb, args, doc, key, digest, o) == CommitAction(s, v, verb, raw, key, o);
    }
  }

  lemma DeleteCrashes(s: Store, v: VerbName, model: string, raw: string, key: string, o: Oracle)
    ensures IsCrash(CommitDelete(s, v, model, raw, key, o)) <==> o.readUp && EraseReply(o.erase) == Ok && !o.verifyUp
  {
  }

  lemma ActionCrashes(s: Store, v: VerbName, verb: Verb, raw: string, key: string, o: Oracle)
    ensures !IsCrash(CommitAction(s, v, verb, raw, key, o))
  {
  }

  lemma UpdateCrashes(s: Store, v: VerbName, model: string, raw: string, doc: Row, key: string, o: Oracle)
    ensures var id := ResolveOr(s.rows, model, raw, o.alias);
            IsCrash(CommitUpdate(s, v, model, raw, doc, key, o))
            <==> o.readUp && o.write == Fine && Key(model, id) in s.rows && doc != map[] && id != "" && !o.verifyUp
  {
  }

  lemma UpsertCrashes(s: Store, v: VerbName, model: string, doc: Row, found: Probed, o: Oracle)
    ensures IsCrash(CommitUpsert(s, v, model, doc, found, o))
            <==> UpsertReadsBack(s, model, doc, found, o) && !o.verifyUp
  {
    if found.Match? && o.readUp {
      MatchedUpsert(s, v, model, doc, found.id, found.lkey, BeforeImageOf(s, model, found.id, doc), o);
    }
  }

  lemma KeyedCrashes(s: Store, v: VerbName, model: string, field: string, doc: Row, marker: string, key: string,
                     o: Oracle)
    ensures IsCrash(KeyedCreate(s, v, model, field, doc, marker, key, o))
            <==> KeyedReadsBack(s, model, field, doc, marker, o) && !o.verifyUp
  {
    var effect := KeyedEffect(model, field, doc, marker, o);
    var test := CarriesTest(field, marker);
    AskedCrashes(v, effect, key, Probe(s, model, test), Probe(AfterLost(s, effect, o), model, test), o);
  }

  lemma AskedCrashes(v: VerbName, effect: Effect, key: string, first: Found, second: Found, o: Oracle)
    ensures IsCrash(CommitKeyedCreate(v, effect, key, first, second, o))
            <==> o.probeUp && !o.verifyUp
                 && (first.One?
                     || (first == Nothing
                         && (o.write == Fine || (o.write.Lost? && o.reprobeUp && second.One?))))
  {
  }

  /** A commit that crashed is forgotten: no ledger entry, no event, not executed. A generic write
      that crashed has landed, unless it was a delete the backend ignored, and its token exists though
      no answer names it. */
  lemma CrashIsForgotten(w: World, ws: string, key: string, pid: nat, o: Oracle)
    requires Commit(w, ws, key, pid, o).1 == Crashed
    ensures var v := Commit(w, ws, key, pid, o).0;
            && v.memory.ledger == w.memory.ledger && v.memory.executed == w.memory.executed && v.events == w.events
            && pid in w.memory.proposals
            && (w.memory.proposals[pid].Generic? ==>
                  w.next in v.memory.comps && w.next in v.hist.minted && v.hist.minted[w.next].deed.pid == pid
                  && v.hist.minted[w.next].deed.effect == CommitGeneric(w.store, w.memory.proposals[pid], key, o).effect
                  && ((w.memory.proposals[pid].op == Delete && o.erase == EraseIgnored)
                      || CommitGeneric(w.store, w.memory.proposals[pid], key, o).effect != NoEffect))
  {
    var p := w.memory.proposals[pid];
    var out := Perform(w.store, w.policy, w.digest, ws, p, key, o);
    SettleCrash(w, DeedOf(w, ws, key, pid, o, out.effect), out);
    if p.Generic? {
      GenericCrash(w.store, p, key, o);
    }
  }

  lemma SettleCrash(w: World, d: Deed, out: Outcome)
    requires out.Halted?
    ensures var (v, a) := Settle(w, d, out);
            && a == out.answer && v.memory.ledger == w.memory.ledger && v.memory.executed == w.memory.executed
            && v.events == w.events
            && (out.minted.Some? ==>
                  w.next in v.memory.comps && v.memory.comps[w.next] == out.minted.value
                  && w.next in v.hist.minted && v.hist.minted[w.next] == Minted(d, out.minted.value))
  {
  }

  lemma GenericCrash(s: Store, p: Proposal, key: string, o: Oracle)
    requires p.Generic?
    requires var out := CommitGeneric(s, p, key, o); out.Halted? && out.answer == Crashed
    ensures CommitGeneric(s, p, key, o).minted.Some?
    ensures (p.op == Delete && o.erase == EraseIgnored) || CommitGeneric(s, p, key, o).effect != NoEffect
  {
  }

  // ---------------------------------------------------------------- conservation

  /** Entries are only added. */
  ghost predicate Grows(m: Memory, n: Memory) {
    forall k | k in m.ledger :: k in n.ledger && n.ledger[k] == m.ledger[k]
  }

  /** A step that forgets nothing and files nothing under a borrowed key. */
  ghost predicate Plain(w: World, step: Step) {
    && !step.Restart?
    && (step.DoCommit? && step.pid in w.memory.proposals ==> !IsUpsert(w.memory.proposals[step.pid]))
  }

  lemma StepGrowsLedger(w: World, step: Step)
    requires Plain(w, step)
    ensures Grows(w.memory, Next(w, step).0.memory)
  {
    if step.DoCommit? && step.pid in w.memory.proposals {
      var out := Perform(w.store, w.policy, w.digest, step.ws, w.memory.proposals[step.pid], step.key, step.oracle);
      SettleLedger(w, DeedOf(w, step.ws, step.key, step.pid, step.oracle, out.effect), out);
    }
  }

  lemma SettleLedger(w: World, d: Deed, out: Outcome)
    ensures var (v, a) := Settle(w, d, out);
            v.memory.ledger == if out.Receipted? then w.memory.ledger[out.ledgerKey := a.receipt] else w.memory.ledger
    ensures out.Receipted? ==> Settle(w, d, out).1.Executed? && Settle(w, d, out).1.receipt.pid == d.pid
    ensures out.Halted? ==> Settle(w, d, out).1 == out.answer
  {
  }

  ghost predicate PlainRun(w: World, steps: seq<Step>)
    decreases |steps|
  {
    steps == [] || (Plain(w, steps[0]) && PlainRun(Next(w, steps[0]).0, steps[1..]))
  }

  /** Over every run without upserts or restarts, ledger entries are added and never changed. */
  lemma {:induction false} LedgerOnlyGrows(w: World, steps: seq<Step>)
    requires PlainRun(w, steps)
    ensures Grows(w.memory, Run(w, steps).memory)
    decreases |steps|
  {
    if steps != [] {
      StepGrowsLedger(w, steps[0]);
      LedgerOnlyGrows(Next(w, steps[0]).0, steps[1..]);
    }
  }

  /** So a commit that was executed once is answered from memory for the rest of such a run, with the
      same record, no backend call and no second event. */
  lemma ExecutedStaysExecuted(w: World, ws: string, key: string, pid: nat, o: Oracle, steps: seq<Step>,
                              ws': string, pid': nat, o': Oracle)
    requires key != "" && Named(key) !in w.memory.ledger && pid in w.memory.proposals
             && !IsUpsert(w.memory.proposals[pid])
    requires Commit(w, ws, key, pid, o).1.Executed?
    requires PlainRun(Commit(w, ws, key, pid, o).0, steps)
    ensures var r := Commit(w, ws, key, pid, o).1.receipt;
            var v := Run(Commit(w, ws, key, pid, o).0, steps);
            Commit(v, ws', key, pid', o') == (v, Executed(r.(replayed := true)))
  {
    FiledInMemory(w, ws, key, pid, o);
    LedgerOnlyGrows(Commit(w, ws, key, pid, o).0, steps);
  }

  // ---------------------------------------------------------------- events

  predicate Of(e: Event, epoch: nat, ws: string) {
    e.epoch == epoch && e.workspace == ws
  }

  /** The sequence numbers a workspace saw in one life of the adapter. */
  function Sequence(events: seq<Event>, epoch: nat, ws: string): seq<nat>
    decreases |events|
  {
    if events == [] then []
    else
      var e := events[|events| - 1];
      Sequence(events[..|events| - 1], epoch, ws) + if Of(e, epoch, ws) then [e.sequence] else []
  }

  function Counting(n: nat): seq<nat> {
    seq(n, i requires 0 <= i < n => i + 1)
  }

  /** In every life of the adapter each workspace has seen 1, 2, 3, and so on; in the present one, up
      to the number in memory. */
  ghost predicate EventsOk(w: World) {
    Counted(w.events, w.epoch, w.memory.seqs)
  }

  ghost predicate Counted(events: seq<Event>, epoch: nat, seqs: map<string, nat>) {
    && (forall ws {:trigger Sequence(events, epoch, ws)} ::
          Sequence(events, epoch, ws) == Counting(if ws in seqs then seqs[ws] else 0))
    && (forall e, ws :: Numbered(events, e, ws))
    && (forall e | e in events :: e.epoch <= epoch)
  }

  ghost predicate Numbered(events: seq<Event>, epoch: nat, ws: string) {
    Sequence(events, epoch, ws) == Counting(|Sequence(events, epoch, ws)|)
  }

  lemma SequenceSnoc(events: seq<Event>, e: Event, epoch: nat, ws: string)
    ensures Sequence(events + [e], epoch, ws)
            == if Of(e, epoch, ws) then Sequence(events, epoch, ws) + [e.sequence] else Sequence(events, epoch, ws)
  {
    assert (events + [e])[..|events|] == events;
  }

  lemma {:induction false} NoFutureEvents(events: seq<Event>, epoch: nat, ws: string)
    requires forall e | e in events :: e.epoch < epoch
    ensures Sequence(events, epoch, ws) == []
    decreases |events|
  {
    if events != [] {
      assert events[|events| - 1] in events;
      NoFutureEvents(events[..|events| - 1], epoch, ws);
    }
  }

  lemma CountingSnoc(n: nat)
    ensures Counting(n + 1) == Counting(n) + [n + 1]
  {
  }

  lemma NumberedSnoc(events: seq<Event>, e: Event, epoch: nat, ws: string)
    requires Numbered(events, epoch, ws) && (Of(e, epoch, ws) ==> e.sequence == |Sequence(events, epoch, ws)| + 1)
    ensures Numbered(events + [e], epoch, ws)
  {
    SequenceSnoc(events, e, epoch, ws);
    CountingSnoc(|Sequence(events, epoch, ws)|);
  }

  lemma OneMoreCounted(events: seq<Event>, epoch: nat, seqs: map<string, nat>, ws: string, n: nat, pid: nat)
    requires Counted(events, epoch, seqs) && n == (if ws in seqs then seqs[ws] else 0) + 1
    ensures Counted(events + [Event(epoch, ws, n, pid)], epoch, seqs[ws := n])
  {
    var e := Event(epoch, ws, n, pid);
    var all := events + [e];
    assert |Sequence(events, epoch, ws)| == n - 1;
    forall u {:trigger Sequence(all, epoch, u)}
      ensures Sequence(all, epoch, u) == Counting(if u in seqs[ws := n] then seqs[ws := n][u] else 0)
    {
      SequenceSnoc(events, e, epoch, u);
      CountingSnoc(n - 1);
    }
    forall epoch', u ensures Numbered(all, epoch', u) {
      assert Numbered(events, epoch', u);
      NumberedSnoc(events, e, epoch', u);
    }
  }

  /** Exactly one event per commit answered `executed` outside a ledger replay, and none otherwise. */
  lemma StepEvents(w: World, step: Step)
    requires EventsOk(w)
    ensures var (v, a) := Next(w, step);
            && EventsOk(v)
            && v.events == if step.DoCommit? && a.Executed? && Named(step.key) !in w.memory.ledger
                           then w.events + [Event(w.epoch, step.ws, SeqOf(w.memory, step.ws) + 1, step.pid)]
                           else w.events
  {
    match step
    case DoCommit(ws, key, pid, o) => CommitEvents(w, ws, key, pid, o);
    case Restart => RestartEvents(w);
    case _ =>
  }

  lemma RestartEvents(w: World)
    requires EventsOk(w)
    ensures EventsOk(w.(memory := EMPTY, epoch := w.epoch + 1))
  {
    forall ws {:trigger Sequence(w.events, w.epoch + 1, ws)}
      ensures Sequence(w.events, w.epoch + 1, ws) == Counting(0)
    {
      NoFutureEvents(w.events, w.epoch + 1, ws);
    }
  }

  lemma CommitEvents(w: World, ws: string, key: string, pid: nat, o: Oracle)
    requires EventsOk(w)
    ensures var (v, a) := Commit(w, ws, key, pid, o);
            && EventsOk(v)
            && v.events == if a.Executed? && Named(key) !in w.memory.ledger
                           then w.events + [Event(w.epoch, ws, SeqOf(w.memory, ws) + 1, pid)] else w.events
  {
    CommitSends(w, ws, key, pid, o);
    OneMoreCounted(w.events, w.epoch, w.memory.seqs, ws, SeqOf(w.memory, ws) + 1, pid);
  }

  /** What a commit sends, and the number it leaves behind. */
  ghost predicate Sends(w: World, ws: string, pid: nat, sent: bool, v: World) {
    var n := SeqOf(w.memory, ws) + 1;
    && v.epoch == w.epoch
    && if sent then
         v.events == w.events + [Event(w.epoch, ws, n, pid)] && v.memory.seqs == w.memory.seqs[ws := n]
         && v.memory.executed == w.memory.executed + {pid}
       else v.events == w.events && v.memory.seqs == w.memory.seqs && v.memory.executed == w.memory.executed
  }

  lemma CommitSends(w: World, ws: string, key: string, pid: nat, o: Oracle)
    ensures var (v, a) := Commit(w, ws, key, pid, o);
            Sends(w, ws, pid, a.Executed? && Named(key) !in w.memory.ledger, v)
  {
    if key != "" && Named(key) !in w.memory.ledger && pid in w.memory.proposals {
      var out := CommitIsSettled(w, ws, key, pid, o);
      OutcomeSends(w, DeedOf(w, ws, key, pid, o, out.effect), out);
    }
  }

  lemma CommitIsSettled(w: World, ws: string, key: string, pid: nat, o: Oracle) returns (out: Outcome)
    requires key != "" && Named(key) !in w.memory.ledger && pid in w.memory.proposals
    ensures Commit(w, ws, key, pid, o) == Settle(w, DeedOf(w, ws, key, pid, o, out.effect), out)
    ensures out.Halted? ==> !out.answer.Executed?
  {
    out := Perform(w.store, w.policy, w.digest, ws, w.memory.proposals[pid], key, o);
  }

  lemma OutcomeSends(w: World, d: Deed, out: Outcome)
    requires out.Halted? ==> !out.answer.Executed?
    ensures var (v, a) := Settle(w, d, out); Sends(w, d.scene.workspace, d.pid, a.Executed?, v)
  {
    SettleSends(w, d, out);
  }

  lemma SettleSends(w: World, d: Deed, out: Outcome)
    ensures var (v, a) := Settle(w, d, out);
            var ws := d.scene.workspace;
            var n := SeqOf(w.memory, ws) + 1;
            && v.epoch == w.epoch && (out.Receipted? ==> a.Executed?) && (out.Halted? ==> a == out.answer)
            && if out.Receipted?
               then v.events == w.events + [Event(w.epoch, ws, n, d.pid)] && v.memory.seqs == w.memory.seqs[ws := n]
               else v.events == w.events && v.memory.seqs == w.memory.seqs
  {
  }

  /** Over every run, restarts included: each life numbers each workspace's events 1, 2, 3, … */
  lemma {:induction false} EventsCount(w: World, steps: seq<Step>)
    requires EventsOk(w)
    ensures EventsOk(Run(w, steps))
    decreases |steps|
  {
    if steps != [] {
      StepEvents(w, steps[0]);
      EventsCount(Next(w, steps[0]).0, steps[1..]);
    }
  }

  /** Where an event stands in its own life's sequence. */
  lemma {:induction false} NumberAt(events: seq<Event>, i: nat)
    requires i < |events|
    ensures var e := events[i];
            var p := |Sequence(events[..i], e.epoch, e.workspace)|;
            p < |Sequence(events, e.epoch, e.workspace)| && Sequence(events, e.epoch, e.workspace)[p] == e.sequence
    decreases |events|
  {
    var last := |events| - 1;
    if i < last {
      assert events[..last][..i] == events[..i];
      NumberAt(events[..last], i);
    }
  }

  lemma {:induction false} SequenceGrows(events: seq<Event>, i: nat, j: nat, epoch: nat, ws: string)
    requires i < j <= |events| && Of(events[i], epoch, ws)
    ensures |Sequence(events[..i], epoch, ws)| < |Sequence(events[..j], epoch, ws)|
    decreases j
  {
    assert events[..j][..j - 1] == events[..j - 1];
    if i < j - 1 {
      SequenceGrows(events, i, j - 1, epoch, ws);
    }
  }

  lemma {:induction false} FirstEvent(events: seq<Event>, epoch: nat, ws: string) returns (i: nat)
    requires |Sequence(events, epoch, ws)| > 0
    ensures i < |events| && Of(events[i], epoch, ws) && Sequence(events[..i], epoch, ws) == []
    decreases |events|
  {
    var last := |events| - 1;
    if |Sequence(events[..last], epoch, ws)| > 0 {
      i := FirstEvent(events[..last], epoch, ws);
      assert events[..last][..i] == events[..i];
    } else {
      i := last;
    }
  }

  /** Two events of one workspace carry the same number. */
  ghost predicate NumberRepeats(events: seq<Event>, ws: string) {
    exists i, j | 0 <= i < j < |events| ::
      events[i].workspace == ws && events[j].workspace == ws && events[i].sequence == events[j].sequence
  }

  /** The workspace was served in two lives of the adapter. */
  ghost predicate ServedTwice(events: seq<Event>, ws: string) {
    exists i, j | 0 <= i < |events| && 0 <= j < |events| ::
      events[i].workspace == ws && events[j].workspace == ws && events[i].epoch != events[j].epoch
  }

  /** Over every run: a workspace sees a sequence number twice exactly when it was served before and
      after a restart. */
  lemma NumbersRepeatExactlyWhen(w: World, steps: seq<Step>, ws: string)
    requires Initial(w)
    ensures NumberRepeats(Run(w, steps).events, ws) <==> ServedTwice(Run(w, steps).events, ws)
  {
    FreshEvents(w);
    EventsCount(w, steps);
    var v := Run(w, steps);
    if NumberRepeats(v.events, ws) {
      var i, j :| 0 <= i < j < |v.events| && v.events[i].workspace == ws && v.events[j].workspace == ws
                  && v.events[i].sequence == v.events[j].sequence;
      if v.events[i].epoch == v.events[j].epoch {
        SameLifeDiffers(v, i, j);
      }
    }
    if ServedTwice(v.events, ws) {
      var i, j :| 0 <= i < |v.events| && 0 <= j < |v.events|
                  && v.events[i].workspace == ws && v.events[j].workspace == ws
                  && v.events[i].epoch != v.events[j].epoch;
      var a := NumberOne(v, i);
      var b := NumberOne(v, j);
      var x, y := if a < b then a else b, if a < b then b else a;
      assert 0 <= x < y < |v.events| && v.events[x].workspace == ws && v.events[y].workspace == ws
             && v.events[x].sequence == v.events[y].sequence;
    }
  }

  lemma FreshEvents(w: World)
    requires Initial(w)
    ensures EventsOk(w)
  {
    forall epoch, ws ensures Sequence(w.events, epoch, ws) == [] && Counting(0) == [] {}
  }

  lemma SameLifeDiffers(w: World, i: nat, j: nat)
    requires EventsOk(w) && i < j < |w.events|
    requires w.events[i].epoch == w.events[j].epoch && w.events[i].workspace == w.events[j].workspace
    ensures w.events[i].sequence != w.events[j].sequence
  {
    var e := w.events[i];
    assert Numbered(w.events, e.epoch, e.workspace);
    NumberAt(w.events, i);
    NumberAt(w.events, j);
    SequenceGrows(w.events, i, j, e.epoch, e.workspace);
  }

  /** A life with an event of a workspace has its number one. */
  lemma NumberOne(w: World, i: nat) returns (k: nat)
    requires EventsOk(w) && i < |w.events|
    ensures k < |w.events| && w.events[k].sequence == 1
    ensures w.events[k].epoch == w.events[i].epoch && w.events[k].workspace == w.events[i].workspace
  {
    var e := w.events[i];
    NumberAt(w.events, i);
    k := FirstEvent(w.events, e.epoch, e.workspace);
    NumberAt(w.events, k);
    assert Numbered(w.events, e.epoch, e.workspace);
  }
}
