/** The adapter as it runs: handlers that update its memory in place and write through the client.
    Each handler is proved to do to the whole state exactly what `Protocol` says. */
module Edge {
  import opened Text
  import opened Options
  import opened Values
  import opened Domain
  import opened Governance
  import opened Verbs
  import opened Backend
  import opened Protocol
  import opened Invariants
  import opened Endings
  import Marker

  /** What the ask-first probe reports: `Doubtful` and `Down` are the exceptions it raises. */
  datatype Asked = Absent | Landed(id: string) | Doubtful | Down

  /** How a handler's write ended, as far as the handler can tell. */
  datatype Result =
    | Done(ref: string, comp: Option<Comp>, replay: bool, lkey: LedgerKey)
    | Stopped(answer: Answer, minted: Option<Comp>)

  /** The result together with what was really done to the store. */
  function With(r: Result, e: Effect): Outcome {
    match r
    case Done(ref, comp, replay, lkey) => Receipted(e, ref, comp, replay, lkey)
    case Stopped(a, minted) => Halted(e, a, minted)
  }

  /** The `except` clauses, in their order. */
  function Excepted(reply: Reply): Result {
    Stopped(if reply == InDoubt then Refusal(Suspended) else FailedTerminal, None)
  }

  class ShimState {
    var proposals: map<nat, Proposal>
    var ledger: map<LedgerKey, Receipt>
    var executed: set<nat>
    var compensations: map<nat, Comp>
    var seqs: map<string, nat>

    constructor ()
      ensures Contents() == EMPTY
    {
      proposals, ledger, executed, compensations, seqs := map[], map[], {}, map[], map[];
    }

    ghost function Contents(): Memory
      reads this
    {
      Memory(proposals, ledger, executed, compensations, seqs)
    }

    method NextSequence(workspace: string) returns (n: nat)
      modifies this`seqs
      ensures n == SeqOf(old(Contents()), workspace) + 1
      ensures Contents() == old(Contents()).(seqs := old(seqs)[workspace := n])
    {
      n := (if workspace in seqs then seqs[workspace] else 0) + 1;
      seqs := seqs[workspace := n];
    }
  }

  class Adapter {
    const client: Client
    const governance: PolicyState
    const digest: string -> string
    var state: ShimState
    var next: nat
    var epoch: nat
    var events: seq<Event>
    ghost var hist: History

    constructor (client: Client, governance: PolicyState, digest: string -> string)
      requires StoreOk(client.View())
      ensures this.client == client && this.governance == governance && fresh(state)
      ensures Initial(World()) && Valid() && World().store == client.View() && World().policy == governance.policy
    {
      this.client, this.governance, this.digest := client, governance, digest;
      state := new ShimState();
      next, epoch, events, hist := 0, 0, [], History(map[], [], map[]);
    }

    /** The whole state, as the protocol's functions speak of it. */
    ghost function World(): World
      reads this, client, governance, state
    {
      Protocol.World(client.View(), state.Contents(), governance.policy, next, epoch, events, digest, hist)
    }

    /** What every handler keeps. */
    ghost predicate Valid()
      reads this, client, governance, state
    {
      Inv(World())
    }

    // -------------------------------------------------------------- ask first

    /** `_find_by_marker`. */
    method FindByMarker(model: string, field: string, marker: string, up: bool, unseen: set<Key>) returns (asked: Asked)
      ensures !up <==> asked == Down
      ensures up ==> asked == match Probe(Before(client.View(), unseen), model, CarriesTest(field, marker))
                              case Nothing => Absent case One(id) => Landed(id) case Many => Doubtful
    {
      if !up {
        return Down;
      }
      var found := client.Search2(model, CarriesTest(field, marker), unseen);
      match found
      case Nothing => asked := Absent;
      case One(id) => asked := Landed(id);
      case Many => asked := Doubtful;
    }

    /** The end of a curated commit: the read-back, then the reversal. */
    method Finish(v: VerbName, id: string, image: Option<Comp>, replay: bool, lkey: LedgerKey, readBack: bool,
                  o: Oracle, ghost e: Effect)
      returns (r: Result)
      ensures With(r, e) == CuratedReceipt(v, e, id, image, replay, lkey, readBack, o)
    {
      if readBack && !o.verifyUp {
        return Stopped(Crashed, None);
      }
      r := Done(id, TokenFor(v, id, image), replay, lkey);
    }

    /** The answer of the create was lost: ask what happened instead of repeating it. */
    method AskAgain(v: VerbName, model: string, field: string, marker: string, key: string, o: Oracle, unseen: set<Key>,
                    ghost e: Effect)
      returns (r: Result)
      requires o.probeUp && o.write.Lost?
      ensures With(r, e)
              == CommitKeyedCreate(v, e, key, Nothing,
                                   Probe(Before(client.View(), unseen), model, CarriesTest(field, marker)), o)
    {
      var asked := FindByMarker(model, field, marker, o.reprobeUp, unseen);
      if asked.Landed? {
        r := Finish(v, asked.id, None, true, Named(key), true, o, e);
      } else {
        r := Stopped(Refusal(Suspended), None);
      }
    }

    /** The create was answered: with the record, or with a refusal. */
    method Answered(v: VerbName, key: string, reply: Reply, o: Oracle, ghost e: Effect, ghost second: Found)
      returns (r: Result)
      requires o.probeUp && reply == WriteReply(o.write) && reply != InDoubt
      ensures With(r, e) == CommitKeyedCreate(v, e, key, Nothing, second, o)
    {
      if reply == Ok {
        r := Finish(v, o.newId, None, false, Named(key), true, o, e);
      } else {
        r := Stopped(FailedTerminal, None);
      }
    }

    method WriteKeyed(v: VerbName, model: string, field: string, doc: Row, marker: string, key: string, o: Oracle)
      returns (r: Result, ghost e: Effect)
      requires o.probeUp && Key(model, o.newId) !in client.rows
      modifies client
      ensures e == CreateEffect(Key(model, o.newId), doc, o.write) && client.View() == Apply(old(client.View()), e)
      ensures With(r, e)
              == CommitKeyedCreate(v, e, key, Nothing,
                                   Probe(AfterLost(old(client.View()), e, o), model, CarriesTest(field, marker)), o)
    {
      e := CreateEffect(Key(model, o.newId), doc, o.write);
      InFlight(client.View(), Key(model, o.newId), e, model, CarriesTest(field, marker), o);
      var reply := client.Create(model, doc, o.newId, o.write);
      if reply != InDoubt {
        r := Answered(v, key, reply, o, e,
                      Probe(AfterLost(old(client.View()), e, o), model, CarriesTest(field, marker)));
      } else {
        r := AskAgain(v, model, field, marker, key, o, if o.landed then {} else {Key(model, o.newId)}, e);
      }
    }

    /** The keyed create: probe, write, and when the answer is lost probe again. */
    method CreateKeyed(v: VerbName, model: string, field: string, doc: Row, key: string, o: Oracle)
      returns (r: Result, ghost e: Effect)
      requires Key(model, o.newId) !in client.rows
      modifies client
      ensures With(r, e)
              == KeyedCreate(old(client.View()), v, model, field, doc, Marker.IdemMarker(key, digest), key, o)
      ensures client.View() == Apply(old(client.View()), e)
    {
      var marker := Marker.IdemMarker(key, digest);
      e := NoEffect;
      BeforeIsSame(client.View(), {});
      var asked := FindByMarker(model, field, marker, o.probeUp, {});
      match asked
      case Doubtful => r := Stopped(Refusal(Suspended), None);
      case Down => r := Stopped(Refusal(UpstreamUnavailable), None);
      case Landed(id) => r := Finish(v, id, None, true, Named(key), true, o, e);
      case Absent => r, e := WriteKeyed(v, model, field, Stamped(doc, field, marker), marker, key, o);
    }

    // -------------------------------------------------------------- the other writes

    method CreatePlain(v: VerbName, model: string, doc: Row, key: string, o: Oracle)
      returns (r: Result, ghost e: Effect)
      modifies client
      ensures With(r, e) == CommitPlainCreate(v, model, doc, key, o)
      ensures client.View() == Apply(old(client.View()), e)
    {
      e := CreateEffect(Key(model, o.newId), doc, o.write);
      var reply := client.Create(model, doc, o.newId, o.write);
      if reply != Ok {
        r := Excepted(reply);
      } else {
        r := Finish(v, o.newId, None, false, Named(key), doc != map[], o, e);
      }
    }

    method DeleteRecord(v: VerbName, model: string, raw: string, key: string, o: Oracle)
      returns (r: Result, ghost e: Effect)
      modifies client
      ensures With(r, e) == CommitDelete(old(client.View()), v, model, raw, key, o)
      ensures client.View() == Apply(old(client.View()), e)
    {
      e := NoEffect;
      if !o.readUp {
        return Stopped(FailedTerminal, None), NoEffect;
      }
      var id := ResolveOr(client.rows, model, raw, o.alias);
      e := EraseEffect(Key(model, id), o.erase);
      var reply := client.Delete(model, id, o.erase);
      if reply != Ok {
        r := Excepted(reply);
      } else if !o.verifyUp {
        r := Stopped(Crashed, None);
      } else if Key(model, id) in client.rows {
        r := Stopped(FailedTerminal, None);
      } else {
        r := Finish(v, id, None, false, Named(key), false, o, e);
      }
    }

    method UpdateRecord(v: VerbName, model: string, raw: string, doc: Row, key: string, o: Oracle)
      returns (r: Result, ghost e: Effect)
      modifies client
      ensures With(r, e) == CommitUpdate(old(client.View()), v, model, raw, doc, key, o)
      ensures client.View() == Apply(old(client.View()), e)
    {
      e := NoEffect;
      if !o.readUp {
        return Stopped(FailedTerminal, None), NoEffect;
      }
      var id := ResolveOr(client.rows, model, raw, o.alias);
      var image: Option<Comp> := None;
      if Compensations(v) == BeforeImage {
        var before := RowAt(client.rows, Key(model, id));
        image := Some(UndoGeneric(Update, model, id, Snapshot(before, doc)));
      }
      e := UpdateEffect(client.View(), Key(model, id), doc, o.write);
      var reply := client.Update(model, id, doc, o.write);
      if reply != Ok {
        r := Excepted(reply);
      } else {
        r := Finish(v, id, image, false, Named(key), doc != map[] && id != "", o, e);
      }
    }

    method CallAction(v: VerbName, verb: Verb, raw: string, key: string, o: Oracle) returns (r: Result, ghost e: Effect)
      modifies client
      ensures With(r, e) == CommitAction(old(client.View()), v, verb, raw, key, o)
      ensures client.View() == Apply(old(client.View()), e)
    {
      e := NoEffect;
      if !o.readUp {
        return Stopped(FailedTerminal, None), NoEffect;
      }
      var id := ResolveOr(client.rows, verb.doctype, raw, o.alias);
      e := CallEffect(Call(verb.doctype, id, verb.action), o.call);
      var reply := client.CallMethod(verb.doctype, id, verb.action, o.call);
      if reply != Ok {
        r := Excepted(reply);
      } else {
        var image: Option<Comp> := None;
        if verb.reverse != "" {
          image := Some(UndoMethod(verb.doctype, id, verb.reverse, verb.tier));
        }
        r := Finish(v, id, image, false, Named(key), false, o, e);
      }
    }

    // -------------------------------------------------------------- upsert

    /** The probes, in order. The loop variable is the name the idempotency key had. */
    method ProbeInOrder(model: string, keys: seq<DedupKey>, doc: Row, own: string, down: set<nat>)
      returns (found: Probed)
      ensures found == ProbeKeysFrom(client.View(), model, keys, doc, down, 0, Named(own))
    {
      BeforeIsSame(client.View(), {});
      var key := Named(own);
      var i := 0;
      while i < |keys|
        invariant i <= |keys|
        invariant ProbeKeysFrom(client.View(), model, keys, doc, down, 0, Named(own))
                  == ProbeKeysFrom(client.View(), model, keys, doc, down, i, key)
      {
        key := LedgerKeyOf(keys[i]);
        var domain := ProbeDomain(keys[i], doc);
        if domain.Some? {
          if i in down {
            return Stuck;
          }
          var hits := client.Search2(model, DomainTest(domain.value), {});
          match hits
          case Many => return Stuck;
          case One(id) => return Match(id, key);
          case Nothing =>
        }
        i := i + 1;
      }
      found := NoMatch(key);
    }

    method UpsertRecord(v: VerbName, model: string, doc: Row, found: Probed, o: Oracle)
      returns (r: Result, ghost e: Effect)
      modifies client
      ensures With(r, e) == CommitUpsert(old(client.View()), v, model, doc, found, o)
      ensures client.View() == Apply(old(client.View()), e)
    {
      e := NoEffect;
      match found
      case Stuck => r := Stopped(FailedTerminal, None);
      case NoMatch(lkey) =>
        e := CreateEffect(Key(model, o.newId), doc, o.write);
        var reply := client.Create(model, doc, o.newId, o.write);
        if reply != Ok {
          r := Excepted(reply);
        } else {
          r := Finish(v, o.newId, None, false, lkey, doc != map[], o, e);
        }
      case Match(id, lkey) => r, e := PatchMatch(v, model, doc, id, lkey, o);
    }

    method PatchMatch(v: VerbName, model: string, doc: Row, id: string, lkey: LedgerKey, o: Oracle)
      returns (r: Result, ghost e: Effect)
      modifies client
      ensures With(r, e) == CommitUpsert(old(client.View()), v, model, doc, Match(id, lkey), o)
      ensures client.View() == Apply(old(client.View()), e)
    {
      e := NoEffect;
      if !o.readUp {
        return Stopped(FailedTerminal, None), NoEffect;
      }
      var image := UndoGeneric(Update, model, id, Snapshot(RowAt(client.rows, Key(model, id)), doc));
      e := UpdateEffect(client.View(), Key(model, id), doc, o.write);
      MatchedUpsert(client.View(), v, model, doc, id, lkey, image, o);
      var reply := client.Update(model, id, doc, o.write);
      if reply != Ok {
        r := Excepted(reply);
      } else {
        r := Finish(v, id, Some(image), false, lkey, doc != map[], o, e);
      }
    }

    // -------------------------------------------------------------- generic writes and workflow methods

    method EndGeneric(id: string, comp: Comp, key: string, o: Oracle, ghost e: Effect) returns (r: Result)
      ensures With(r, e) == Verified(e, id, comp, key, o)
    {
      if o.verifyUp {
        r := Done(id, Some(comp), false, Named(key));
      } else {
        r := Stopped(Crashed, Some(comp));
      }
    }

    method WriteGeneric(p: Proposal, key: string, o: Oracle) returns (r: Result, ghost e: Effect)
      requires p.Generic?
      modifies client
      ensures With(r, e) == CommitGeneric(old(client.View()), p, key, o)
      ensures client.View() == Apply(old(client.View()), e)
    {
      e := NoEffect;
      if o.resolveDown {
        return Stopped(FailedTerminal, None), NoEffect;
      }
      if p.op == Create {
        var data := Resolve(p.data, o);
        e := CreateEffect(Key(p.target, o.newId), data, o.write);
        var reply := client.Create(p.target, data, o.newId, o.write);
        if reply != Ok {
          r := Excepted(reply);
        } else {
          r := EndGeneric(o.newId, UndoGeneric(Delete, p.target, o.newId, map[]), key, o, e);
        }
      } else {
        var id := ResolveId(client.rows, p.target, p.id, o.alias);
        if !o.readUp || id.None? {
          return Stopped(FailedTerminal, None), NoEffect;
        }
        if p.op == Update {
          r, e := UpdateGeneric(p, id.value, key, o);
        } else {
          r, e := DeleteGeneric(p, id.value, key, o);
        }
      }
    }

    method UpdateGeneric(p: Proposal, id: string, key: string, o: Oracle) returns (r: Result, ghost e: Effect)
      requires p.Generic? && p.op == Update && !o.resolveDown && o.readUp
      requires ResolveId(client.rows, p.target, p.id, o.alias) == Some(id)
      modifies client
      ensures With(r, e) == CommitGeneric(old(client.View()), p, key, o)
      ensures client.View() == Apply(old(client.View()), e)
    {
      var data := Resolve(p.data, o);
      var before := RowAt(client.rows, Key(p.target, id));
      if p.bound.Some? && p.bound.value != Snapshot(before, data) {
        return Stopped(Refusal(PreconditionFailed), None), NoEffect;
      }
      e := UpdateEffect(client.View(), Key(p.target, id), data, o.write);
      var reply := client.Update(p.target, id, data, o.write);
      if reply != Ok {
        r := Excepted(reply);
      } else {
        r := EndGeneric(id, UndoGeneric(Update, p.target, id, before), key, o, e);
      }
    }

    method DeleteGeneric(p: Proposal, id: string, key: string, o: Oracle) returns (r: Result, ghost e: Effect)
      requires p.Generic? && p.op == Delete && !o.resolveDown && o.readUp
      requires ResolveId(client.rows, p.target, p.id, o.alias) == Some(id)
      modifies client
      ensures With(r, e) == CommitGeneric(old(client.View()), p, key, o)
      ensures client.View() == Apply(old(client.View()), e)
    {
      var before := RowAt(client.rows, Key(p.target, id));
      e := EraseEffect(Key(p.target, id), o.erase);
      var reply := client.Delete(p.target, id, o.erase);
      if reply != Ok {
        r := Excepted(reply);
      } else {
        r := EndGeneric(id, UndoGeneric(Create, p.target, "", before), key, o, e);
      }
    }

    method InvokeMethod(ws: string, p: Proposal, key: string, o: Oracle) returns (r: Result, ghost e: Effect)
      requires p.MethodCall?
      modifies client
      ensures With(r, e) == CommitMethodCall(old(client.View()), governance.policy, ws, p, key, o)
      ensures client.View() == Apply(old(client.View()), e)
    {
      e := NoEffect;
      if !o.readUp {
        return Stopped(FailedTerminal, None), NoEffect;
      }
      var id := ResolveOr(client.rows, p.target, p.id, o.alias);
      e := CallEffect(Call(p.target, id, p.action), o.call);
      var reply := client.CallMethod(p.target, id, p.action, o.call);
      if reply != Ok {
        r := Excepted(reply);
      } else {
        var reverse := MethodReverse(governance.policy, p.target, p.action, ws);
        var comp := if reverse == "" then None else Some(UndoMethod(p.target, id, reverse, p.tier));
        r := Done(id, comp, false, Named(key));
      }
    }

    /** A curated verb, by its declared strategy. */
    method WriteCurated(p: Proposal, key: string, o: Oracle) returns (r: Result, ghost e: Effect)
      requires p.Curated? && forall k | k in client.rows :: k.id != o.newId
      modifies client
      ensures With(r, e) == CommitCurated(old(client.View()), p, key, digest, o)
      ensures client.View() == Apply(old(client.View()), e)
    {
      if o.resolveDown {
        return Stopped(FailedTerminal, None), NoEffect;
      }
      r, e := RunVerb(p.verb, Lookup(p.verb), p.args, Resolve(p.native, o), key, o);
    }

    method RunVerb(v: VerbName, verb: Verb, args: Row, doc: Row, key: string, o: Oracle)
      returns (r: Result, ghost e: Effect)
      requires forall k | k in client.rows :: k.id != o.newId
      modifies client
      ensures With(r, e) == Dispatch(old(client.View()), v, verb, args, doc, key, digest, o)
      ensures client.View() == Apply(old(client.View()), e)
    {
      match verb.op
      case DeleteOp => r, e := DeleteRecord(v, verb.doctype, TargetArg(verb, args), key, o);
      case UpdateOp => r, e := UpdateRecord(v, verb.doctype, TargetArg(verb, args), doc, key, o);
      case MethodOp => r, e := CallAction(v, verb, TargetArg(verb, args), key, o);
      case UpsertOp => r, e := ProbeAndWrite(v, verb, args, doc, key, o);
      case CreateOp => r, e := CreateRecord(v, verb, args, doc, key, o);
    }

    method ProbeAndWrite(v: VerbName, verb: Verb, args: Row, doc: Row, key: string, o: Oracle)
      returns (r: Result, ghost e: Effect)
      requires verb.op == UpsertOp
      modifies client
      ensures With(r, e) == Dispatch(old(client.View()), v, verb, args, doc, key, digest, o)
      ensures client.View() == Apply(old(client.View()), e)
    {
      var found := ProbeInOrder(verb.doctype, ProbeKeys(v, args), doc, key, o.downProbes);
      r, e := UpsertRecord(v, verb.doctype, doc, found, o);
    }

    method CreateRecord(v: VerbName, verb: Verb, args: Row, doc: Row, key: string, o: Oracle)
      returns (r: Result, ghost e: Effect)
      requires verb.op == CreateOp && forall k | k in client.rows :: k.id != o.newId
      modifies client
      ensures With(r, e) == Dispatch(old(client.View()), v, verb, args, doc, key, digest, o)
      ensures client.View() == Apply(old(client.View()), e)
    {
      if verb.stamp != "" && o.stampable {
        r, e := CreateKeyed(v, verb.doctype, verb.stamp, doc, key, o);
      } else {
        r, e := CreatePlain(v, verb.doctype, doc, key, o);
      }
    }

    // -------------------------------------------------------------- handlers

    method MintToken(comp: Option<Comp>, ghost d: Deed) returns (token: Option<nat>)
      modifies this, state
      ensures state == old(state)
      ensures World() == WithToken(old(World()), d, comp)
      ensures token == if comp.Some? then Some(old(next)) else None
    {
      token := None;
      if comp.Some? {
        token := Some(next);
        state.compensations := state.compensations[next := comp.value];
        hist := hist.(minted := hist.minted[next := Minted(d, comp.value)]);
        next := next + 1;
      }
    }

    method Register(ws: string, lkey: LedgerKey, receipt: Receipt)
      modifies this, state
      ensures state == old(state)
      ensures World() == WithReceipt(old(World()), ws, lkey, receipt)
    {
      state.ledger := state.ledger[lkey := receipt];
      state.executed := state.executed + {receipt.pid};
      var n := state.NextSequence(ws);
      events := events + [Event(epoch, ws, n, receipt.pid)];
    }

    ghost method Log(d: Deed)
      modifies this`hist
      ensures hist == old(hist).(effects := if d.effect == NoEffect then old(hist).effects else old(hist).effects + [d])
    {
      if d.effect != NoEffect {
        hist := hist.(effects := hist.effects + [d]);
      }
    }

    /** The write itself, with what its answer and its effect are in terms of the backend's replies. */
    method Perform(ws: string, p: Proposal, key: string, o: Oracle) returns (r: Result, ghost e: Effect)
      requires StoreOk(client.View()) && o.newId != "" && forall k | k in client.used :: k.id != o.newId
      modifies client
      ensures EndsAsSaid(old(client.View()), p, key, digest, o, With(r, e))
      ensures WritesAsSaid(old(client.View()), p, key, digest, o, e)
      ensures With(r, e) == Protocol.Perform(old(client.View()), governance.policy, digest, ws, p, key, o)
      ensures client.View() == Apply(old(client.View()), e)
    {
      AnsweredExactlyWhen(client.View(), governance.policy, digest, ws, p, key, o);
      WritesExactlyWhen(client.View(), governance.policy, digest, ws, p, key, o);
      match p
      case MethodCall(_, _, _, _) => r, e := InvokeMethod(ws, p, key, o);
      case Generic(_, _, _, _, _) => r, e := WriteGeneric(p, key, o);
      case Curated(_, _, _) => r, e := WriteCurated(p, key, o);
    }

    method Settle(ws: string, pid: nat, r: Result, ghost d: Deed, ghost before: World) returns (a: Answer)
      requires World() == before.(store := Apply(before.store, d.effect)) && d.pid == pid && d.scene.workspace == ws
      modifies this, state
      ensures state == old(state)
      ensures (World(), a) == Protocol.Settle(before, d, With(r, d.effect))
    {
      Log(d);
      assert World() == WithEffect(before, d);
      match r
      case Stopped(answer, minted) =>
        var _ := MintToken(minted, d);
        a := answer;
      case Done(ref, comp, replay, lkey) =>
        var token := MintToken(comp, d);
        var receipt := Receipt(pid, ref, replay, token);
        Register(ws, lkey, receipt);
        a := Executed(receipt);
    }

    method Commit(ws: string, key: string, pid: nat, o: Oracle) returns (a: Answer)
      requires Valid() && StepOk(World(), DoCommit(ws, key, pid, o))
      modifies this, client, state
      ensures Valid() && state == old(state)
      ensures (World(), a) == Protocol.Commit(old(World()), ws, key, pid, o)
    {
      CommitKeepsInv(World(), ws, key, pid, o);
      if key == "" {
        return Refusal(Malformed);
      }
      if Named(key) in state.ledger {
        return Executed(state.ledger[Named(key)].(replayed := true));
      }
      if pid !in state.proposals {
        return Refusal(Expired);
      }
      ghost var before := World();
      ghost var e;
      var r;
      r, e := Perform(ws, state.proposals[pid], key, o);
      a := Settle(ws, pid, r, DeedOf(before, ws, key, pid, o, e), before);
    }

    method Store(p: Proposal, ghost origin: Origin) returns (pid: nat)
      modifies this, state
      ensures state == old(state) && pid == old(next)
      ensures World() == WithProposal(old(World()), p, origin)
    {
      pid := next;
      state.proposals := state.proposals[pid := p];
      next := next + 1;
      hist := hist.(origins := hist.origins[pid := origin]);
    }

    method Propose(ws: string, q: Request, o: ProposeOracle) returns (a: Answer)
      requires Valid()
      modifies this, state
      ensures Valid() && state == old(state)
      ensures (World(), a) == Protocol.Propose(old(World()), ws, q, o)
    {
      ProposeKeepsInv(World(), ws, q, o);
      var d := Decide(client.rows, governance.policy, ws, q, o);
      match d
      case Deny(code) => a := Refusal(code);
      case Grant(tier, p) =>
        var pid := Store(p, Granted(governance.policy, ws, tier, p));
        a := Proposed(pid, tier);
    }

    method Rollback(token: nat) returns (a: Answer)
      requires Valid()
      modifies this, state
      ensures Valid() && state == old(state)
      ensures (World(), a) == Protocol.Rollback(old(World()), token)
    {
      RollbackKeepsInv(World(), token);
      if token !in state.compensations {
        return Refusal(CompensationExpired);
      }
      var undo := UndoProposal(state.compensations[token]);
      match undo
      case CannotUndo => a := Refusal(IrreversibleEffect);
      case UndoCrash => a := Crashed;
      case UndoAs(p, tier) =>
        var pid := Store(p, ReversalOf(token, tier, p));
        a := Proposed(pid, tier);
    }

    method Status(pid: nat) returns (s: Standing)
      ensures s == Protocol.Status(World().memory, pid)
    {
      if pid in state.executed {
        s := IsExecuted;
      } else if pid in state.proposals {
        s := IsPending;
      } else {
        s := IsExpired;
      }
    }

    /** `_status_by_key`. */
    method StatusByKey(v: VerbName, key: string, stampable: bool, up: bool) returns (s: KeyStatus)
      ensures s == Protocol.StatusByKey(client.View(), v, key, digest, stampable, up)
    {
      var verb := Lookup(v);
      if verb.stamp == "" {
        return if verb.convergent then KeyNotFound else KeyUnknown;
      }
      if !stampable {
        return KeyUnknown;
      }
      BeforeIsSame(client.View(), {});
      var asked := FindByMarker(verb.doctype, verb.stamp, Marker.IdemMarker(key, digest), up, {});
      match asked
      case Doubtful => s := KeyUnknown;
      case Down => s := KeyUnknown;
      case Landed(id) => s := KeyExecuted(id);
      case Absent => s := KeyNotFound;
    }

    /** A change of grants or scope reaches the policy. */
    method Govern(c: Change)
      requires Valid()
      modifies governance
      ensures Valid() && World() == Next(old(World()), DoGovern(c)).0
    {
      match c
      case GrantWrite(tenant, target, op, tier) => governance.GrantTenantWrite(tenant, target, op, tier);
      case GrantMethod(tenant, target, action, grant) => governance.GrantTenantMethod(tenant, target, action, grant);
      case SetModules(scope) => governance.SetEnabledModules(scope);
      case Reset => governance.ResetPolicy();
    }

    /** The process starts again over the same store. */
    method RestartProcess()
      requires Valid()
      modifies this
      ensures Valid() && fresh(state) && World() == Next(old(World()), Restart).0
    {
      state := new ShimState();
      epoch := epoch + 1;
    }
  }

  /** A create that has not landed yet is a record the probe does not see. */
  lemma InFlight(s: Store, k: Key, e: Effect, model: string, p: Row -> bool, o: Oracle)
    requires k !in s.rows && (e == NoEffect || (e.Created? && e.key == k))
    ensures Probe(Before(Apply(s, e), if o.landed then {} else {k}), model, p) == Probe(AfterLost(s, e, o), model, p)
  {
    SameProbe(Before(Apply(s, e), if o.landed then {} else {k}), AfterLost(s, e, o), model, p);
  }

  lemma SameProbe(s: Store, t: Store, model: string, p: Row -> bool)
    requires s.rows == t.rows
    ensures Probe(s, model, p) == Probe(t, model, p)
  {
    assert Hits(s, model, p) == Hits(t, model, p);
  }
}
