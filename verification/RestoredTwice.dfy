/** A run that leaves two records with one attempt's marker: a stamped order is deleted, and the one
    token of that delete is rolled back twice. Tokens are never used up. */
module RestoredTwice {
  import opened Text
  import opened Options
  import opened Values
  import opened Domain
  import opened Verbs
  import opened Backend
  import opened Protocol
  import opened AttemptKey
  import Governance
  import Marker

  const ORDER := "purchase.order"

  /** A clean run from one state to another. */
  ghost predicate Path(w: World, steps: seq<Step>, v: World, marker: string) {
    CleanRun(w, steps, ORDER, "origin", marker) && Run(w, steps) == v
  }

  lemma {:induction false} PathJoin(w: World, a: seq<Step>, u: World, b: seq<Step>, v: World, marker: string)
    requires Path(w, a, u, marker) && Path(u, b, v, marker)
    ensures Path(w, a + b, v, marker)
    decreases |a|
  {
    if a == [] {
      assert a + b == b;
    } else {
      assert (a + b)[0] == a[0] && (a + b)[1..] == a[1..] + b;
      PathJoin(Next(w, a[0]).0, a[1..], u, b, v, marker);
    }
  }

  lemma PathTwo(w: World, s: Step, u: World, t: Step, v: World, marker: string)
    requires StepOk(w, s) && CleanStep(w, s, ORDER, "origin", marker) && Next(w, s).0 == u
    requires StepOk(u, t) && CleanStep(u, t, ORDER, "origin", marker) && Next(u, t).0 == v
    ensures Path(w, [s, t], v, marker)
  {
    assert [s, t][1..] == [t] && [t][1..] == [];
    assert CleanRun(v, [], ORDER, "origin", marker) && Run(v, []) == v;
    assert CleanRun(u, [t], ORDER, "origin", marker) && Run(u, [t]) == v;
  }

  /** An answering backend that names new records `id`. */
  predicate Answers(o: Oracle, id: string) {
    && !o.resolveDown && o.resolved == map[] && o.stampable && o.probeUp && o.readUp && o.alias.None?
    && o.write == Fine && o.erase == EraseFine && o.verifyUp && o.newId == id && id != ""
  }

  predicate Unused(s: Store, id: string) {
    forall k | k in s.used :: k.id != id
  }

  // ---------------------------------------------------------------- the order

  lemma OrderCreated(w: World, ws: string, args: Row, native: Row, a: ProposeOracle, key: string, o: Oracle, id: string)
    returns (steps: seq<Step>, v: World)
    requires Initial(w) && w.policy == Governance.SHIPPED && HexDigest(w.digest)
    requires a.exists_ && a.gate.None? && Truthy(Field(args, "partner_id")) && Unbracketed(Field(native, "origin"))
    requires key != "" && Answers(o, id) && Unused(w.store, id)
    requires Carriers(w.store, ORDER, "origin", Marker.IdemMarker(key, w.digest)) == {}
    ensures var m := Marker.IdemMarker(key, w.digest);
            && Path(w, steps, v, m)
            && Key(ORDER, id) in v.store.rows && Carries(v.store.rows[Key(ORDER, id)], "origin", m)
    ensures v.memory.ledger.Keys == {Named(key)} && v.store.used == w.store.used + {Key(ORDER, id)}
    ensures v.policy == Governance.SHIPPED && v.digest == w.digest && v.next > w.next
    ensures v.store.rows.Keys == w.store.rows.Keys + {Key(ORDER, id)}
  {
    var m := Marker.IdemMarker(key, w.digest);
    var u := OrderProposed(w, ws, args, native, a);
    v := OrderStored(u, ws, args, native, key, w.next, m, o, id);
    steps := [DoPropose(ws, AskCurated(CreateOrder, args, native), a), DoCommit(ws, key, w.next, o)];
    assert Written(u.memory.proposals[w.next], o) == native;
    PathTwo(w, steps[0], u, steps[1], v, m);
  }

  lemma OrderStored(u: World, ws: string, args: Row, native: Row, key: string, pid: nat, m: string, o: Oracle,
                    id: string) returns (v: World)
    requires u.memory == EMPTY.(proposals := map[pid := Curated(CreateOrder, args, native)])
    requires key != "" && Answers(o, id) && m == Marker.IdemMarker(key, u.digest)
    requires Carriers(u.store, ORDER, "origin", m) == {}
    ensures v == Commit(u, ws, key, pid, o).0
    ensures Key(ORDER, id) in v.store.rows && Carries(v.store.rows[Key(ORDER, id)], "origin", m)
    ensures v.memory.ledger.Keys == {Named(key)} && v.store.used == u.store.used + {Key(ORDER, id)}
    ensures v.policy == u.policy && v.digest == u.digest && v.next >= u.next
    ensures v.store.rows.Keys == u.store.rows.Keys + {Key(ORDER, id)}
  {
    assert Resolve(native, o) == native;
    OrderDispatch(u.store, u.policy, u.digest, ws, Curated(CreateOrder, args, native), key, m, o);
    OrderKeyed(u.store, native, key, m, o, id);
    var out := KeyedCreate(u.store, CreateOrder, ORDER, "origin", native, m, key, o);
    CommitIsSettle(u, ws, key, pid, o, out);
    v := CreateSettles(u, DeedOf(u, ws, key, pid, o, out.effect), out);
  }

  lemma CommitIsSettle(u: World, ws: string, key: string, pid: nat, o: Oracle, out: Outcome)
    requires key != "" && Named(key) !in u.memory.ledger && pid in u.memory.proposals
    requires out == Perform(u.store, u.policy, u.digest, ws, u.memory.proposals[pid], key, o)
    ensures Commit(u, ws, key, pid, o) == Settle(u, DeedOf(u, ws, key, pid, o, out.effect), out)
  {
  }

  lemma CreateSettles(u: World, d: Deed, out: Outcome) returns (v: World)
    requires out.Receipted? && out.effect.Created? && d.effect == out.effect
    ensures v == Settle(u, d, out).0 && v.store.rows == u.store.rows[out.effect.key := out.effect.doc]
    ensures v.memory.ledger.Keys == u.memory.ledger.Keys + {out.ledgerKey}
    ensures v.store.used == u.store.used + {out.effect.key}
    ensures v.policy == u.policy && v.digest == u.digest && v.next >= u.next
  {
    v := Settle(u, d, out).0;
  }

  lemma OrderProposed(w: World, ws: string, args: Row, native: Row, a: ProposeOracle) returns (u: World)
    requires Initial(w) && w.policy == Governance.SHIPPED
    requires a.exists_ && a.gate.None? && Truthy(Field(args, "partner_id"))
    ensures u == Propose(w, ws, AskCurated(CreateOrder, args, native), a).0
    ensures u.memory == EMPTY.(proposals := map[w.next := Curated(CreateOrder, args, native)])
    ensures u.store == w.store && u.policy == w.policy && u.digest == w.digest && u.next == w.next + 1
  {
    var p := Curated(CreateOrder, args, native);
    assert Decide(w.store.rows, w.policy, ws, AskCurated(CreateOrder, args, native), a) == Grant("MEDIUM", p);
    u := WithProposal(w, p, Granted(w.policy, ws, "MEDIUM", p));
  }

  lemma OrderDispatch(s: Store, pol: Governance.Policy, digest: string -> string, ws: string, p: Proposal, key: string,
                      m: string, o: Oracle)
    requires p.Curated? && p.verb == CreateOrder && !o.resolveDown && o.stampable && m == Marker.IdemMarker(key, digest)
    ensures Perform(s, pol, digest, ws, p, key, o)
            == KeyedCreate(s, CreateOrder, ORDER, "origin", Resolve(p.native, o), m, key, o)
  {
  }

  lemma OrderKeyed(s: Store, native: Row, key: string, m: string, o: Oracle, id: string)
    requires Answers(o, id) && Carriers(s, ORDER, "origin", m) == {}
    ensures var out := KeyedCreate(s, CreateOrder, ORDER, "origin", native, m, key, o);
            && out.Receipted? && out.effect.Created? && out.effect.key == Key(ORDER, id) && out.ledgerKey == Named(key)
            && Carries(out.effect.doc, "origin", m)
  {
    assert "origin"[0] == 'o' && "id"[0] == 'i';
    StampedCarries(native, "origin", m);
  }

  // ---------------------------------------------------------------- its delete

  lemma OrderDeleted(w: World, ws: string, id: string, a: ProposeOracle, key: string, o: Oracle, marker: string)
    returns (steps: seq<Step>, v: World)
    requires w.policy == Governance.SHIPPED && id != "" && Key(ORDER, id) in w.store.rows && a.exists_
    requires key != "" && Named(key) !in w.memory.ledger && Answers(o, o.newId) && Unused(w.store, o.newId)
    ensures Path(w, steps, v, marker)
    ensures w.next + 1 in v.memory.comps
            && v.memory.comps[w.next + 1] == UndoGeneric(Governance.Create, ORDER, "", w.store.rows[Key(ORDER, id)])
    ensures v.memory.ledger.Keys == w.memory.ledger.Keys + {Named(key)} && v.store.used == w.store.used
    ensures v.next == w.next + 2 && v.digest == w.digest
  {
    var q := AskGeneric(Some(Governance.Delete), ORDER, id, None);
    var u := DeleteProposed(w, ws, id, q, a);
    v := DeleteCommitted(u, ws, id, key, w.next, o);
    assert Field(Written(u.memory.proposals[w.next], o), "origin") == Null;
    steps := [DoPropose(ws, q, a), DoCommit(ws, key, w.next, o)];
    PathTwo(w, steps[0], u, steps[1], v, marker);
  }

  lemma DeleteProposed(w: World, ws: string, id: string, q: Request, a: ProposeOracle) returns (u: World)
    requires w.policy == Governance.SHIPPED && id != "" && a.exists_
             && q == AskGeneric(Some(Governance.Delete), ORDER, id, None)
    ensures u == Propose(w, ws, q, a).0
    ensures u.memory
            == w.memory.(proposals := w.memory.proposals[w.next := Generic(Governance.Delete, ORDER, id, map[], None)])
    ensures u.store == w.store && u.policy == w.policy && u.digest == w.digest && u.next == w.next + 1
  {
    var p := Generic(Governance.Delete, ORDER, id, map[], None);
    DeleteIsGranted(ws);
    assert Decide(w.store.rows, w.policy, ws, q, a) == Grant("HIGH", p);
    u := WithProposal(w, p, Granted(w.policy, ws, "HIGH", p));
  }

  lemma DeleteCommitted(u: World, ws: string, id: string, key: string, pid: nat, o: Oracle) returns (v: World)
    requires pid in u.memory.proposals && u.memory.proposals[pid] == Generic(Governance.Delete, ORDER, id, map[], None)
    requires id != "" && Key(ORDER, id) in u.store.rows && key != "" && Named(key) !in u.memory.ledger
             && Answers(o, o.newId)
    ensures v == Commit(u, ws, key, pid, o).0
    ensures v.memory.comps
            == u.memory.comps[u.next := UndoGeneric(Governance.Create, ORDER, "", u.store.rows[Key(ORDER, id)])]
    ensures v.memory.ledger.Keys == u.memory.ledger.Keys + {Named(key)} && v.store.used == u.store.used
    ensures v.next == u.next + 1 && v.digest == u.digest
  {
    var comp := UndoGeneric(Governance.Create, ORDER, "", u.store.rows[Key(ORDER, id)]);
    var out := CommitGeneric(u.store, u.memory.proposals[pid], key, o);
    assert out == Receipted(Erased(Key(ORDER, id)), id, Some(comp), false, Named(key));
    v := Settle(u, DeedOf(u, ws, key, pid, o, out.effect), out).0;
  }

  lemma DeleteIsGranted(ws: string)
    ensures Governance.WriteTier(Governance.SHIPPED, ORDER, Governance.Delete, ws) == Some("HIGH")
  {
    Governance.OrderIsGeneral();
  }

  // ---------------------------------------------------------------- two restores

  lemma PreviewedTwice(w: World, token: nat, row: Row, marker: string) returns (steps: seq<Step>, v: World)
    requires token in w.memory.comps && w.memory.comps[token] == UndoGeneric(Governance.Create, ORDER, "", row)
    ensures Path(w, steps, v, marker)
    ensures v.store == w.store && v.digest == w.digest && v.memory.ledger == w.memory.ledger
    ensures forall pid | pid == w.next || pid == w.next + 1 ::
              pid in v.memory.proposals && v.memory.proposals[pid] == Generic(Governance.Create, ORDER, "", row, None)
              && pid in v.hist.origins && v.hist.origins[pid].ReversalOf?
  {
    var u := Rollback(w, token).0;
    v := Rollback(u, token).0;
    steps := [DoRollback(token), DoRollback(token)];
    PathTwo(w, DoRollback(token), u, DoRollback(token), v, marker);
  }

  lemma RestoreCommits(w: World, ws: string, key: string, pid: nat, row: Row, o: Oracle, id: string)
    requires pid in w.memory.proposals && w.memory.proposals[pid] == Generic(Governance.Create, ORDER, "", row, None)
    requires key != "" && Named(key) !in w.memory.ledger && Answers(o, id)
    ensures var v := Commit(w, ws, key, pid, o).0;
            && v.store == Apply(w.store, Created(Key(ORDER, id), Clean(row)))
            && v.memory.ledger.Keys == w.memory.ledger.Keys + {Named(key)}
            && v.memory.proposals == w.memory.proposals && v.hist.origins == w.hist.origins && v.digest == w.digest
  {
    assert Resolve(row, o) == row;
    var out := CommitGeneric(w.store, w.memory.proposals[pid], key, o);
    assert out == Receipted(Created(Key(ORDER, id), Clean(row)), id,
                            Some(UndoGeneric(Governance.Delete, ORDER, id, map[])), false, Named(key));
    assert Commit(w, ws, key, pid, o).0 == Settle(w, DeedOf(w, ws, key, pid, o, out.effect), out).0;
  }

  lemma RestoredPair(w: World, ws: string, pid: nat, row: Row, key1: string, o1: Oracle, id1: string, key2: string,
                     o2: Oracle, id2: string, marker: string)
    returns (steps: seq<Step>, v: World)
    requires forall q | q == pid || q == pid + 1 ::
               q in w.memory.proposals && w.memory.proposals[q] == Generic(Governance.Create, ORDER, "", row, None)
               && q in w.hist.origins && w.hist.origins[q].ReversalOf?
    requires key1 != "" && key2 != "" && key1 != key2 && Named(key1) !in w.memory.ledger
             && Named(key2) !in w.memory.ledger
    requires Answers(o1, id1) && Answers(o2, id2) && id1 != id2 && Unused(w.store, id1) && Unused(w.store, id2)
    requires Carries(row, "origin", marker)
    ensures Path(w, steps, v, marker)
    ensures !AtMostOne(v.store, ORDER, "origin", marker)
  {
    RestoreCommits(w, ws, key1, pid, row, o1, id1);
    var u := Commit(w, ws, key1, pid, o1).0;
    RestoreCommits(u, ws, key2, pid + 1, row, o2, id2);
    v := Commit(u, ws, key2, pid + 1, o2).0;
    steps := [DoCommit(ws, key1, pid, o1), DoCommit(ws, key2, pid + 1, o2)];
    PathTwo(w, DoCommit(ws, key1, pid, o1), u, DoCommit(ws, key2, pid + 1, o2), v, marker);
    TwoCarriers(w.store, Clean(row), row, Key(ORDER, id1), Key(ORDER, id2), marker);
  }

  lemma TwoCarriers(s: Store, clean: Row, row: Row, a: Key, b: Key, marker: string)
    requires Carries(row, "origin", marker) && clean == Clean(row) && a != b && a.model == ORDER && b.model == ORDER
    ensures !AtMostOne(Apply(Apply(s, Created(a, clean)), Created(b, clean)), ORDER, "origin", marker)
  {
    CleanCarries(row, marker);
    var t := Apply(Apply(s, Created(a, clean)), Created(b, clean));
    assert a in Carriers(t, ORDER, "origin", marker) && b in Carriers(t, ORDER, "origin", marker);
  }

  lemma CleanCarries(row: Row, marker: string)
    requires Carries(row, "origin", marker)
    ensures Carries(Clean(row), "origin", marker)
  {
    assert "origin"[0] == 'o' && "id"[0] == 'i';
    assert Field(Clean(row), "origin") == Field(row, "origin");
  }

  // ---------------------------------------------------------------- the run

  /** From a fresh adapter with the shipped policy, no caller value with a bracket in it, every call
      answered: create an order under `key`, delete it, roll the delete back twice, commit both
      reversals. Two orders carry the marker of `key`. */
  lemma OneTokenRestoresTwice(w: World, ws: string, args: Row, native: Row, a: ProposeOracle,
                              key: string, keys: seq<string>, os: seq<Oracle>, ids: seq<string>)
    returns (steps: seq<Step>, v: World)
    requires Initial(w) && w.policy == Governance.SHIPPED && HexDigest(w.digest)
    requires a.exists_ && a.gate.None? && Truthy(Field(args, "partner_id")) && Unbracketed(Field(native, "origin"))
    requires Carriers(w.store, ORDER, "origin", Marker.IdemMarker(key, w.digest)) == {}
    requires |keys| == 3 && |os| == 4 && |ids| == 4
    requires key != "" && (forall i | 0 <= i < 3 :: keys[i] != "" && keys[i] != key) && keys[0] != keys[1]
             && keys[0] != keys[2] && keys[1] != keys[2]
    requires forall i | 0 <= i < 4 :: Answers(os[i], ids[i]) && Unused(w.store, ids[i])
    requires ids[1] != ids[0] && ids[2] != ids[0] && ids[3] != ids[0] && ids[2] != ids[3]
    ensures CleanRun(w, steps, ORDER, "origin", Marker.IdemMarker(key, w.digest)) && Run(w, steps) == v
    ensures !AtMostOne(v.store, ORDER, "origin", Marker.IdemMarker(key, w.digest))
  {
    var m := Marker.IdemMarker(key, w.digest);
    var s1, w1 := OrderCreated(w, ws, args, native, a, key, os[0], ids[0]);
    var row := w1.store.rows[Key(ORDER, ids[0])];
    var s2, w2 := OrderDeleted(w1, ws, ids[0], a, keys[0], os[1], m);
    PathJoin(w, s1, w1, s2, w2, m);
    var s3, w3 := PreviewedTwice(w2, w1.next + 1, row, m);
    PathJoin(w, s1 + s2, w2, s3, w3, m);
    var s4;
    s4, v := RestoredPair(w3, ws, w2.next, row, keys[1], os[2], ids[2], keys[2], os[3], ids[3], m);
    PathJoin(w, s1 + s2 + s3, w3, s4, v, m);
    steps := s1 + s2 + s3 + s4;
  }
}
