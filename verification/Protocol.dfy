/** Propose, commit, status and rollback as functions on the whole state: what each request does to
    the backing store and to the adapter's own memory, for every way a backend call can end. */
module Protocol {
  import opened Text
  import opened Options
  import opened Values
  import opened Domain
  import opened Governance
  import opened Verbs
  import opened Backend
  import Marker

  // ---------------------------------------------------------------- state

  datatype LedgerKey = Named(key: string) | Fields(fields: seq<string>) | Triples(triples: seq<Token>)

  /** A stored proposal: a workflow method, a generic write, or a curated verb. `bound` is the
      snapshot bound at PROPOSE, None when there is nothing to compare. */
  datatype Proposal =
    | MethodCall(target: string, id: string, action: string, tier: string)
    | Generic(op: WriteOp, target: string, id: string, data: Row, bound: Option<Row>)
    | Curated(verb: VerbName, args: Row, native: Row)

  /** What a compensation token stands for. */
  datatype Comp =
    | UndoMethod(target: string, id: string, action: string, tier: string)
    | UndoGeneric(op: WriteOp, target: string, id: string, data: Row)
    | UndoVerb(verb: VerbName, id: string)

  /** The STATUS body of an executed commit. */
  datatype Receipt = Receipt(pid: nat, ref: string, replayed: bool, token: Option<nat>)

  /** The adapter's memory: everything a restart loses. */
  datatype Memory = Memory(
    proposals: map<nat, Proposal>,
    ledger: map<LedgerKey, Receipt>,
    executed: set<nat>,
    comps: map<nat, Comp>,
    seqs: map<string, nat>)

  const EMPTY := Memory(map[], map[], {}, map[], map[])

  /** An EVENT: `epoch` counts restarts. */
  datatype Event = Event(epoch: nat, workspace: string, sequence: nat, pid: nat)

  /** How a proposal came to be. */
  datatype Origin =
    | Granted(policy: Policy, workspace: string, tier: string, proposal: Proposal)
    | ReversalOf(token: nat, tier: string, proposal: Proposal)

  /** What a commit met: the records, the policy, who asked under which key, what the environment made
      of human terms, and whether the live schema has the stamp field. */
  datatype Scene = Scene(
    rows: map<Key, Row>,
    policy: Policy,
    workspace: string,
    key: string,
    digest: string -> string,
    resolved: Row,
    alias: Option<string>,
    stampable: bool)

  /** What a commit of a proposal did, where. */
  datatype Deed = Deed(pid: nat, scene: Scene, effect: Effect)

  datatype Minted = Minted(deed: Deed, comp: Comp)

  /** The record of the run: origins of proposals, effects on the store, tokens handed out. */
  datatype History = History(
    origins: map<nat, Origin>,
    effects: seq<Deed>,
    minted: map<nat, Minted>)

  /** `next` numbers proposals and tokens; `digest` is the hash used for overlong keys. */
  datatype World = World(
    store: Store,
    memory: Memory,
    policy: Policy,
    next: nat,
    epoch: nat,
    events: seq<Event>,
    digest: string -> string,
    hist: History)

  datatype Code =
    | Malformed | Expired | UnknownVerb | InvalidArgs | UpstreamUnavailable | PreconditionFailed
    | Suspended | Ambiguous | CompensationExpired | IrreversibleEffect

  /** An answer. `Crashed` is an exception that leaves the handler. */
  datatype Answer =
    | Refusal(code: Code)
    | Proposed(pid: nat, tier: string)
    | Executed(receipt: Receipt)
    | FailedTerminal
    | Crashed

  // ---------------------------------------------------------------- the environment's choices

  /** How the backend answers during one commit. `resolved` overrides the fields whose live schema
      maps a human term to an id or key; `alias` is the one record a human identifier names. */
  datatype Oracle = Oracle(
    resolveDown: bool,
    resolved: Row,
    stampable: bool,
    probeUp: bool,
    reprobeUp: bool,
    landed: bool,
    downProbes: set<nat>,
    readUp: bool,
    alias: Option<string>,
    newId: string,
    write: WriteFault,
    erase: EraseFault,
    call: CallFault,
    verifyUp: bool)

  datatype ProposeOracle = ProposeOracle(exists_: bool, gate: Option<Code>, alias: Option<string>, numeric: bool)

  // ---------------------------------------------------------------- commit

  /** How far a commit came: to its receipt, or to an earlier answer. */
  datatype Outcome =
    | Receipted(effect: Effect, ref: string, comp: Option<Comp>, replay: bool, ledgerKey: LedgerKey)
    | Halted(effect: Effect, answer: Answer, minted: Option<Comp>)

  function Stop(e: Effect, a: Answer): Outcome {
    Halted(e, a, None)
  }

  /** A receipt goes under `lkey`, and only a receipt is answered `executed`. */
  predicate Filed(out: Outcome, lkey: LedgerKey) {
    match out
    case Receipted(_, _, _, _, k) => k == lkey
    case Halted(_, a, _) => !a.Executed? && !a.Proposed?
  }

  /** The `except` clauses: a lost answer suspends, a refusal is terminal. */
  function Failed(e: Effect, r: Reply): Outcome {
    Stop(e, if r == InDoubt then Refusal(Suspended) else FailedTerminal)
  }

  /** `_resolve_writes`: the same fields, some values replaced. */
  function Resolve(doc: Row, o: Oracle): Row {
    ResolveWith(doc, o.resolved)
  }

  function ResolveWith(doc: Row, resolved: Row): Row {
    map f | f in doc :: if f in resolved then resolved[f] else doc[f]
  }

  /** `_resolve_id`: the id itself when it is one, else the record a human identifier names. */
  function ResolveId(rows: map<Key, Row>, model: string, raw: string, alias: Option<string>): Option<string> {
    if raw == "" then None
    else if Key(model, raw) in rows then Some(raw)
    else if alias.Some? && Key(model, alias.value) in rows then alias
    else None
  }

  function ResolveOr(rows: map<Key, Row>, model: string, raw: string, alias: Option<string>): string {
    match ResolveId(rows, model, raw, alias) case Some(id) => id case None => raw
  }

  function RowAt(rows: map<Key, Row>, k: Key): Row {
    if k in rows then rows[k] else map[]
  }

  /** The values a write is about to replace. */
  function Snapshot(row: Row, doc: Row): Row {
    map f | f in doc :: Field(row, f)
  }

  function CommitMethodCall(s: Store, pol: Policy, ws: string, p: Proposal, key: string, o: Oracle): (out: Outcome)
    requires p.MethodCall?
    ensures !out.effect.Created? && !out.effect.Patched?
    ensures Filed(out, Named(key))
  {
    if !o.readUp then Stop(NoEffect, FailedTerminal)
    else
      var id := ResolveOr(s.rows, p.target, p.id, o.alias);
      var effect := CallEffect(Call(p.target, id, p.action), o.call);
      if CallReply(o.call) != Ok then Failed(effect, CallReply(o.call))
      else
        var reverse := MethodReverse(pol, p.target, p.action, ws);
        var comp := if reverse == "" then None else Some(UndoMethod(p.target, id, reverse, p.tier));
        Receipted(effect, id, comp, false, Named(key))
  }

  /** The token of a generic write exists before its verification reads back. */
  function Verified(effect: Effect, id: string, comp: Comp, key: string, o: Oracle): (out: Outcome)
    ensures Filed(out, Named(key))
  {
    if o.verifyUp then Receipted(effect, id, Some(comp), false, Named(key)) else Halted(effect, Crashed, Some(comp))
  }

  function CommitGeneric(s: Store, p: Proposal, key: string, o: Oracle): (out: Outcome)
    requires p.Generic?
    ensures Copies(out.effect, Resolve(p.data, o))
    ensures Filed(out, Named(key))
  {
    var data := Resolve(p.data, o);
    if o.resolveDown then Stop(NoEffect, FailedTerminal)
    else if p.op == Create then
      var effect := CreateEffect(Key(p.target, o.newId), data, o.write);
      if WriteReply(o.write) != Ok then Failed(effect, WriteReply(o.write))
      else Verified(effect, o.newId, UndoGeneric(Delete, p.target, o.newId, map[]), key, o)
    else
      var id := ResolveId(s.rows, p.target, p.id, o.alias);
      if !o.readUp || id.None? then Stop(NoEffect, FailedTerminal)
      else
        var k := Key(p.target, id.value);
        var before := RowAt(s.rows, k);
        if p.op == Update then
          if p.bound.Some? && p.bound.value != Snapshot(before, data) then Stop(NoEffect, Refusal(PreconditionFailed))
          else
            var effect := UpdateEffect(s, k, data, o.write);
            if UpdateReply(s, k, o.write) != Ok then Failed(effect, UpdateReply(s, k, o.write))
            else Verified(effect, id.value, UndoGeneric(Update, p.target, id.value, before), key, o)
        else
          var effect := EraseEffect(k, o.erase);
          if EraseReply(o.erase) != Ok then Failed(effect, EraseReply(o.erase))
          else Verified(effect, id.value, UndoGeneric(Create, p.target, "", before), key, o)
  }

  /** The before-image when there is one, else the verb of the reversal table. */
  function TokenFor(v: VerbName, id: string, image: Option<Comp>): Option<Comp> {
    if image.Some? then image else if Compensations(v).UndoBy? then Some(UndoVerb(v, id)) else None
  }

  /** The receipt of a curated write: its reversal, after the read-back of the fields written. */
  function CuratedReceipt(v: VerbName, effect: Effect, id: string, image: Option<Comp>, replay: bool,
                          lkey: LedgerKey, readBack: bool, o: Oracle): (out: Outcome)
    ensures Filed(out, lkey)
  {
    if readBack && !o.verifyUp then Stop(effect, Crashed)
    else
      Receipted(effect, id, TokenFor(v, id, image), replay, lkey)
  }

  /** `_before_image_reversal`: restore only the fields about to be patched. */
  function BeforeImageOf(s: Store, model: string, id: string, doc: Row): Comp {
    UndoGeneric(Update, model, id, Snapshot(RowAt(s.rows, Key(model, id)), doc))
  }

  /** The first required arg names the record. */
  function TargetArg(verb: Verb, args: Row): string {
    if verb.required == [] then "" else ArgText(args, verb.required[0])
  }

  function CommitDelete(s: Store, v: VerbName, model: string, raw: string, key: string, o: Oracle): (out: Outcome)
    ensures !out.effect.Created? && !out.effect.Patched?
    ensures Filed(out, Named(key))
  {
    if !o.readUp then Stop(NoEffect, FailedTerminal)
    else
      var id := ResolveOr(s.rows, model, raw, o.alias);
      var k := Key(model, id);
      var effect := EraseEffect(k, o.erase);
      if EraseReply(o.erase) != Ok then Failed(effect, EraseReply(o.erase))
      else if !o.verifyUp then Stop(effect, Crashed)
      else if k in Apply(s, effect).rows then Stop(effect, FailedTerminal)
      else CuratedReceipt(v, effect, id, None, false, Named(key), false, o)
  }

  function CommitUpdate(s: Store, v: VerbName, model: string, raw: string, doc: Row, key: string,
                        o: Oracle): (out: Outcome)
    ensures Copies(out.effect, doc)
    ensures Filed(out, Named(key))
  {
    if !o.readUp then Stop(NoEffect, FailedTerminal)
    else
      var id := ResolveOr(s.rows, model, raw, o.alias);
      var k := Key(model, id);
      var image := if Compensations(v) == BeforeImage then Some(BeforeImageOf(s, model, id, doc)) else None;
      var effect := UpdateEffect(s, k, doc, o.write);
      if UpdateReply(s, k, o.write) != Ok then Failed(effect, UpdateReply(s, k, o.write))
      else CuratedReceipt(v, effect, id, image, false, Named(key), doc != map[] && id != "", o)
  }

  function CommitAction(s: Store, v: VerbName, verb: Verb, raw: string, key: string, o: Oracle): (out: Outcome)
    ensures !out.effect.Created? && !out.effect.Patched?
    ensures Filed(out, Named(key))
  {
    if !o.readUp then Stop(NoEffect, FailedTerminal)
    else
      var id := ResolveOr(s.rows, verb.doctype, raw, o.alias);
      var effect := CallEffect(Call(verb.doctype, id, verb.action), o.call);
      var image := if verb.reverse == "" then None else Some(UndoMethod(verb.doctype, id, verb.reverse, verb.tier));
      if CallReply(o.call) != Ok then Failed(effect, CallReply(o.call))
      else CuratedReceipt(v, effect, id, image, false, Named(key), false, o)
  }

  function LedgerKeyOf(k: DedupKey): LedgerKey {
    match k
    case Single(f) => Named(f)
    case Group(fs) => Fields(fs)
    case Resolved(ts) => Triples(ts)
  }

  /** What the probes of an upsert found, and the loop variable they left behind. */
  datatype Probed = NoMatch(lkey: LedgerKey) | Match(id: string, lkey: LedgerKey) | Stuck

  /** The probes from key `i` on, in order; the first single hit decides. */
  ghost function ProbeKeysFrom(s: Store, model: string, keys: seq<DedupKey>, doc: Row, down: set<nat>, i: nat,
                               lkey: LedgerKey): Probed
    decreases |keys| - i
  {
    if i >= |keys| then NoMatch(lkey)
    else
      match ProbeDomain(keys[i], doc)
      case None => ProbeKeysFrom(s, model, keys, doc, down, i + 1, LedgerKeyOf(keys[i]))
      case Some(domain) =>
        if i in down then Stuck
        else
          match Probe(s, model, DomainTest(domain))
          case Nothing => ProbeKeysFrom(s, model, keys, doc, down, i + 1, LedgerKeyOf(keys[i]))
          case One(id) => Match(id, LedgerKeyOf(keys[i]))
          case Many => Stuck
  }

  /** The upsert once its probes have answered. */
  function CommitUpsert(s: Store, v: VerbName, model: string, doc: Row, found: Probed, o: Oracle): (out: Outcome)
    ensures Copies(out.effect, doc)
    ensures Filed(out, if found.Stuck? then Named("") else found.lkey)
  {
    match found
    case Stuck => Stop(NoEffect, FailedTerminal)
    case NoMatch(lkey) =>
      var effect := CreateEffect(Key(model, o.newId), doc, o.write);
      if WriteReply(o.write) != Ok then Failed(effect, WriteReply(o.write))
      else CuratedReceipt(v, effect, o.newId, None, false, lkey, doc != map[], o)
    case Match(id, lkey) =>
      var k := Key(model, id);
      var effect := UpdateEffect(s, k, doc, o.write);
      if !o.readUp then Stop(NoEffect, FailedTerminal)
      else if UpdateReply(s, k, o.write) != Ok then Failed(effect, UpdateReply(s, k, o.write))
      else CuratedReceipt(v, effect, id, Some(BeforeImageOf(s, model, id, doc)), false, lkey, doc != map[], o)
  }

  lemma MatchedUpsert(s: Store, v: VerbName, model: string, doc: Row, id: string, lkey: LedgerKey, image: Comp,
                      o: Oracle)
    requires o.readUp && image == BeforeImageOf(s, model, id, doc)
    ensures var reply, e := UpdateReply(s, Key(model, id), o.write), UpdateEffect(s, Key(model, id), doc, o.write);
            CommitUpsert(s, v, model, doc, Match(id, lkey), o)
            == if reply != Ok then Failed(e, reply)
               else CuratedReceipt(v, e, id, Some(image), false, lkey, doc != map[], o)
  {
  }

  /** The document of a keyed create, its attempt key stamped behind a caller's own reference. */
  function Stamped(doc: Row, field: string, marker: string): Row {
    var prior := Field(doc, field);
    doc[field := Text(Marker.Stamp(if Truthy(prior) then Show(prior) else "", marker))]
  }

  function KeyedEffect(model: string, field: string, doc: Row, marker: string, o: Oracle): Effect {
    CreateEffect(Key(model, o.newId), Stamped(doc, field, marker), o.write)
  }

  /** The ask-first protocol: probe, write, and on a lost answer probe again. `first` and `second` are
      what the two probes find when they are asked. */
  function CommitKeyedCreate(v: VerbName, effect: Effect, key: string, first: Found, second: Found,
                             o: Oracle): (out: Outcome)
    ensures out.effect == NoEffect || (out.effect == effect && o.probeUp && first == Nothing)
    ensures o.write.Lost? ==> !(out.Halted? && out.answer == FailedTerminal)
    ensures Filed(out, Named(key))
  {
    if !o.probeUp then Stop(NoEffect, Refusal(UpstreamUnavailable))
    else
      match first
      case Many => Stop(NoEffect, Refusal(Suspended))
      case One(id) => CuratedReceipt(v, NoEffect, id, None, true, Named(key), true, o)
      case Nothing =>
        match WriteReply(o.write)
        case Ok => CuratedReceipt(v, effect, o.newId, None, false, Named(key), true, o)
        case Rejected => Stop(effect, FailedTerminal)
        case InDoubt =>
          if !o.reprobeUp then Stop(effect, Refusal(Suspended))
          else
            match second
            case One(id) => CuratedReceipt(v, effect, id, None, true, Named(key), true, o)
            case _ => Stop(effect, Refusal(Suspended))
  }

  /** The second probe meets the store with or without the lost create. */
  function AfterLost(s: Store, effect: Effect, o: Oracle): Store {
    if o.landed then Apply(s, effect) else s
  }

  function CommitPlainCreate(v: VerbName, model: string, doc: Row, key: string, o: Oracle): (out: Outcome)
    ensures Copies(out.effect, doc)
    ensures Filed(out, Named(key))
  {
    var effect := CreateEffect(Key(model, o.newId), doc, o.write);
    if WriteReply(o.write) != Ok then Failed(effect, WriteReply(o.write))
    else CuratedReceipt(v, effect, o.newId, None, false, Named(key), doc != map[], o)
  }

  predicate IsUpsert(p: Proposal) {
    p.Curated? && Lookup(p.verb).op == UpsertOp
  }

  ghost function CommitCurated(s: Store, p: Proposal, key: string, digest: string -> string, o: Oracle): (out: Outcome)
    requires p.Curated?
    ensures !IsUpsert(p) ==> Filed(out, Named(key))
    ensures out.Halted? ==> !out.answer.Executed? && !out.answer.Proposed?
  {
    if o.resolveDown then Stop(NoEffect, FailedTerminal)
    else Dispatch(s, p.verb, Lookup(p.verb), p.args, Resolve(p.native, o), key, digest, o)
  }

  ghost function KeyedCreate(s: Store, v: VerbName, model: string, field: string, doc: Row, marker: string, key: string,
                             o: Oracle): (out: Outcome)
    ensures out.effect != NoEffect
            ==> out.effect == KeyedEffect(model, field, doc, marker, o)
                && Probe(s, model, CarriesTest(field, marker)) == Nothing
    ensures Filed(out, Named(key))
  {
    var effect := KeyedEffect(model, field, doc, marker, o);
    var test := CarriesTest(field, marker);
    CommitKeyedCreate(v, effect, key, Probe(s, model, test), Probe(AfterLost(s, effect, o), model, test), o)
  }

  ghost function UpsertProbes(s: Store, v: VerbName, verb: Verb, args: Row, doc: Row, key: string, o: Oracle): Probed {
    ProbeKeysFrom(s, verb.doctype, ProbeKeys(v, args), doc, o.downProbes, 0, Named(key))
  }

  /** The commit's own key, or the loop variable an upsert's probes left in its place. */
  ghost function FilingKey(s: Store, v: VerbName, verb: Verb, args: Row, doc: Row, key: string, o: Oracle): LedgerKey {
    if verb.op != UpsertOp then Named(key)
    else
      match UpsertProbes(s, v, verb, args, doc, key, o)
      case Stuck => Named("")
      case NoMatch(k) => k
      case Match(_, k) => k
  }

  /** The write, by the verb's declared strategy. */
  ghost function Dispatch(s: Store, v: VerbName, verb: Verb, args: Row, doc: Row, key: string, digest: string -> string,
                          o: Oracle): (out: Outcome)
    ensures Copies(out.effect, doc)
            || (verb.op == CreateOp && verb.stamp != "" && o.stampable
                && out == KeyedCreate(s, v, verb.doctype, verb.stamp, doc, Marker.IdemMarker(key, digest), key, o))
    ensures Filed(out, FilingKey(s, v, verb, args, doc, key, o))
  {
    match verb.op
    case DeleteOp => CommitDelete(s, v, verb.doctype, TargetArg(verb, args), key, o)
    case UpdateOp => CommitUpdate(s, v, verb.doctype, TargetArg(verb, args), doc, key, o)
    case MethodOp => CommitAction(s, v, verb, TargetArg(verb, args), key, o)
    case UpsertOp =>
      CommitUpsert(s, v, verb.doctype, doc, UpsertProbes(s, v, verb, args, doc, key, o), o)
    case CreateOp =>
      if verb.stamp != "" && o.stampable then
        KeyedCreate(s, v, verb.doctype, verb.stamp, doc, Marker.IdemMarker(key, digest), key, o)
      else
        CommitPlainCreate(v, verb.doctype, doc, key, o)
  }

  ghost function Perform(s: Store, pol: Policy, digest: string -> string, ws: string, p: Proposal, key: string,
                         o: Oracle): (out: Outcome)
    ensures !IsUpsert(p) ==> Filed(out, Named(key))
    ensures out.Halted? ==> !out.answer.Executed? && !out.answer.Proposed?
  {
    match p
    case MethodCall(_, _, _, _) => CommitMethodCall(s, pol, ws, p, key, o)
    case Generic(_, _, _, _, _) => CommitGeneric(s, p, key, o)
    case Curated(_, _, _) => CommitCurated(s, p, key, digest, o)
  }

  function WithToken(w: World, d: Deed, comp: Option<Comp>): World {
    match comp
    case None => w
    case Some(c) =>
      w.(memory := w.memory.(comps := w.memory.comps[w.next := c]),
         next := w.next + 1,
         hist := w.hist.(minted := w.hist.minted[w.next := Minted(d, c)]))
  }

  function WithEffect(w: World, d: Deed): World {
    if d.effect == NoEffect then w
    else w.(store := Apply(w.store, d.effect), hist := w.hist.(effects := w.hist.effects + [d]))
  }

  function SeqOf(m: Memory, ws: string): nat {
    if ws in m.seqs then m.seqs[ws] else 0
  }

  function WithReceipt(w: World, ws: string, lkey: LedgerKey, r: Receipt): World {
    var n := SeqOf(w.memory, ws) + 1;
    w.(memory := w.memory.(ledger := w.memory.ledger[lkey := r],
                           executed := w.memory.executed + {r.pid},
                           seqs := w.memory.seqs[ws := n]),
       events := w.events + [Event(w.epoch, ws, n, r.pid)])
  }

  function Settle(w: World, d: Deed, out: Outcome): (World, Answer) {
    match out
    case Halted(_, a, minted) => (WithToken(WithEffect(w, d), d, minted), a)
    case Receipted(_, ref, comp, replay, lkey) =>
      var r := Receipt(d.pid, ref, replay, if comp.Some? then Some(w.next) else None);
      (WithReceipt(WithToken(WithEffect(w, d), d, comp), d.scene.workspace, lkey, r), Executed(r))
  }

  function SceneOf(w: World, ws: string, key: string, o: Oracle): Scene {
    Scene(w.store.rows, w.policy, ws, key, w.digest, o.resolved, o.alias, o.stampable)
  }

  function DeedOf(w: World, ws: string, key: string, pid: nat, o: Oracle, e: Effect): Deed {
    Deed(pid, SceneOf(w, ws, key, o), e)
  }

  ghost function Commit(w: World, ws: string, key: string, pid: nat, o: Oracle): (World, Answer) {
    if key == "" then (w, Refusal(Malformed))
    else if Named(key) in w.memory.ledger then (w, Executed(w.memory.ledger[Named(key)].(replayed := true)))
    else if pid !in w.memory.proposals then (w, Refusal(Expired))
    else
      var out := Perform(w.store, w.policy, w.digest, ws, w.memory.proposals[pid], key, o);
      Settle(w, DeedOf(w, ws, key, pid, o, out.effect), out)
  }

  // ---------------------------------------------------------------- propose

  datatype Request =
    | AskMethod(target: string, id: string, action: string)
    | AskGeneric(op: Option<WriteOp>, target: string, id: string, data: Option<Row>)
    | AskCurated(verb: VerbName, args: Row, native: Row)
    | AskUnknown

  /** What PROPOSE decides: a refusal, or the tier and the proposal to store. */
  datatype Decision = Deny(code: Code) | Grant(tier: string, proposal: Proposal)

  function DecideMethod(pol: Policy, ws: string, q: Request, o: ProposeOracle): Decision
    requires q.AskMethod?
  {
    if q.target == "" || q.action == "" || q.id == "" then Deny(InvalidArgs)
    else
      match MethodTier(pol, q.target, q.action, ws)
      case None => Deny(UnknownVerb)
      case Some(tier) =>
        if !o.exists_ then Deny(UpstreamUnavailable) else Grant(tier, MethodCall(q.target, q.id, q.action, tier))
  }

  /** The state-witness: the fields' present values, unless there are none to bind. */
  function Witness(rows: map<Key, Row>, op: WriteOp, target: string, id: string, data: Row,
                   alias: Option<string>): Option<Row> {
    if op != Update then None
    else
      match ResolveId(rows, target, id, alias)
      case None => None
      case Some(rid) =>
        var snap := Snapshot(RowAt(rows, Key(target, rid)), data);
        if snap == map[] then None else Some(snap)
  }

  function DecideGeneric(rows: map<Key, Row>, pol: Policy, ws: string, q: Request, o: ProposeOracle): Decision
    requires q.AskGeneric?
  {
    if q.op.None? then Deny(UnknownVerb)
    else if q.target == "" then Deny(InvalidArgs)
    else
      match WriteTier(pol, q.target, q.op.value, ws)
      case None => Deny(UnknownVerb)
      case Some(tier) =>
        if q.op.value != Create && q.id == "" then Deny(InvalidArgs)
        else if q.op.value != Delete && q.data.None? then Deny(InvalidArgs)
        else if !o.exists_ then Deny(UpstreamUnavailable)
        else if q.op.value != Delete && o.gate.Some? then Deny(o.gate.value)
        else
          var data := if q.data.Some? then q.data.value else map[];
          Grant(tier, Generic(q.op.value, q.target, q.id, data,
                              Witness(rows, q.op.value, q.target, q.id, data, o.alias)))
  }

  function DecideCurated(pol: Policy, q: Request, o: ProposeOracle): Decision
    requires q.AskCurated?
  {
    var verb := Lookup(q.verb);
    var native := NativeDoc(q.verb, q.args, q.native);
    if !ModuleEnabled(pol, verb.doctype) then Deny(UnknownVerb)
    else if Missing(verb, q.args) then Deny(InvalidArgs)
    else if verb.op == UpsertOp && verb.dedup != [] && !SomeKeyProbed(ProbeKeys(q.verb, q.args), native) then
      Deny(InvalidArgs)
    else if Positive(q.verb) != [] && !o.numeric then Deny(InvalidArgs)
    else if !o.exists_ then Deny(UpstreamUnavailable)
    else if o.gate.Some? then Deny(o.gate.value)
    else Grant(verb.tier, Curated(q.verb, q.args, native))
  }

  function Decide(rows: map<Key, Row>, pol: Policy, ws: string, q: Request, o: ProposeOracle): Decision {
    match q
    case AskMethod(_, _, _) => DecideMethod(pol, ws, q, o)
    case AskGeneric(_, _, _, _) => DecideGeneric(rows, pol, ws, q, o)
    case AskCurated(_, _, _) => DecideCurated(pol, q, o)
    case AskUnknown => Deny(UnknownVerb)
  }

  function WithProposal(w: World, p: Proposal, origin: Origin): World {
    w.(memory := w.memory.(proposals := w.memory.proposals[w.next := p]),
       next := w.next + 1,
       hist := w.hist.(origins := w.hist.origins[w.next := origin]))
  }

  function Propose(w: World, ws: string, q: Request, o: ProposeOracle): (World, Answer) {
    match Decide(w.store.rows, w.policy, ws, q, o)
    case Deny(code) => (w, Refusal(code))
    case Grant(tier, p) => (WithProposal(w, p, Granted(w.policy, ws, tier, p)), Proposed(w.next, tier))
  }

  // ---------------------------------------------------------------- rollback

  datatype Undo = CannotUndo | UndoCrash | UndoAs(proposal: Proposal, tier: string)

  /** The proposal a token's reversal is previewed as. */
  function UndoProposal(c: Comp): Undo {
    match c
    case UndoMethod(target, id, action, tier) => UndoAs(MethodCall(target, id, action, tier), tier)
    case UndoGeneric(op, target, id, data) => UndoAs(Generic(op, target, id, data, None), CrudTier(op))
    case UndoVerb(v, id) =>
      match Compensate(v, id)
      case NotMapped => CannotUndo
      case NoVerbKey => UndoCrash
      case Reverse(u, args) => UndoAs(Curated(u, args, map[]), Lookup(u).tier)
  }

  function Rollback(w: World, token: nat): (World, Answer) {
    if token !in w.memory.comps then (w, Refusal(CompensationExpired))
    else
      Previewed(w, token, UndoProposal(w.memory.comps[token]))
  }

  function Previewed(w: World, token: nat, u: Undo): (World, Answer) {
    match u
    case CannotUndo => (w, Refusal(IrreversibleEffect))
    case UndoCrash => (w, Crashed)
    case UndoAs(p, tier) => (WithProposal(w, p, ReversalOf(token, tier, p)), Proposed(w.next, tier))
  }

  // ---------------------------------------------------------------- status

  datatype Standing = IsExecuted | IsPending | IsExpired

  /** The legacy answer, from memory. */
  function Status(m: Memory, pid: nat): Standing {
    if pid in m.executed then IsExecuted else if pid in m.proposals then IsPending else IsExpired
  }

  datatype KeyStatus = KeyExecuted(ref: string) | KeyNotFound | KeyUnknown

  /** `_status_by_key`: the same probe the commit path runs, asked of the store. */
  ghost function StatusByKey(s: Store, v: VerbName, key: string, digest: string -> string, stampable: bool,
                             up: bool): KeyStatus {
    var verb := Lookup(v);
    if verb.stamp != "" then
      if !stampable || !up then KeyUnknown
      else
        match Probe(s, verb.doctype, CarriesTest(verb.stamp, Marker.IdemMarker(key, digest)))
        case Many => KeyUnknown
        case One(id) => KeyExecuted(id)
        case Nothing => KeyNotFound
    else if verb.convergent then KeyNotFound
    else KeyUnknown
  }

  // ---------------------------------------------------------------- runs

  /** One step of a run. `Outside` is any change to the store by others. */
  datatype Step =
    | DoPropose(ws: string, request: Request, answers: ProposeOracle)
    | DoCommit(ws: string, key: string, pid: nat, oracle: Oracle)
    | DoRollback(token: nat)
    | DoGovern(change: Change)
    | Restart
    | Outside(store: Store)

  /** The backend hands out ids it never used, and others keep its books in order. */
  ghost predicate StepOk(w: World, step: Step) {
    match step
    case DoCommit(_, _, _, o) => o.newId != "" && forall k | k in w.store.used :: k.id != o.newId
    case Outside(s) => StoreOk(s) && w.store.used <= s.used
    case _ => true
  }

  ghost function Next(w: World, step: Step): (World, Answer) {
    match step
    case DoPropose(ws, q, o) => Propose(w, ws, q, o)
    case DoCommit(ws, key, pid, o) => Commit(w, ws, key, pid, o)
    case DoRollback(token) => Rollback(w, token)
    case DoGovern(c) => (w.(policy := Govern(w.policy, c)), FailedTerminal)
    case Restart => (w.(memory := EMPTY, epoch := w.epoch + 1), FailedTerminal)
    case Outside(s) => (w.(store := s), FailedTerminal)
  }

  ghost function Run(w: World, steps: seq<Step>): World
    decreases |steps|
  {
    if steps == [] then w else Run(Next(w, steps[0]).0, steps[1..])
  }

  ghost predicate RunOk(w: World, steps: seq<Step>)
    decreases |steps|
  {
    steps == [] || (StepOk(w, steps[0]) && RunOk(Next(w, steps[0]).0, steps[1..]))
  }

  /** A fresh adapter over any store. */
  ghost predicate Initial(w: World) {
    && StoreOk(w.store)
    && w.memory == EMPTY && w.events == [] && w.epoch == 0
    && w.hist == History(map[], [], map[])
  }
}
