/** The backing system: records by model and id, and what one call can do to them when its answer
    may be refused or lost. */
module Backend {
  import opened Text
  import opened Options
  import opened Values
  import opened Domain
  import Marker

  datatype Key = Key(model: string, id: string)

  datatype Call = Call(model: string, id: string, action: string)

  /** `used` holds every key ever allocated: ids are not reused. */
  datatype Store = Store(rows: map<Key, Row>, used: set<Key>, calls: seq<Call>)

  ghost predicate StoreOk(s: Store) {
    s.rows.Keys <= s.used && forall k | k in s.used :: k.id != ""
  }

  /** What a call did. */
  datatype Effect =
    | NoEffect
    | Created(key: Key, doc: Row)
    | Patched(key: Key, patch: Row)
    | Erased(key: Key)
    | Called(call: Call)

  function Apply(s: Store, e: Effect): Store {
    match e
    case NoEffect => s
    case Created(k, d) => s.(rows := s.rows[k := d], used := s.used + {k})
    case Patched(k, p) => if k in s.rows then s.(rows := s.rows[k := s.rows[k] + p]) else s
    case Erased(k) => s.(rows := s.rows - {k})
    case Called(c) => s.(calls := s.calls + [c])
  }

  /** `_clean`: unset values and the id are never written. */
  function Clean(doc: Row): Row {
    map f | f in doc && f != "id" && doc[f] != Null :: doc[f]
  }

  /** The answer as the edge sees it: ok, `SystemError`, or `OutcomeInDoubt`. */
  datatype Reply = Ok | Rejected | InDoubt

  /** A create or update: answered, refused, applied with a failed read-back, or answer lost. */
  datatype WriteFault = Fine | Refused | ReadBackDown | Lost(lands: bool)

  /** A delete can also be accepted and remove nothing. */
  datatype EraseFault = EraseFine | EraseRefused | EraseIgnored | EraseLost(lands: bool)

  datatype CallFault = CallFine | CallRefused | CallLost(lands: bool)

  function WriteReply(f: WriteFault): Reply {
    match f
    case Fine => Ok
    case Refused => Rejected
    case ReadBackDown => Rejected
    case Lost(_) => InDoubt
  }

  predicate Lands(f: WriteFault) {
    f == Fine || f == ReadBackDown || f == Lost(true)
  }

  function CreateEffect(k: Key, doc: Row, f: WriteFault): Effect {
    if Lands(f) then Created(k, Clean(doc)) else NoEffect
  }

  /** Odoo refuses a write to a record that is not there. */
  function UpdateEffect(s: Store, k: Key, doc: Row, f: WriteFault): Effect {
    if Lands(f) && k in s.rows then Patched(k, Clean(doc)) else NoEffect
  }

  function UpdateReply(s: Store, k: Key, f: WriteFault): Reply {
    if k in s.rows || f.Lost? then WriteReply(f) else Rejected
  }

  function EraseEffect(k: Key, f: EraseFault): Effect {
    if f == EraseFine || f == EraseLost(true) then Erased(k) else NoEffect
  }

  function EraseReply(f: EraseFault): Reply {
    if f.EraseLost? then InDoubt else if f.EraseRefused? then Rejected else Ok
  }

  function CallEffect(c: Call, f: CallFault): Effect {
    if f == CallFine || f == CallLost(true) then Called(c) else NoEffect
  }

  function CallReply(f: CallFault): Reply {
    match f
    case CallFine => Ok
    case CallRefused => Rejected
    case CallLost(_) => InDoubt
  }

  /** The effect writes the document as it is given, or writes none. */
  predicate Copies(e: Effect, doc: Row) {
    match e
    case Created(_, d) => d == Clean(doc)
    case Patched(_, p) => p == Clean(doc)
    case _ => true
  }

  /** The store without the records of `unseen`. */
  function Before(s: Store, unseen: set<Key>): Store {
    s.(rows := s.rows - unseen)
  }

  lemma BeforeIsSame(s: Store, unseen: set<Key>)
    requires unseen !! s.rows.Keys
    ensures Before(s, unseen) == s
  {
    assert s.rows - unseen == s.rows;
  }

  // ---------------------------------------------------------------- searches

  /** The records of a model that a test accepts. */
  function Hits(s: Store, model: string, p: Row -> bool): set<Key> {
    set k | k in s.rows && k.model == model && p(s.rows[k])
  }

  /** Does the field carry the marker, as the `like` probe asks it? */
  predicate Carries(row: Row, field: string, marker: string) {
    Field(row, field).Text? && Marker.LikeOperator(Field(row, field).s, Marker.LikeEscape(marker))
  }

  function CarriesTest(field: string, marker: string): Row -> bool {
    (r: Row) => Carries(r, field, marker)
  }

  function DomainTest(domain: seq<Token>): Row -> bool {
    (r: Row) => DomainMatches(r, domain) == Val(true)
  }

  /** What a search cut at two rows tells: nothing, the one record, or more than one. */
  datatype Found = Nothing | One(id: string) | Many

  ghost function Probe(s: Store, model: string, p: Row -> bool): (f: Found)
    ensures f == Nothing <==> Hits(s, model, p) == {}
    ensures f.One? ==> Hits(s, model, p) == {Key(model, f.id)}
    ensures f == Many <==> exists a, b :: a in Hits(s, model, p) && b in Hits(s, model, p) && a != b
  {
    var hits := Hits(s, model, p);
    if hits == {} then Nothing
    else
      var k: Key :| k in hits;
      if hits == {k} then One(k.id)
      else
        assert exists b :: b in hits && b != k by {
          assert hits - {k} != {};
          var b :| b in hits - {k};
        }
        Many
  }

  /** The connection the edge writes through. */
  class Client {
    var rows: map<Key, Row>
    var used: set<Key>
    var calls: seq<Call>

    constructor (rows: map<Key, Row>, used: set<Key>, calls: seq<Call>)
      ensures View() == Store(rows, used, calls)
    {
      this.rows, this.used, this.calls := rows, used, calls;
    }

    ghost function View(): Store
      reads this
    {
      Store(rows, used, calls)
    }

    method Create(model: string, doc: Row, id: string, f: WriteFault) returns (reply: Reply)
      modifies this
      ensures View() == Apply(old(View()), CreateEffect(Key(model, id), doc, f)) && reply == WriteReply(f)
    {
      if f.Fine? || f.ReadBackDown? || (f.Lost? && f.lands) {
        rows := rows[Key(model, id) := Clean(doc)];
        used := used + {Key(model, id)};
      }
      reply := WriteReply(f);
    }

    method Update(model: string, id: string, doc: Row, f: WriteFault) returns (reply: Reply)
      modifies this`rows
      ensures View() == Apply(old(View()), UpdateEffect(old(View()), Key(model, id), doc, f))
      ensures reply == UpdateReply(old(View()), Key(model, id), f)
    {
      var k := Key(model, id);
      if k !in rows {
        return if f.Lost? then InDoubt else Rejected;
      }
      if f.Fine? || f.ReadBackDown? || (f.Lost? && f.lands) {
        rows := rows[k := rows[k] + Clean(doc)];
      }
      reply := WriteReply(f);
    }

    method Delete(model: string, id: string, f: EraseFault) returns (reply: Reply)
      modifies this`rows
      ensures View() == Apply(old(View()), EraseEffect(Key(model, id), f)) && reply == EraseReply(f)
    {
      if f.EraseFine? || (f.EraseLost? && f.lands) {
        rows := rows - {Key(model, id)};
      }
      reply := EraseReply(f);
    }

    method CallMethod(model: string, id: string, action: string, f: CallFault) returns (reply: Reply)
      modifies this`calls
      ensures View() == Apply(old(View()), CallEffect(Call(model, id, action), f)) && reply == CallReply(f)
    {
      if f.CallFine? || (f.CallLost? && f.lands) {
        calls := calls + [Call(model, id, action)];
      }
      reply := CallReply(f);
    }

    /** A search with `limit=2`: enough to tell none, one and several apart. It does not see the
        records of `unseen`, whose creates are still on their way. */
    method Search2(model: string, p: Row -> bool, unseen: set<Key>) returns (found: Found)
      ensures found == Probe(Before(View(), unseen), model, p)
    {
      var todo := rows.Keys - unseen;
      var hits: set<Key> := {};
      while todo != {} && |hits| < 2
        invariant todo <= rows.Keys - unseen
        invariant hits == Hits(Before(View(), unseen), model, p) - todo
        decreases todo
      {
        var k :| k in todo;
        todo := todo - {k};
        if k.model == model && p(rows[k]) {
          hits := hits + {k};
        }
      }
      ProbeBySize(Before(View(), unseen), model, p, hits);
      if |hits| == 0 {
        found := Nothing;
      } else if |hits| == 1 {
        var k :| k in hits;
        found := One(k.id);
      } else {
        found := Many;
      }
    }
  }

  /** All the hits there are, or two of them, tell what the probe tells. */
  lemma ProbeBySize(s: Store, model: string, p: Row -> bool, hits: set<Key>)
    requires hits <= Hits(s, model, p) && (|hits| < 2 ==> hits == Hits(s, model, p))
    ensures |hits| == 0 ==> Probe(s, model, p) == Nothing
    ensures |hits| == 1 ==> forall k | k in hits :: Probe(s, model, p) == One(k.id)
    ensures |hits| >= 2 ==> Probe(s, model, p) == Many
  {
    if |hits| == 1 {
      forall k | k in hits ensures Probe(s, model, p) == One(k.id) {
        assert |hits - {k}| == 0;
        assert hits == {k};
      }
    } else if |hits| >= 2 {
      var a :| a in hits;
      assert |hits - {a}| == |hits| - 1;
      var b :| b in hits - {a};
      assert a in Hits(s, model, p) && b in Hits(s, model, p);
    }
  }
}
