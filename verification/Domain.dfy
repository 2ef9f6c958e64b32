/** The in-memory evaluation of an Odoo search domain in prefix notation. */
module Domain {
  import opened Text
  import opened Options
  import opened Values

  datatype Test =
    | Eq(v: Value) | Ne(v: Value) | Like(v: Value)
    | Gt(v: Value) | Ge(v: Value) | Lt(v: Value) | Le(v: Value)
    | In(vs: seq<Value>) | Unknown

  datatype Token = Or | And | Not | Triple(field: string, test: Test)

  datatype Error = IndexError | TypeError

  datatype Evaluation<+T> = Val(value: T) | Raises(error: Error)

  function Lower(s: string): (t: string)
    ensures |t| == |s|
  {
    seq(|s|, i requires 0 <= i < |s| => if 'A' <= s[i] <= 'Z' then s[i] - 'A' + 'a' else s[i])
  }

  /** `str(v if v is not None else "")`. */
  function CellText(v: Value): string {
    if v == Null then "" else Show(v)
  }

  function Compared(r: Option<bool>, negate: bool): Evaluation<bool> {
    match r
    case None => Raises(TypeError)
    case Some(b) => Val(b != negate)
  }

  /** One triple against one row. A comparison with an unset field is false, never an error. */
  function EvalTriple(row: Row, field: string, test: Test): Evaluation<bool> {
    var v := Field(row, field);
    match test
    case Eq(x) => Val(Same(v, x) || CellText(v) == Show(x))
    case Ne(x) => Val(!Same(v, x))
    case Like(x) => Val(Contains(Lower(CellText(v)), Lower(Show(x))))
    case Gt(x) => if v == Null then Val(false) else Compared(LessThan(x, v), false)
    case Ge(x) => if v == Null then Val(false) else Compared(LessThan(v, x), true)
    case Lt(x) => if v == Null then Val(false) else Compared(LessThan(v, x), false)
    case Le(x) => if v == Null then Val(false) else Compared(LessThan(x, v), true)
    case In(xs) => Val(exists x | x in xs :: Same(v, x))
    case Unknown => Val(false)
  }

  // ---------------------------------------------------------------- what each operator asks

  predicate SameNumber(v: Value, x: Value) {
    Numeric(v) && Numeric(x) && AsNumber(v) == AsNumber(x)
  }

  /** The cell is the value, is the same number, or reads the same; an unset cell reads as empty. */
  predicate Alike(v: Value, x: Value) {
    v == x || SameNumber(v, x) || (if v == Null then "" else Show(v)) == Show(x)
  }

  /** The letters are the same but for their case. */
  predicate SameLetter(a: char, b: char) {
    a == b || ('A' <= a <= 'Z' && b as int == a as int + 32) || ('A' <= b <= 'Z' && a as int == b as int + 32)
  }

  predicate OccursAt(s: string, m: string, i: nat) {
    i + |m| <= |s| && forall j | 0 <= j < |m| :: SameLetter(s[i + j], m[j])
  }

  ghost predicate OccursIn(s: string, m: string) {
    exists i :: OccursAt(s, m, i)
  }

  /** A comparison: false on an unset cell, by number or by text, an error between the two kinds. It
      says whether the cell may stand below, at or above the value. */
  ghost predicate Compares(v: Value, x: Value, r: Evaluation<bool>, below: bool, at: bool, above: bool) {
    if v == Null then r == Val(false)
    else if Numeric(v) && Numeric(x) then
      var a, b := AsNumber(v), AsNumber(x);
      r == Val((below && a < b) || (at && a == b) || (above && a > b))
    else if v.Text? && x.Text? then
      r == Val((below && Precedes(v.s, x.s)) || (at && v.s == x.s) || (above && Precedes(x.s, v.s)))
    else r == Raises(TypeError)
  }

  ghost predicate Answers(v: Value, test: Test, r: Evaluation<bool>) {
    match test
    case Eq(x) => r == Val(Alike(v, x))
    case Ne(x) => r == Val(v != x && !SameNumber(v, x))
    case Like(x) => r == Val(OccursIn(if v == Null then "" else Show(v), Show(x)))
    case Gt(x) => Compares(v, x, r, false, false, true)
    case Ge(x) => Compares(v, x, r, false, true, true)
    case Lt(x) => Compares(v, x, r, true, false, false)
    case Le(x) => Compares(v, x, r, true, true, false)
    case In(xs) => r == Val(exists x | x in xs :: v == x || SameNumber(v, x))
    case Unknown => r == Val(false)
  }

  /** Every operator asks what its sign says, of every cell and value. */
  lemma OperatorsMean(row: Row, field: string, test: Test)
    ensures Answers(if field in row then row[field] else Null, test, EvalTriple(row, field, test))
  {
    var v := Field(row, field);
    match test
    case Like(x) => LowerContains(CellText(v), Show(x));
    case Gt(x) => ComparisonMeans(v, x);
    case Ge(x) => ComparisonMeans(v, x);
    case Lt(x) => ComparisonMeans(v, x);
    case Le(x) => ComparisonMeans(v, x);
    case _ =>
  }

  lemma ComparisonMeans(v: Value, x: Value)
    ensures v.Text? && x.Text? ==>
              && (Less(v.s, x.s) <==> Precedes(v.s, x.s))
              && (Less(x.s, v.s) <==> Precedes(x.s, v.s))
              && (!Less(v.s, x.s) <==> v.s == x.s || Less(x.s, v.s))
  {
    if v.Text? && x.Text? {
      LessIsPrecedes(v.s, x.s);
      LessIsPrecedes(x.s, v.s);
      LessTotal(v.s, x.s);
      LessIrreflexive(v.s);
      if Less(v.s, x.s) && Less(x.s, v.s) {
        LessTransitive(v.s, x.s, v.s);
      }
    }
  }

  lemma LowerLetter(c: char)
    ensures forall s: string, k: nat | k < |s| && s[k] == c ::
              Lower(s)[k] as int == if 'A' <= c <= 'Z' then c as int + 32 else c as int
  {
  }

  lemma LowerContains(s: string, m: string)
    ensures Contains(Lower(s), Lower(m)) <==> OccursIn(s, m)
  {
    ContainsSomewhere(Lower(s), Lower(m));
    forall i: nat | i + |m| <= |s| ensures HasAt(Lower(s), Lower(m), i) <==> OccursAt(s, m, i) {
      forall j | 0 <= j < |m| ensures Lower(s)[i + j] == Lower(m)[j] <==> SameLetter(s[i + j], m[j]) {
        LowerLetter(s[i + j]);
        LowerLetter(m[j]);
      }
    }
  }

  // ---------------------------------------------------------------- meaning

  datatype Tree =
    | Leaf(field: string, test: Test)
    | Both(left: Tree, right: Tree)
    | Either(left: Tree, right: Tree)
    | Negated(arg: Tree)

  function Flatten(t: Tree): seq<Token> {
    match t
    case Leaf(f, test) => [Triple(f, test)]
    case Both(l, r) => [And] + Flatten(l) + Flatten(r)
    case Either(l, r) => [Or] + Flatten(l) + Flatten(r)
    case Negated(a) => [Not] + Flatten(a)
  }

  function FlattenAll(ts: seq<Tree>): seq<Token> {
    if ts == [] then [] else Flatten(ts[0]) + FlattenAll(ts[1..])
  }

  function Negation(a: Evaluation<bool>): Evaluation<bool> {
    match a
    case Raises(e) => Raises(e)
    case Val(b) => Val(!b)
  }

  /** Both sides are always evaluated, the left one first. */
  function Join(conj: bool, a: Evaluation<bool>, b: Evaluation<bool>): Evaluation<bool> {
    match a
    case Raises(e) => Raises(e)
    case Val(x) =>
      match b
      case Raises(e) => Raises(e)
      case Val(y) => Val(if conj then x && y else x || y)
  }

  /** What a tree says of a row, evaluated left to right without short-circuit. */
  function Meaning(t: Tree, row: Row): Evaluation<bool> {
    match t
    case Leaf(f, test) => EvalTriple(row, f, test)
    case Negated(a) => Negation(Meaning(a, row))
    case Both(l, r) => Join(true, Meaning(l, row), Meaning(r, row))
    case Either(l, r) => Join(false, Meaning(l, row), Meaning(r, row))
  }

  /** The conjunction of a list of trees; the first tree that raises decides. */
  function MeaningAll(ts: seq<Tree>, row: Row): Evaluation<bool> {
    if ts == [] then Val(true) else Join(true, Meaning(ts[0], row), MeaningAll(ts[1..], row))
  }

  // ---------------------------------------------------------------- the evaluator

  /** One term from position `pos`: its truth and the position after it. */
  function EvalTerm(row: Row, terms: seq<Token>, pos: nat): (r: Evaluation<(bool, nat)>)
    ensures r.Val? ==> pos < r.value.1 <= |terms|
    decreases |terms| - pos
  {
    if pos >= |terms| then Raises(IndexError)
    else
      match terms[pos]
      case Triple(f, test) =>
        (match EvalTriple(row, f, test)
         case Raises(e) => Raises(e)
         case Val(b) => Val((b, pos + 1)))
      case Not =>
        (match EvalTerm(row, terms, pos + 1)
         case Raises(e) => Raises(e)
         case Val(a) => Val((!a.0, a.1)))
      case And =>
        (match EvalTerm(row, terms, pos + 1)
         case Raises(e) => Raises(e)
         case Val(a) =>
           match EvalTerm(row, terms, a.1)
           case Raises(e) => Raises(e)
           case Val(b) => Val((a.0 && b.0, b.1)))
      case Or =>
        (match EvalTerm(row, terms, pos + 1)
         case Raises(e) => Raises(e)
         case Val(a) =>
           match EvalTerm(row, terms, a.1)
           case Raises(e) => Raises(e)
           case Val(b) => Val((a.0 || b.0, b.1)))
  }

  /** The whole domain from `pos`: every remaining term, conjoined. */
  function EvalFrom(row: Row, terms: seq<Token>, pos: nat): Evaluation<bool>
    decreases |terms| - pos
  {
    if pos >= |terms| then Val(true)
    else
      match EvalTerm(row, terms, pos)
      case Raises(e) => Raises(e)
      case Val(a) =>
        match EvalFrom(row, terms, a.1)
        case Raises(e) => Raises(e)
        case Val(b) => Val(a.0 && b)
  }

  function DomainMatches(row: Row, terms: seq<Token>): Evaluation<bool> {
    EvalFrom(row, terms, 0)
  }

  /** The cursor the nested `term` closes over. */
  class Evaluator {
    const row: Row
    const terms: seq<Token>
    var pos: nat

    constructor (row: Row, terms: seq<Token>)
      ensures this.row == row && this.terms == terms && pos == 0
    {
      this.row, this.terms, pos := row, terms, 0;
    }

    method Term() returns (r: Evaluation<bool>)
      requires pos <= |terms|
      modifies this
      ensures match EvalTerm(row, terms, old(pos))
              case Raises(e) => r == Raises(e)
              case Val(a) => r == Val(a.0) && pos == a.1
      decreases |terms| - pos
    {
      if pos >= |terms| {
        return Raises(IndexError);
      }
      var token := terms[pos];
      pos := pos + 1;
      match token
      case Triple(f, test) =>
        r := EvalTriple(row, f, test);
      case Not =>
        var a := Term();
        if a.Raises? { return a; }
        r := Val(!a.value);
      case And =>
        var a := Term();
        if a.Raises? { return a; }
        var b := Term();
        if b.Raises? { return b; }
        r := Val(a.value && b.value);
      case Or =>
        var a := Term();
        if a.Raises? { return a; }
        var b := Term();
        if b.Raises? { return b; }
        r := Val(a.value || b.value);
    }

    /** `domain_matches`: terms are consumed until none is left. */
    method Matches() returns (r: Evaluation<bool>)
      requires pos == 0
      modifies this
      ensures r == DomainMatches(row, terms)
      ensures r.Val? ==> pos == |terms|
    {
      var result := true;
      while pos < |terms|
        invariant pos <= |terms|
        invariant DomainMatches(row, terms) ==
                  match EvalFrom(row, terms, pos)
                  case Raises(e) => Raises(e)
                  case Val(b) => Val(result && b)
        decreases |terms| - pos
      {
        var a := Term();
        if a.Raises? { return a; }
        result := a.value && result;
      }
      r := Val(result);
    }
  }

  // ---------------------------------------------------------------- correctness

  /** `part` occurs in `terms` at `pos`. */
  predicate At(terms: seq<Token>, pos: nat, part: seq<Token>) {
    pos + |part| <= |terms| && forall i | 0 <= i < |part| :: part[i] == terms[pos + i]
  }

  lemma AtConcat(terms: seq<Token>, pos: nat, a: seq<Token>, b: seq<Token>)
    ensures At(terms, pos, a + b) <==> At(terms, pos, a) && At(terms, pos + |a|, b)
  {
    if At(terms, pos, a + b) {
      forall i | 0 <= i < |a| ensures a[i] == terms[pos + i] {
        assert (a + b)[i] == a[i];
      }
      forall i | 0 <= i < |b| ensures b[i] == terms[pos + |a| + i] {
        assert (a + b)[|a| + i] == b[i];
      }
    }
  }

  lemma AtOne(terms: seq<Token>, pos: nat, t: Token)
    ensures At(terms, pos, [t]) <==> pos < |terms| && terms[pos] == t
  {
    assert [t][0] == t;
  }

  function Placed(r: Evaluation<bool>, end: nat): Evaluation<(bool, nat)> {
    match r
    case Raises(e) => Raises(e)
    case Val(b) => Val((b, end))
  }

  lemma LeafStep(row: Row, terms: seq<Token>, pos: nat)
    requires pos < |terms| && terms[pos].Triple?
    ensures EvalTerm(row, terms, pos) == Placed(EvalTriple(row, terms[pos].field, terms[pos].test), pos + 1)
  {
  }

  lemma NotStep(row: Row, terms: seq<Token>, pos: nat, a: Evaluation<bool>, end: nat)
    requires pos < |terms| && terms[pos] == Not
    requires EvalTerm(row, terms, pos + 1) == Placed(a, end)
    ensures EvalTerm(row, terms, pos) == Placed(Negation(a), end)
  {
  }

  lemma JoinStep(row: Row, terms: seq<Token>, pos: nat, a: Evaluation<bool>, mid: nat, b: Evaluation<bool>, end: nat)
    requires pos < |terms| && (terms[pos] == And || terms[pos] == Or)
    requires EvalTerm(row, terms, pos + 1) == Placed(a, mid)
    requires EvalTerm(row, terms, mid) == Placed(b, end)
    ensures EvalTerm(row, terms, pos) == Placed(Join(terms[pos] == And, a, b), end)
  {
  }

  /** `op`, then the flattenings of two trees. */
  lemma AtPair(terms: seq<Token>, pos: nat, op: Token, l: seq<Token>, r: seq<Token>)
    ensures At(terms, pos, [op] + l + r)
            <==> pos < |terms| && terms[pos] == op && At(terms, pos + 1, l) && At(terms, pos + 1 + |l|, r)
  {
    AtConcat(terms, pos, [op] + l, r);
    AtConcat(terms, pos, [op], l);
    AtOne(terms, pos, op);
  }

  /** A flattened tree in any context is consumed exactly, and means what the tree means. */
  lemma {:induction false} TermMeansTree(t: Tree, row: Row, terms: seq<Token>, pos: nat)
    requires At(terms, pos, Flatten(t))
    ensures EvalTerm(row, terms, pos) == Placed(Meaning(t, row), pos + |Flatten(t)|)
    decreases |Flatten(t)|, 1
  {
    match t
    case Leaf(f, test) =>
      AtOne(terms, pos, Triple(f, test));
      LeafStep(row, terms, pos);
    case Negated(a) =>
      AtConcat(terms, pos, [Not], Flatten(a));
      AtOne(terms, pos, Not);
      TermMeansTree(a, row, terms, pos + 1);
      NotStep(row, terms, pos, Meaning(a, row), pos + 1 + |Flatten(a)|);
    case Both(l, r) =>
      PairMeansTrees(And, l, r, row, terms, pos);
    case Either(l, r) =>
      PairMeansTrees(Or, l, r, row, terms, pos);
  }

  lemma {:induction false} PairMeansTrees(op: Token, l: Tree, r: Tree, row: Row, terms: seq<Token>, pos: nat)
    requires (op == And || op == Or) && At(terms, pos, [op] + Flatten(l) + Flatten(r))
    ensures EvalTerm(row, terms, pos)
            == Placed(Join(op == And, Meaning(l, row), Meaning(r, row)), pos + 1 + |Flatten(l)| + |Flatten(r)|)
    decreases 1 + |Flatten(l)| + |Flatten(r)|, 0
  {
    var mid := pos + 1 + |Flatten(l)|;
    AtPair(terms, pos, op, Flatten(l), Flatten(r));
    TermMeansTree(l, row, terms, pos + 1);
    TermMeansTree(r, row, terms, mid);
    JoinStep(row, terms, pos, Meaning(l, row), mid, Meaning(r, row), mid + |Flatten(r)|);
  }

  /** Prefix evaluation is correct for every list of trees, errors included. */
  lemma {:induction false} ForestMeansConjunction(ts: seq<Tree>, row: Row, terms: seq<Token>, pos: nat)
    requires At(terms, pos, FlattenAll(ts)) && pos + |FlattenAll(ts)| == |terms|
    ensures EvalFrom(row, terms, pos) == MeaningAll(ts, row)
    decreases |ts|
  {
    if ts != [] {
      var head, rest := Flatten(ts[0]), FlattenAll(ts[1..]);
      AtConcat(terms, pos, head, rest);
      TermMeansTree(ts[0], row, terms, pos);
      ForestMeansConjunction(ts[1..], row, terms, pos + |head|);
      FlattenNonEmpty(ts[0]);
    }
  }

  lemma FlattenNonEmpty(t: Tree)
    ensures |Flatten(t)| > 0
  {
  }

  lemma FlattenedDomainMeansConjunction(ts: seq<Tree>, row: Row)
    ensures DomainMatches(row, FlattenAll(ts)) == MeaningAll(ts, row)
  {
    ForestMeansConjunction(ts, row, FlattenAll(ts), 0);
  }

  /** A term that evaluates was the flattening of some tree. */
  lemma {:induction false} TreeOfTerm(row: Row, terms: seq<Token>, pos: nat) returns (t: Tree)
    requires EvalTerm(row, terms, pos).Val?
    ensures At(terms, pos, Flatten(t)) && pos + |Flatten(t)| == EvalTerm(row, terms, pos).value.1
    decreases |terms| - pos, 1
  {
    var op := terms[pos];
    AtOne(terms, pos, op);
    if op.Triple? {
      t := Leaf(op.field, op.test);
    } else if op == Not {
      NotEvaluates(row, terms, pos);
      var a := TreeOfTerm(row, terms, pos + 1);
      t := Negated(a);
      AtConcat(terms, pos, [Not], Flatten(a));
    } else {
      var l, r := TreesOfPair(row, terms, pos);
      t := if op == And then Both(l, r) else Either(l, r);
    }
  }

  lemma NotEvaluates(row: Row, terms: seq<Token>, pos: nat)
    requires EvalTerm(row, terms, pos).Val? && terms[pos] == Not
    ensures EvalTerm(row, terms, pos + 1).Val?
            && EvalTerm(row, terms, pos + 1).value.1 == EvalTerm(row, terms, pos).value.1
  {
  }

  lemma PairEvaluates(row: Row, terms: seq<Token>, pos: nat)
    requires EvalTerm(row, terms, pos).Val? && (terms[pos] == And || terms[pos] == Or)
    ensures var l := EvalTerm(row, terms, pos + 1);
            l.Val? && EvalTerm(row, terms, l.value.1).Val?
            && EvalTerm(row, terms, l.value.1).value.1 == EvalTerm(row, terms, pos).value.1
  {
  }

  lemma {:induction false} TreesOfPair(row: Row, terms: seq<Token>, pos: nat) returns (l: Tree, r: Tree)
    requires EvalTerm(row, terms, pos).Val? && (terms[pos] == And || terms[pos] == Or)
    ensures At(terms, pos, [terms[pos]] + Flatten(l) + Flatten(r))
    ensures pos + 1 + |Flatten(l)| + |Flatten(r)| == EvalTerm(row, terms, pos).value.1
    decreases |terms| - pos, 0
  {
    PairEvaluates(row, terms, pos);
    l := TreeOfTerm(row, terms, pos + 1);
    r := TreeOfTerm(row, terms, pos + 1 + |Flatten(l)|);
    AtPair(terms, pos, terms[pos], Flatten(l), Flatten(r));
  }

  lemma {:induction false} TreesOfDomain(row: Row, terms: seq<Token>, pos: nat) returns (ts: seq<Tree>)
    requires pos <= |terms| && EvalFrom(row, terms, pos).Val?
    ensures terms[pos..] == FlattenAll(ts)
    decreases |terms| - pos
  {
    if pos == |terms| {
      ts := [];
    } else {
      var t := TreeOfTerm(row, terms, pos);
      var mid := pos + |Flatten(t)|;
      var rest := TreesOfDomain(row, terms, mid);
      ts := [t] + rest;
      assert ts[1..] == rest;
      assert terms[pos..] == terms[pos..mid] + terms[mid..];
    }
  }

  /** Any token list at all: the evaluator answers `b` exactly when the list is the flattening of a
      forest that means `b`; every other list ends in an error, never in a wrong answer. */
  lemma DomainAnswersExactlyForests(row: Row, terms: seq<Token>, b: bool)
    ensures DomainMatches(row, terms) == Val(b)
            <==> exists ts: seq<Tree> :: FlattenAll(ts) == terms && MeaningAll(ts, row) == Val(b)
  {
    if DomainMatches(row, terms) == Val(b) {
      var ts := TreesOfDomain(row, terms, 0);
      assert terms[0..] == terms;
      FlattenedDomainMeansConjunction(ts, row);
    }
    forall ts: seq<Tree> | FlattenAll(ts) == terms && MeaningAll(ts, row) == Val(b)
      ensures DomainMatches(row, terms) == Val(b)
    {
      FlattenedDomainMeansConjunction(ts, row);
    }
  }

  /** A plain list of triples is their conjunction. */
  lemma {:induction false} PlainListIsConjunction(row: Row, terms: seq<Token>)
    requires forall t | t in terms :: t.Triple? && EvalTriple(row, t.field, t.test).Val?
    ensures DomainMatches(row, terms) == Val(forall t | t in terms :: EvalTriple(row, t.field, t.test).value)
  {
    PlainFrom(row, terms, 0);
    assert terms[0..] == terms;
  }

  lemma {:induction false} PlainFrom(row: Row, terms: seq<Token>, pos: nat)
    requires pos <= |terms|
    requires forall t | t in terms :: t.Triple? && EvalTriple(row, t.field, t.test).Val?
    ensures EvalFrom(row, terms, pos) == Val(forall t | t in terms[pos..] :: EvalTriple(row, t.field, t.test).value)
    decreases |terms| - pos
  {
    if pos < |terms| {
      assert terms[pos] in terms;
      PlainFrom(row, terms, pos + 1);
      assert terms[pos..] == [terms[pos]] + terms[pos + 1..];
    }
  }
}
