/** One Odoo call: when it is repeated, and what its exception class says about the write. */
module Transport {

  /** How one attempt ends on the wire. `applied` is what the caller cannot see. */
  datatype Answer =
    | Answered
    | Fault
    | Http(code: int, applied: bool)
    | Silence(applied: bool)

  datatype Verdict = Returned | SystemError | OutcomeInDoubt | Exhausted

  /** An answer means applied, a fault was rolled back, and a 429 was refused before dispatch. */
  predicate Applied(a: Answer) {
    match a
    case Answered => true
    case Fault => false
    case Http(code, applied) => applied && code != 429
    case Silence(applied) => applied
  }

  predicate Retryable(code: int) {
    code == 429 || code == 502 || code == 503 || code == 504
  }

  /** Does the loop go round again after this answer? */
  predicate Repeats(isRead: bool, a: Answer, last: bool) {
    match a
    case Answered => false
    case Fault => false
    case Http(code, _) => Retryable(code) && !last && (isRead || code == 429)
    case Silence(_) => isRead && !last
  }

  function Ending(isRead: bool, a: Answer): Verdict {
    match a
    case Answered => Returned
    case Fault => SystemError
    case Http(code, _) => if !isRead && code != 429 then OutcomeInDoubt else SystemError
    case Silence(_) => if isRead then SystemError else OutcomeInDoubt
  }

  /** The attempts made from number `n` on, and the verdict. */
  datatype Course = Course(attempts: nat, verdict: Verdict)

  function Calls(isRead: bool, answers: nat -> Answer, max: int, n: nat): Course
    decreases max - n
  {
    if n > max then Course(n, Exhausted)
    else if Repeats(isRead, answers(n), n == max) then Calls(isRead, answers, max, n + 1)
    else Course(n + 1, Ending(isRead, answers(n)))
  }

  function AppliedCount(answers: nat -> Answer, n: nat): nat {
    if n == 0 then 0 else AppliedCount(answers, n - 1) + if Applied(answers(n - 1)) then 1 else 0
  }

  function Pow2(n: nat): (p: nat)
    ensures p >= 1
  {
    if n == 0 then 1 else 2 * Pow2(n - 1)
  }

  /** The pause after attempt number `n`. */
  function Pause(unit: real, n: nat): real {
    unit * Pow2(n) as real
  }

  /** The exponential backoff slept before attempt number `n`. */
  function Backoff(unit: real, n: nat): real {
    if n == 0 then 0.0 else Backoff(unit, n - 1) + Pause(unit, n - 1)
  }

  lemma {:induction false} BackoffClosed(unit: real, n: nat)
    ensures Backoff(unit, n) == unit * (Pow2(n) - 1) as real
  {
    if n > 0 {
      BackoffClosed(unit, n - 1);
      assert (Pow2(n) - 1) as real == (Pow2(n - 1) - 1) as real + Pow2(n - 1) as real;
    }
  }

  /** Everything before the last attempt was repeated. */
  lemma {:induction false} CallsShape(isRead: bool, answers: nat -> Answer, max: int, n: nat)
    requires n <= max
    ensures var c := Calls(isRead, answers, max, n);
            && n < c.attempts <= max + 1
            && (forall i | n <= i < c.attempts - 1 :: Repeats(isRead, answers(i), i == max))
            && !Repeats(isRead, answers(c.attempts - 1), c.attempts - 1 == max)
            && c.verdict == Ending(isRead, answers(c.attempts - 1))
    decreases max - n
  {
    if Repeats(isRead, answers(n), n == max) {
      CallsShape(isRead, answers, max, n + 1);
    }
  }

  /** A read goes round again after silence or a gateway's or limiter's refusal, a write only after the
      limiter's, which proves it was not applied. */
  predicate GoesRound(isRead: bool, a: Answer) {
    match a
    case Answered => false
    case Fault => false
    case Http(code, _) => if isRead then code in {429, 502, 503, 504} else code == 429
    case Silence(_) => isRead
  }

  /** The call made exactly `n` attempts: up to the first answer it does not go round after, or as many
      as there are. */
  predicate Attempted(isRead: bool, answers: nat -> Answer, max: int, n: nat) {
    && 1 <= n <= max + 1
    && (forall i | 0 <= i < n - 1 :: GoesRound(isRead, answers(i)))
    && (n == max + 1 || !GoesRound(isRead, answers(n - 1)))
  }

  /** What the last answer makes the caller see. */
  predicate SeenAs(isRead: bool, a: Answer, v: Verdict) {
    && (v == Returned <==> a.Answered?)
    && (v == SystemError <==> a.Fault? || (a.Http? && a.code == 429) || (isRead && !a.Answered?))
    && (v == OutcomeInDoubt <==> !isRead && (a.Silence? || (a.Http? && a.code != 429)))
  }

  /** Every course of answers: how many attempts are made, and how the last one is seen. */
  lemma AttemptsExactlyWhen(isRead: bool, answers: nat -> Answer, max: nat, n: nat)
    ensures Calls(isRead, answers, max, 0).attempts == n <==> Attempted(isRead, answers, max, n)
    ensures Attempted(isRead, answers, max, n) ==>
              SeenAs(isRead, answers(n - 1), Calls(isRead, answers, max, 0).verdict)
  {
    CallsShape(isRead, answers, max, 0);
    var m := Calls(isRead, answers, max, 0).attempts;
    assert Attempted(isRead, answers, max, m);
    if Attempted(isRead, answers, max, n) {
      var a, b := answers(n - 1), answers(m - 1);
      assert n < m ==> GoesRound(isRead, a);
      assert m < n ==> GoesRound(isRead, b);
    }
  }

  lemma {:induction false} RepeatedWritesAreUnapplied(answers: nat -> Answer, n: nat)
    requires forall i | 0 <= i < n :: !Applied(answers(i))
    ensures AppliedCount(answers, n) == 0
  {
    if n > 0 {
      RepeatedWritesAreUnapplied(answers, n - 1);
    }
  }

  /** Retry soundness for a write, for every course of transport outcomes: it is applied at most once;
      a return means applied; a plain error means not applied; anything else is a doubt. */
  lemma WriteIsSound(answers: nat -> Answer, max: nat)
    ensures var c := Calls(false, answers, max, 0);
            var applied := AppliedCount(answers, c.attempts);
            && 1 <= c.attempts <= max + 1 && applied <= 1
            && (c.verdict == Returned ==> applied == 1)
            && (c.verdict == SystemError ==> applied == 0)
            && (c.verdict == SystemError <==>
                  answers(c.attempts - 1).Fault?
                  || (answers(c.attempts - 1).Http? && answers(c.attempts - 1).code == 429))
            && c.verdict != Exhausted
            && (forall i | 0 <= i < c.attempts - 1 :: answers(i).Http? && answers(i).code == 429)
  {
    CallsShape(false, answers, max, 0);
    var c := Calls(false, answers, max, 0);
    RepeatedWritesAreUnapplied(answers, c.attempts - 1);
  }

  lemma LastAttempt(isRead: bool, answers: nat -> Answer, max: int, n: nat)
    requires n <= max && Calls(isRead, answers, max, 0) == Calls(isRead, answers, max, n)
    requires !Repeats(isRead, answers(n), n == max)
    ensures Calls(isRead, answers, max, 0) == Course(n + 1, Ending(isRead, answers(n)))
    ensures Attempted(isRead, answers, max, n + 1) && SeenAs(isRead, answers(n), Ending(isRead, answers(n)))
  {
    AttemptsExactlyWhen(isRead, answers, max, n + 1);
  }

  /** A read is never in doubt. It returns exactly when some attempt within the budget is answered and
      only passing trouble, silence or HTTP 429, 502, 503 and 504, came before; else it is a plain error. */
  lemma ReadIsNeverInDoubt(answers: nat -> Answer, max: nat)
    ensures var v := Calls(true, answers, max, 0).verdict;
            && (v == Returned || v == SystemError)
            && (v == Returned <==>
                  exists k | 0 <= k <= max :: answers(k).Answered?
                                              && forall i | 0 <= i < k :: GoesRound(true, answers(i)))
  {
    var c := Calls(true, answers, max, 0);
    AttemptsExactlyWhen(true, answers, max, c.attempts);
    if k: nat :| k <= max && answers(k).Answered? && forall i | 0 <= i < k :: GoesRound(true, answers(i)) {
      AttemptsExactlyWhen(true, answers, max, k + 1);
    }
    assert c.verdict == Returned ==> answers(c.attempts - 1).Answered?;
  }

  /** The raise after the loop is reached exactly when the loop has no attempt to make. */
  lemma ExhaustedExactlyWhen(isRead: bool, answers: nat -> Answer, max: int)
    ensures Calls(isRead, answers, max, 0).verdict == Exhausted <==> max < 0
  {
    if max >= 0 {
      CallsShape(isRead, answers, max, 0);
    }
  }

  /** The total backoff never exceeds `unit * (2^max - 1)`. */
  lemma BackoffBound(isRead: bool, answers: nat -> Answer, max: nat, unit: real)
    requires unit >= 0.0
    ensures Calls(isRead, answers, max, 0).attempts >= 1
    ensures Backoff(unit, Calls(isRead, answers, max, 0).attempts - 1) <= unit * (Pow2(max) - 1) as real
  {
    CallsShape(isRead, answers, max, 0);
    var n := Calls(isRead, answers, max, 0).attempts - 1;
    BackoffClosed(unit, n);
    PowMonotone(n, max);
    MulMonotone(unit, (Pow2(n) - 1) as real, (Pow2(max) - 1) as real);
  }

  lemma MulMonotone(u: real, a: real, b: real)
    requires u >= 0.0 && a <= b
    ensures u * a <= u * b
  {
  }

  lemma {:induction false} PowMonotone(n: nat, m: nat)
    requires n <= m
    ensures Pow2(n) <= Pow2(m)
    decreases m
  {
    if n < m {
      PowMonotone(n, m - 1);
    }
  }

  // ---------------------------------------------------------------- the client

  /** Consecutive calls are at least `gap` apart. */
  ghost predicate Spaced(times: seq<real>, gap: real) {
    forall i | 0 < i < |times| :: times[i] - times[i - 1] >= gap
  }

  class RealSystemClient {
    const maxRetries: int
    const backoff: real
    const minInterval: real
    var clock: real
    var lastCall: real
    var authenticated: bool
    ghost var sent: seq<real>
    ghost var applied: nat
    ghost var slept: real

    constructor (maxRetries: int, backoff: real, minInterval: real, now: real)
      requires backoff >= 0.0 && now >= 0.0
      ensures Valid() && this.maxRetries == maxRetries && this.backoff == backoff && this.minInterval == minInterval
      ensures sent == [] && applied == 0 && slept == 0.0 && !authenticated
    {
      this.maxRetries, this.backoff, this.minInterval := maxRetries, backoff, minInterval;
      clock, lastCall, authenticated := now, 0.0, false;
      sent, applied, slept := [], 0, 0.0;
    }

    /** The calls sent so far are spaced, and the throttle remembers the last of them. */
    ghost predicate Valid()
      reads this
    {
      && backoff >= 0.0 && Spaced(sent, minInterval)
      && (sent != [] ==> sent[|sent| - 1] <= clock && (minInterval > 0.0 ==> lastCall == sent[|sent| - 1]))
    }

    /** Hold this call to at least `minInterval` after the last one. */
    method Throttle()
      requires Valid()
      modifies this`clock, this`lastCall
      ensures clock >= old(clock)
      ensures minInterval > 0.0 ==> lastCall == clock && clock - old(lastCall) >= minInterval
      ensures sent != [] ==> clock - sent[|sent| - 1] >= minInterval
    {
      if minInterval <= 0.0 {
        return;
      }
      var wait := minInterval - (clock - lastCall);
      if wait > 0.0 {
        clock := clock + wait;
      }
      lastCall := clock;
    }

    /** One throttled call on the wire. */
    method Send(a: Answer)
      requires Valid()
      modifies this`clock, this`lastCall, this`sent, this`applied
      ensures Valid() && |sent| == |old(sent)| + 1 && applied == old(applied) + if Applied(a) then 1 else 0
    {
      Throttle();
      sent := sent + [clock];
      applied := applied + if Applied(a) then 1 else 0;
    }

    /** The `except` clauses: sleep and go round again, or the verdict. */
    method Handle(isRead: bool, a: Answer, attempt: nat) returns (again: bool, v: Verdict)
      requires Valid() && attempt <= maxRetries
      modifies this`clock, this`slept
      ensures Valid() && again == Repeats(isRead, a, attempt == maxRetries)
      ensures !again ==> v == Ending(isRead, a) && slept == old(slept)
      ensures again ==> slept == old(slept) + Pause(backoff, attempt)
    {
      again, v := false, SystemError;
      if a.Answered? {
        v := Returned;
      } else if a.Fault? {
        v := SystemError;
      } else if a.Http? {
        var unknown := !isRead && a.code != 429;
        if Retryable(a.code) && attempt < maxRetries && !unknown {
          Sleep(attempt);
          again := true;
        } else if unknown {
          v := OutcomeInDoubt;
        }
      } else if isRead && attempt < maxRetries {
        Sleep(attempt);
        again := true;
      } else if !isRead {
        v := OutcomeInDoubt;
      }
    }

    /** `_kw`: `answers` is what each attempt meets, `login` whether authentication succeeds. */
    method Kw(isRead: bool, answers: nat -> Answer, login: bool) returns (v: Verdict)
      requires Valid()
      modifies this
      ensures Valid()
      ensures old(authenticated) || login ==>
                var c := Calls(isRead, answers, maxRetries, 0);
                v == c.verdict && |sent| == |old(sent)| + c.attempts
                && applied == old(applied) + AppliedCount(answers, c.attempts)
                && slept == old(slept) + Backoff(backoff, if c.attempts == 0 then 0 else c.attempts - 1)
      ensures (old(authenticated) || login) && maxRetries >= 0 ==>
                var n := |sent| - |old(sent)|;
                n >= 1 && Attempted(isRead, answers, maxRetries, n) && SeenAs(isRead, answers(n - 1), v)
      ensures !old(authenticated) && !login ==> v == SystemError && sent == old(sent) && applied == old(applied)
    {
      if !authenticated {
        if !login {
          return SystemError;
        }
        authenticated := true;
      }
      var attempt: nat := 0;
      while attempt <= maxRetries
        invariant Valid()
        invariant |sent| == |old(sent)| + attempt
        invariant applied == old(applied) + AppliedCount(answers, attempt)
        invariant slept == old(slept) + Backoff(backoff, attempt)
        invariant Calls(isRead, answers, maxRetries, 0) == Calls(isRead, answers, maxRetries, attempt)
        invariant attempt == 0 || attempt <= maxRetries
        invariant authenticated
        decreases maxRetries - attempt
      {
        var a := answers(attempt);
        Send(a);
        var again: bool;
        again, v := Handle(isRead, a, attempt);
        if !again {
          LastAttempt(isRead, answers, maxRetries, attempt);
          return;
        }
        attempt := attempt + 1;
      }
      v := Exhausted;
    }

    method Sleep(attempt: nat)
      requires Valid()
      modifies this`clock, this`slept
      ensures Valid() && slept == old(slept) + Pause(backoff, attempt)
    {
      var pause := Pause(backoff, attempt);
      Product(backoff, Pow2(attempt) as real);
      clock := clock + pause;
      slept := slept + pause;
    }
  }

  lemma Product(u: real, p: real)
    requires u >= 0.0 && p >= 0.0
    ensures u * p >= 0.0
  {
  }
}
