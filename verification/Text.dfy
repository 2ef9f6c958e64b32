/** A value that may be absent. */
module Options {
  datatype Option<+T> = None | Some(value: T)
}

/** Text as the adapter uses it: substring tests, lexicographic order, decimal numerals. */
module Text {
  import opened Options

  predicate HasPrefix(s: string, p: string) {
    |p| <= |s| && s[..|p|] == p
  }

  /** Python's `m in s`. */
  predicate Contains(s: string, m: string) {
    HasPrefix(s, m) || (s != [] && Contains(s[1..], m))
  }

  lemma {:induction false} ContainsAt(s: string, m: string, i: nat)
    requires i <= |s| && HasPrefix(s[i..], m)
    ensures Contains(s, m)
  {
    if i == 0 {
      assert s[0..] == s;
    } else {
      assert s[1..][i - 1..] == s[i..];
      ContainsAt(s[1..], m, i - 1);
    }
  }

  lemma {:induction false} ContainsWitness(s: string, m: string) returns (i: nat)
    requires Contains(s, m)
    ensures i <= |s| && HasPrefix(s[i..], m)
  {
    if HasPrefix(s, m) {
      i := 0;
      assert s[0..] == s;
    } else {
      var j := ContainsWitness(s[1..], m);
      i := j + 1;
      assert s[1..][j..] == s[i..];
    }
  }

  /** Python's `s < t` on text. */
  predicate Less(s: string, t: string) {
    t != [] && (s == [] || s[0] < t[0] || (s[0] == t[0] && Less(s[1..], t[1..])))
  }

  lemma {:induction false} LessIrreflexive(s: string)
    ensures !Less(s, s)
  {
    if s != [] {
      LessIrreflexive(s[1..]);
    }
  }

  lemma {:induction false} LessTransitive(s: string, t: string, u: string)
    requires Less(s, t) && Less(t, u)
    ensures Less(s, u)
  {
    if s != [] && s[0] == t[0] == u[0] {
      LessTransitive(s[1..], t[1..], u[1..]);
    }
  }

  lemma {:induction false} LessTotal(s: string, t: string)
    ensures Less(s, t) || s == t || Less(t, s)
  {
    if s != [] && t != [] && s[0] == t[0] {
      LessTotal(s[1..], t[1..]);
      assert s == [s[0]] + s[1..] && t == [t[0]] + t[1..];
    }
  }

  /** The texts agree before position `i`, and there `s` ends first or has the smaller character. */
  predicate PartsAt(s: string, t: string, i: nat) {
    && i <= |s| && i < |t| && s[..i] == t[..i]
    && (i < |s| ==> s[i] < t[i])
  }

  /** Text order, said by the first difference. */
  ghost predicate Precedes(s: string, t: string) {
    exists i :: PartsAt(s, t, i)
  }

  lemma PartsHead(s: string, t: string, i: nat)
    ensures PartsAt(s, t, i) && i > 0 ==> s != [] && t != [] && s[0] == t[0]
  {
    if PartsAt(s, t, i) && i > 0 {
      assert s[..i][0] == t[..i][0];
    }
  }

  lemma {:induction false} LessIsPrecedes(s: string, t: string)
    ensures Less(s, t) <==> Precedes(s, t)
  {
    if t == [] || s == [] || s[0] != t[0] {
      assert Less(s, t) ==> PartsAt(s, t, 0);
      forall i: nat ensures PartsAt(s, t, i) && i > 0 ==> s != [] && t != [] && s[0] == t[0] {
        PartsHead(s, t, i);
      }
    } else {
      LessIsPrecedes(s[1..], t[1..]);
      if Less(s, t) {
        var i: nat :| PartsAt(s[1..], t[1..], i);
        assert s[..i + 1] == [s[0]] + s[1..][..i] && t[..i + 1] == [t[0]] + t[1..][..i];
        assert PartsAt(s, t, i + 1);
      } else if i: nat :| PartsAt(s, t, i) {
        assert s[1..][..i - 1] == s[..i][1..] && t[1..][..i - 1] == t[..i][1..];
        assert PartsAt(s[1..], t[1..], i - 1);
      }
    }
  }

  /** The text has `m` at position `i`. */
  predicate HasAt(s: string, m: string, i: nat) {
    i + |m| <= |s| && forall j | 0 <= j < |m| :: s[i + j] == m[j]
  }

  lemma ContainsSomewhere(s: string, m: string)
    ensures Contains(s, m) <==> exists i :: HasAt(s, m, i)
  {
    if Contains(s, m) {
      var i := ContainsWitness(s, m);
      assert s[i..][..|m|] == m;
      forall j | 0 <= j < |m| ensures s[i + j] == m[j] {
        assert s[i..][..|m|][j] == m[j];
      }
      assert HasAt(s, m, i);
    }
    if i: nat :| HasAt(s, m, i) {
      assert s[i..][..|m|] == m;
      ContainsAt(s, m, i);
    }
  }

  predicate IsDigit(c: char) {
    '0' <= c <= '9'
  }

  function Digit(d: nat): (c: char)
    requires d < 10
    ensures IsDigit(c)
  {
    '0' + d as char
  }

  /** Python's `str` of an integer. */
  function Numeral(n: int): (s: string)
    ensures s != []
    ensures forall c | c in s :: IsDigit(c) || c == '-'
    decreases if n < 0 then 1 - n else n
  {
    if n < 0 then ['-'] + Numeral(-n)
    else if n < 10 then [Digit(n)]
    else Numeral(n / 10) + [Digit(n % 10)]
  }

  /** The number a run of digits spells, after `acc`; None when another character is met. */
  function Digits(s: string, acc: int): Option<int> {
    if s == [] then Some(acc)
    else if IsDigit(s[0]) then Digits(s[1..], 10 * acc + (s[0] - '0') as int)
    else None
  }

  lemma {:induction false} DigitsSnoc(s: string, acc: int, d: nat)
    requires d < 10
    ensures Digits(s + [Digit(d)], acc) == match Digits(s, acc) case None => None case Some(n) => Some(10 * n + d)
  {
    if s == [] {
      assert s + [Digit(d)] == [Digit(d)] && [Digit(d)][1..] == [];
    } else {
      assert (s + [Digit(d)])[1..] == s[1..] + [Digit(d)];
      if IsDigit(s[0]) {
        DigitsSnoc(s[1..], 10 * acc + (s[0] - '0') as int, d);
      }
    }
  }

  /** A numeral reads back as its number. */
  lemma {:induction false} NumeralReads(n: nat)
    ensures Digits(Numeral(n), 0) == Some(n)
    ensures forall c | c in Numeral(n) :: IsDigit(c)
  {
    if n < 10 {
      assert Numeral(n) == [Digit(n)] && [Digit(n)][1..] == [];
    } else {
      NumeralReads(n / 10);
      DigitsSnoc(Numeral(n / 10), 0, n % 10);
    }
  }

  /** `str.rstrip(".")`. */
  function StripDots(s: string): string {
    if s != [] && s[|s| - 1] == '.' then StripDots(s[..|s| - 1]) else s
  }
}
