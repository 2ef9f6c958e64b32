/** Odoo's naive-UTC timestamps and their ISO text. */
module Dates {
  import opened Text
  import opened Options
  import opened Values
  import Marker

  /** `YYYY-MM-DD HH:MM:SS`. */
  predicate OdooDate(s: string) {
    && |s| == 19
    && (forall i | 0 <= i < 19 ::
          if i == 4 || i == 7 then s[i] == '-'
          else if i == 10 then s[i] == ' '
          else if i == 13 || i == 16 then s[i] == ':'
          else IsDigit(s[i]))
  }

  function ReplaceAll(s: string, c: char, d: char): (t: string)
    ensures |t| == |s|
    ensures forall i | 0 <= i < |s| :: t[i] == if s[i] == c then d else s[i]
  {
    seq(|s|, i requires 0 <= i < |s| => if s[i] == c then d else s[i])
  }

  /** `s.find(c, start)`, or |s| when it is not there. */
  function Find(s: string, c: char, start: nat): (i: nat)
    ensures start <= |s| ==> start <= i <= |s|
    ensures i < |s| ==> s[i] == c
    ensures forall j | start <= j < i && j < |s| :: s[j] != c
    decreases |s| - start
  {
    if start >= |s| then |s| else if s[start] == c then start else Find(s, c, start + 1)
  }

  /** `s.rfind(c)`. */
  function FindLast(s: string, c: char): (i: int)
    ensures -1 <= i < |s|
    ensures i >= 0 ==> s[i] == c
    ensures forall j | i < j < |s| :: s[j] != c
  {
    if s == [] then -1 else if s[|s| - 1] == c then |s| - 1 else FindLast(s[..|s| - 1], c)
  }

  function OdooToIso(value: Value): Option<string> {
    if !Truthy(value) then None
    else
      var s := Marker.Strip(Show(value));
      if 'T' in s then Some(s)
      else
        var i := Find(s, ' ', 0);
        Some((if i < |s| then s[..i] + "T" + s[i + 1..] else s) + "Z")
  }

  function DropZ(s: string): string {
    if s != [] && s[|s| - 1] == 'Z' then s[..|s| - 1] else s
  }

  function IsoToOdoo(value: string): (r: Option<string>)
    ensures r.Some? ==> OdooDate(r.value)
  {
    var s0 := ReplaceAll(DropZ(Marker.Strip(value)), 'T', ' ');
    var s1 := s0[..Find(s0, '.', 0)];
    var plus := Find(s1, '+', 10);
    var s2 := if plus < |s1| then s1[..plus] else s1;
    var minus := FindLast(s2, '-');
    var s3 := if minus > 10 then Marker.StripRight(s2[..minus]) else s2;
    if OdooDate(s3) then Some(s3) else None
  }

  lemma DateChars(s: string)
    requires OdooDate(s)
    ensures forall i | 0 <= i < 19 :: s[i] != '.' && s[i] != '+' && s[i] != 'T' && (s[i] == '-' <==> i == 4 || i == 7)
  {
  }

  lemma StripTight(s: string)
    requires s != [] && !Marker.IsSpace(s[0]) && !Marker.IsSpace(s[|s| - 1])
    ensures Marker.Strip(s) == s
  {
  }

  function IsoText(s: string): string
    requires |s| == 19
  {
    s[..10] + "T" + s[11..] + "Z"
  }

  lemma IsoOfOdoo(s: string)
    requires OdooDate(s)
    ensures OdooToIso(Text(s)) == Some(IsoText(s))
  {
    assert IsDigit(s[0]) && IsDigit(s[18]);
    StripTight(s);
    forall i | 0 <= i < 19 ensures s[i] != 'T' {}
    var i := Find(s, ' ', 0);
    assert s[10] == ' ' && i == 10;
  }

  lemma OdooOfIso(s: string)
    requires OdooDate(s)
    ensures IsoToOdoo(IsoText(s)) == Some(s)
  {
    var iso := IsoText(s);
    assert iso[0] == s[0] && IsDigit(iso[0]) && iso[|iso| - 1] == 'Z';
    StripTight(iso);
    assert DropZ(iso) == s[..10] + "T" + s[11..];
    var s0 := ReplaceAll(DropZ(iso), 'T', ' ');
    assert s0 == s by {
      forall i | 0 <= i < 19 ensures s0[i] == s[i] {
        assert DropZ(iso)[i] == if i == 10 then 'T' else s[i];
      }
    }
    DateChars(s);
    assert Find(s, '.', 0) == 19 && s[..19] == s;
    assert Find(s, '+', 10) == 19;
    assert s[7] == '-' && FindLast(s, '-') == 7;
  }

  /** The cursor's date survives the wire: out as ISO text, back as the same Odoo text. */
  lemma DateRoundTrip(s: string)
    requires OdooDate(s)
    ensures OdooToIso(Text(s)).Some? && IsoToOdoo(OdooToIso(Text(s)).value) == Some(s)
  {
    IsoOfOdoo(s);
    OdooOfIso(s);
  }

  /** A zone offset, east or west, behind either form of a timestamp, is cut off and not applied:
      every offset names the same stored time, though the instants lie hours apart. */
  lemma OffsetIsDropped(s: string, sep: char, sign: char, offset: string)
    requires OdooDate(s) && (sep == ' ' || sep == 'T') && (sign == '+' || sign == '-')
    requires offset != [] && forall c | c in offset :: IsDigit(c) || c == ':'
    ensures IsoToOdoo(s[..10] + [sep] + s[11..] + [sign] + offset) == Some(s)
  {
    var v := s[..10] + [sep] + s[11..] + [sign] + offset;
    var u := s + [sign] + offset;
    forall i | 0 <= i < |v| ensures v[i] == if i == 10 then sep else u[i] {}
    assert offset[|offset| - 1] in offset && v[|v| - 1] == offset[|offset| - 1];
    assert v[0] == s[0] && IsDigit(s[0]);
    StripTight(v);
    OffsetChars(s, sign, offset);
    assert DropZ(v) == v;
    assert ReplaceAll(v, 'T', ' ') == u;
    assert Find(u, '.', 0) == |u| && u[..|u|] == u;
    assert s[7] == '-' && FindLast(s, '-') == 7;
    if sign == '+' {
      assert Find(u, '+', 10) == 19 && u[..19] == s;
    } else {
      assert Find(u, '+', 10) == |u|;
      assert FindLast(u, '-') == 19 && u[..19] == s;
      assert Marker.StripRight(s) == s;
    }
  }

  /** Whatever follows a point is cut off: fractions of a second, and a zone written behind them. */
  lemma FractionIsDropped(s: string, sep: char, rest: string)
    requires OdooDate(s) && (sep == ' ' || sep == 'T')
    ensures IsoToOdoo(s[..10] + [sep] + s[11..] + "." + rest) == Some(s)
  {
    var v := s[..10] + [sep] + s[11..] + "." + rest;
    var head := s[..10] + [sep] + s[11..] + ".";
    assert v == head + rest && |head| == 20;
    assert v[0] == s[0] && IsDigit(s[0]) && v[19] == '.';
    StripKeeps(v, 20);
    var u := DropZ(Marker.Strip(v));
    assert |u| >= 20 && u[..20] == v[..20] by {
      assert Marker.Strip(v)[..20] == v[..20];
      if |Marker.Strip(v)| == 20 {
        assert Marker.Strip(v)[19] == v[19];
      }
    }
    var s0 := ReplaceAll(u, 'T', ' ');
    DateChars(s);
    forall i | 0 <= i < 19 ensures s0[i] == s[i] {
      assert u[i] == u[..20][i] == v[..20][i];
    }
    assert s0[19] == '.' by {
      assert u[19] == u[..20][19] == v[..20][19];
    }
    assert Find(s0, '.', 0) == 19;
    assert s0[..19] == s;
    assert Find(s, '+', 10) == 19;
    assert s[7] == '-' && FindLast(s, '-') == 7;
  }

  /** Stripping a text that begins with a character and has one at `n - 1` keeps its first `n`. */
  lemma StripKeeps(v: string, n: nat)
    requires 0 < n <= |v| && !Marker.IsSpace(v[0]) && !Marker.IsSpace(v[n - 1])
    ensures |Marker.Strip(v)| >= n && Marker.Strip(v)[..n] == v[..n]
  {
    StripRightKeeps(v, n);
  }

  lemma {:induction false} StripRightKeeps(v: string, n: nat)
    requires 0 < n <= |v| && !Marker.IsSpace(v[n - 1])
    ensures |Marker.StripRight(v)| >= n && Marker.StripRight(v)[..n] == v[..n]
  {
    if |v| > n && Marker.IsSpace(v[|v| - 1]) {
      StripRightKeeps(v[..|v| - 1], n);
    }
  }

  /** What is no timestamp is no text: an unset value is absent on the wire, and an ISO text stands. */
  lemma WireDateStands(s: string)
    requires OdooDate(s)
    ensures OdooToIso(Null) == None && OdooToIso(Flag(false)) == None && OdooToIso(Text("")) == None
    ensures OdooToIso(Text(IsoText(s))) == Some(IsoText(s))
  {
    var iso := IsoText(s);
    assert iso[0] == s[0] && IsDigit(iso[0]) && iso[|iso| - 1] == 'Z' && iso[10] == 'T';
    StripTight(iso);
  }

  lemma OffsetChars(s: string, sign: char, offset: string)
    requires OdooDate(s) && (sign == '+' || sign == '-')
    requires forall c | c in offset :: IsDigit(c) || c == ':'
    ensures var u := s + [sign] + offset;
            && u[19] == sign
            && (forall i | 0 <= i < |u| ::
                  u[i] != 'T' && u[i] != '.' && (i != 19 ==> u[i] != '+') && (i > 19 ==> u[i] != '-'))
  {
    DateChars(s);
    var u := s + [sign] + offset;
    forall i | 0 <= i < |u|
      ensures u[i] != 'T' && u[i] != '.' && (i != 19 ==> u[i] != '+') && (i > 19 ==> u[i] != '-')
    {
      if i > 19 {
        assert u[i] == offset[i - 20] && offset[i - 20] in offset;
      }
    }
  }

  // ---------------------------------------------------------------- text order is time order

  function Weight(s: string): nat {
    if s == [] then 1 else (if IsDigit(s[0]) then 10 else 1) * Weight(s[1..])
  }

  function DigitValue(c: char): nat
    requires IsDigit(c)
  {
    (c - '0') as nat
  }

  /** The number spelled by the digits of `s`, other characters skipped. */
  function Reading(s: string): nat {
    if s == [] then 0
    else if IsDigit(s[0]) then DigitValue(s[0]) * Weight(s[1..]) + Reading(s[1..])
    else Reading(s[1..])
  }

  predicate SameShape(s: string, t: string) {
    |s| == |t| && forall i | 0 <= i < |s| :: s[i] == t[i] || (IsDigit(s[i]) && IsDigit(t[i]))
  }

  lemma {:induction false} ReadingBounds(s: string, t: string)
    requires SameShape(s, t)
    ensures Reading(s) < Weight(s) == Weight(t)
  {
    if s != [] {
      ReadingBounds(s[1..], t[1..]);
      if IsDigit(s[0]) {
        LeadingDigit(DigitValue(s[0]), 10, Weight(s[1..]), Reading(s[1..]), 0);
      }
    }
  }

  /** Texts of one shape order as the numbers they spell. */
  lemma {:induction false} TextOrderIsNumberOrder(s: string, t: string)
    requires SameShape(s, t)
    ensures Less(s, t) <==> Reading(s) < Reading(t)
  {
    if s != [] {
      var rs, rt := s[1..], t[1..];
      TextOrderIsNumberOrder(rs, rt);
      ReadingBounds(rs, rt);
      ReadingBounds(rt, rs);
      if s[0] != t[0] {
        var d, e, w := DigitValue(s[0]), DigitValue(t[0]), Weight(rs);
        if d < e {
          LeadingDigit(d, e, w, Reading(rs), Reading(rt));
        } else {
          LeadingDigit(e, d, w, Reading(rt), Reading(rs));
        }
      }
    }
  }

  lemma LeadingDigit(d: nat, e: nat, w: nat, a: nat, b: nat)
    requires d < e && a < w
    ensures d * w + a < e * w + b
  {
    assert (d + 1) * w <= e * w;
  }

  /** A time of the civil calendar, as the timestamp's six numbers. */
  datatype Instant = Instant(year: nat, month: nat, day: nat, hour: nat, minute: nat, second: nat)

  /** Works on a stored timestamp and on its ISO text alike. */
  function InstantOf(s: string): Instant
    requires |s| >= 19
  {
    Instant(Reading(s[..4]), Reading(s[5..7]), Reading(s[8..10]), Reading(s[11..13]),
            Reading(s[14..16]), Reading(s[17..19]))
  }

  predicate Earlier(a: Instant, b: Instant) {
    a.year < b.year || (a.year == b.year
    && (a.month < b.month || (a.month == b.month
    && (a.day < b.day || (a.day == b.day
    && (a.hour < b.hour || (a.hour == b.hour
    && (a.minute < b.minute || (a.minute == b.minute && a.second < b.second)))))))))
  }

  /** A text is compared by its head, and by its tail where the heads agree. */
  lemma {:induction false} HeadThenTail(s: string, t: string, n: nat)
    requires n <= |s| && n <= |t|
    ensures Less(s, t) <==> Less(s[..n], t[..n]) || (s[..n] == t[..n] && Less(s[n..], t[n..]))
  {
    if n == 0 {
      assert s[0..] == s && t[0..] == t;
    } else {
      HeadThenTail(s[1..], t[1..], n - 1);
      assert s[..n][1..] == s[1..][..n - 1] && t[..n][1..] == t[1..][..n - 1];
      assert s[1..][n - 1..] == s[n..] && t[1..][n - 1..] == t[n..];
      assert s[..n] == [s[0]] + s[1..][..n - 1] && t[..n] == [t[0]] + t[1..][..n - 1];
    }
  }

  lemma SameNumberSameText(s: string, t: string)
    requires SameShape(s, t)
    ensures Reading(s) == Reading(t) <==> s == t
  {
    TextOrderIsNumberOrder(s, t);
    TextOrderIsNumberOrder(t, s);
    LessTotal(s, t);
  }

  /** Two timestamps from position `p` on: the number up to `q` decides, then what follows the
      separator behind it. */
  lemma NumberThenRest(s: string, t: string, p: nat, q: nat)
    requires SameShape(s, t) && p <= q < |s| && s[q] == t[q]
    ensures Less(s[p..], t[p..])
            <==> Reading(s[p..q]) < Reading(t[p..q])
                 || (Reading(s[p..q]) == Reading(t[p..q]) && Less(s[q + 1..], t[q + 1..]))
  {
    HeadThenTail(s[p..], t[p..], q - p);
    assert s[p..][..q - p] == s[p..q] && t[p..][..q - p] == t[p..q];
    assert s[p..][q - p..] == s[q..] && t[p..][q - p..] == t[q..];
    assert s[q..] == [s[q]] + s[q + 1..] && t[q..] == [t[q]] + t[q + 1..];
    TextOrderIsNumberOrder(s[p..q], t[p..q]);
    SameNumberSameText(s[p..q], t[p..q]);
  }

  /** RFC 3339 section 5.1: stored timestamps compare as text exactly as their times compare, and no
      two texts name one time. */
  lemma DatesOrderChronologically(s: string, t: string)
    requires OdooDate(s) && OdooDate(t)
    ensures Less(s, t) <==> Earlier(InstantOf(s), InstantOf(t))
    ensures s == t <==> InstantOf(s) == InstantOf(t)
  {
    TextOrderIsTimeOrder(s, t);
    TextOrderIsTimeOrder(t, s);
    LessTotal(s, t);
  }

  lemma TextOrderIsTimeOrder(s: string, t: string)
    requires OdooDate(s) && OdooDate(t)
    ensures Less(s, t) <==> Earlier(InstantOf(s), InstantOf(t))
  {
    assert SameShape(s, t);
    assert s[0..] == s && t[0..] == t && s[0..4] == s[..4] && t[0..4] == t[..4];
    NumberThenRest(s, t, 0, 4);
    NumberThenRest(s, t, 5, 7);
    NumberThenRest(s, t, 8, 10);
    ClockOrder(s, t);
  }

  lemma ClockOrder(s: string, t: string)
    requires OdooDate(s) && OdooDate(t)
    ensures var a, b := InstantOf(s), InstantOf(t);
            Less(s[11..], t[11..])
            <==> a.hour < b.hour || (a.hour == b.hour
                 && (a.minute < b.minute || (a.minute == b.minute && a.second < b.second)))
  {
    NumberThenRest(s, t, 11, 13);
    NumberThenRest(s, t, 14, 16);
    TextOrderIsNumberOrder(s[17..], t[17..]);
    assert s[17..] == s[17..19] && t[17..] == t[17..19];
  }

  /** The ISO texts name the same times, in the same order. */
  lemma IsoKeepsTimeAndOrder(s: string, t: string)
    requires OdooDate(s) && OdooDate(t)
    ensures InstantOf(IsoText(s)) == InstantOf(s)
    ensures Less(IsoText(s), IsoText(t)) <==> Earlier(InstantOf(s), InstantOf(t))
  {
    var u, v := IsoText(s), IsoText(t);
    TextOrderIsTimeOrder(s, t);
    HeadThenTail(s, t, 10);
    HeadThenTail(u, v, 10);
    assert u[..10] == s[..10] && v[..10] == t[..10];
    assert s[10..] == [' '] + s[11..] && t[10..] == [' '] + t[11..];
    assert u[10..] == ['T'] + (s[11..] + "Z") && v[10..] == ['T'] + (t[11..] + "Z");
    HeadThenTail(s[11..] + "Z", t[11..] + "Z", 8);
    assert (s[11..] + "Z")[..8] == s[11..] && (s[11..] + "Z")[8..] == "Z";
    assert (t[11..] + "Z")[..8] == t[11..] && (t[11..] + "Z")[8..] == "Z";
    LessIrreflexive("Z");
    assert u[..4] == s[..4] && u[5..7] == s[5..7] && u[8..10] == s[8..10];
    assert u[11..13] == s[11..13] && u[14..16] == s[14..16] && u[17..19] == s[17..19];
  }
}
