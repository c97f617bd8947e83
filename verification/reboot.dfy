/**
 The two pure helpers of the card-reboot script: the human-readable rendering
 of an elapsed time, and the reading of the operational state of card 1 out of
 the text a router prints for `show card 1`. The SSH session that produces
 the text and the clock that produces the elapsed time are inputs.
 */
module Reboot {
  import opened Json
  import opened Text

  // ---------------------------------------------------------------------------
  // Durations
  // ---------------------------------------------------------------------------

  /** Python `x // d` on floats, converted with `int()`: the floor of the quotient. */
  function FloorDiv(x: real, d: real): int
    requires d > 0.0
  {
    (x / d).Floor
  }

  /** Python `x % d` on floats for a positive `d`: the remainder takes the sign of `d`. */
  function FloorMod(x: real, d: real): real
    requires d > 0.0
  {
    x - d * (FloorDiv(x, d) as real)
  }

  /** Dividing by 3600 and taking the floor commutes with taking the floor first. */
  lemma FloorDiv3600(x: real)
    ensures FloorDiv(x, 3600.0) == x.Floor / 3600
    ensures 0.0 <= FloorMod(x, 3600.0) < 3600.0
    ensures FloorMod(x, 3600.0).Floor == x.Floor % 3600
  {
    var n := x.Floor;
    var q := n / 3600;
    assert n == 3600 * q + n % 3600;
    assert (q as real) <= x / 3600.0 < (q as real) + 1.0;
    assert FloorDiv(x, 3600.0) == q;
  }

  lemma FloorDiv60(x: real)
    ensures FloorDiv(x, 60.0) == x.Floor / 60
    ensures 0.0 <= FloorMod(x, 60.0) < 60.0
    ensures FloorMod(x, 60.0).Floor == x.Floor % 60
  {
    var n := x.Floor;
    var q := n / 60;
    assert n == 60 * q + n % 60;
    assert (q as real) <= x / 60.0 < (q as real) + 1.0;
    assert FloorDiv(x, 60.0) == q;
  }

  /** Whole hours, the minutes of the remaining hour, and the seconds of the remaining minute add up again. */
  lemma Sexagesimal(n: int)
    ensures 3600 * (n / 3600) + 60 * ((n % 3600) / 60) + n % 60 == n
    ensures 0 <= (n % 3600) / 60 < 60
  {
    var h, r := n / 3600, n % 3600;
    assert n == 3600 * h + r && 0 <= r < 3600;
    var m, t := r / 60, r % 60;
    assert r == 60 * m + t && 0 <= t < 60;
    assert n == 60 * (60 * h + m) + t;
    assert n % 60 == t;
  }

  /** Hours, minutes and seconds as `format_duration` computes them. */
  datatype Clock = Clock(hours: int, minutes: int, secs: int)

  /**
   `int(s // 3600)`, `int((s % 3600) // 60)` and `int(s % 60)`: together they
   account for every whole second, with minutes and seconds below 60 (the
   hours of a negative duration are negative).
   */
  function ClockOf(seconds: real): (c: Clock)
    ensures 3600 * c.hours + 60 * c.minutes + c.secs == seconds.Floor
    ensures 0 <= c.minutes < 60 && 0 <= c.secs < 60
    ensures seconds >= 0.0 ==> c.hours >= 0
  {
    var c := Clock(FloorDiv(seconds, 3600.0), FloorDiv(FloorMod(seconds, 3600.0), 60.0), Trunc(FloorMod(seconds, 60.0)));
    FloorDiv3600(seconds);
    FloorDiv60(FloorMod(seconds, 3600.0));
    FloorDiv60(seconds);
    Sexagesimal(seconds.Floor);
    c
  }

  /** The pieces of the rendering: hours and minutes only when positive, seconds always. */
  function DurationParts(seconds: real): (parts: seq<string>)
    ensures 1 <= |parts| <= 3
  {
    var c := ClockOf(seconds);
    (if c.hours > 0 then [NatToString(c.hours) + "h"] else [])
    + (if c.minutes > 0 then [NatToString(c.minutes) + "m"] else [])
    + [NatToString(c.secs) + "s"]
  }

  /** `format_duration`: the parts joined by single spaces. */
  function FormatDuration(seconds: real): (r: string)
    ensures 'h' in r <==> ClockOf(seconds).hours > 0
    ensures 'm' in r <==> ClockOf(seconds).minutes > 0
    ensures EndsWith(r, NatToString(ClockOf(seconds).secs) + "s")
  {
    var c := ClockOf(seconds);
    var parts := DurationParts(seconds);
    var r := Join(" ", parts);
    RenderedParts(c, parts);
    r
  }

  /** A rendered amount: decimal digits, then its unit letter. */
  predicate Amount(p: string, unit: char) {
    |p| >= 2 && p[|p| - 1] == unit && AllDigits(p[..|p| - 1])
  }

  lemma AmountOf(n: nat, unit: char)
    requires !IsDigit(unit)
    ensures Amount(NatToString(n) + [unit], unit)
    ensures var p := NatToString(n) + [unit];
      ('h' in p <==> unit == 'h') && ('m' in p <==> unit == 'm') && (' ' in p <==> unit == ' ')
  {
    var p := NatToString(n) + [unit];
    assert p[..|p| - 1] == NatToString(n);
    assert forall i | 0 <= i < |p| :: IsDigit(p[i]) || p[i] == unit;
    forall c | c == 'h' || c == 'm' || c == ' '
      ensures c in p <==> c == unit
    {
      if c in p {
        var i :| 0 <= i < |p| && p[i] == c;
      }
      assert p[|p| - 1] == unit;
    }
  }

  /** Minutes and seconds joined by a space: which unit letters the text holds, and that it ends with the seconds. */
  lemma JoinedTail(m: string, s: string, withM: bool, rest: seq<string>)
    requires 'h' !in m && 'h' !in s
    requires 'm' in m && 'm' !in s
    requires rest == (if withM then [m] else []) + [s]
    ensures 'h' !in Join(" ", rest) && ('m' in Join(" ", rest) <==> withM) && EndsWith(Join(" ", rest), s)
  {
    var t := Join(" ", rest);
    if withM {
      JoinCons(" ", m, [s]);
      assert rest == [m] + [s];
      assert t == m + " " + s;
    } else {
      assert rest == [s];
    }
    assert t[|t| - |s|..] == s;
  }

  /** All parts joined by spaces: which unit letters the text holds, and that it ends with the seconds. */
  lemma JoinedUnits(h: string, m: string, s: string, withH: bool, withM: bool, rest: seq<string>, parts: seq<string>)
    requires 'h' in h && 'h' !in m && 'h' !in s
    requires 'm' in m && 'm' !in h && 'm' !in s
    requires rest == (if withM then [m] else []) + [s]
    requires parts == (if withH then [h] else []) + rest
    ensures 'h' in Join(" ", parts) <==> withH
    ensures 'm' in Join(" ", parts) <==> withM
    ensures EndsWith(Join(" ", parts), s)
  {
    JoinedTail(m, s, withM, rest);
    if withH {
      assert parts == [h] + rest;
      HoursFirst(h, rest, s);
    } else {
      assert parts == rest;
    }
  }

  /** Putting the hours in front keeps the ending and adds only the `h`. */
  lemma HoursFirst(h: string, rest: seq<string>, s: string)
    requires 'h' in h && 'm' !in h && rest != []
    requires 'h' !in Join(" ", rest) && EndsWith(Join(" ", rest), s)
    ensures 'h' in Join(" ", [h] + rest)
    ensures 'm' in Join(" ", [h] + rest) <==> 'm' in Join(" ", rest)
    ensures EndsWith(Join(" ", [h] + rest), s)
  {
    var t := Join(" ", rest);
    JoinCons(" ", h, rest);
    var j := h + " " + t;
    assert j[|j| - |s|..] == t[|t| - |s|..];
  }

  /** Which letters appear in the joined parts, and how the text ends. */
  lemma RenderedParts(c: Clock, parts: seq<string>)
    requires 0 <= c.minutes && 0 <= c.secs
    requires parts ==
      (if c.hours > 0 then [NatToString(c.hours) + "h"] else [])
      + (if c.minutes > 0 then [NatToString(c.minutes) + "m"] else [])
      + [NatToString(c.secs) + "s"]
    ensures 'h' in Join(" ", parts) <==> c.hours > 0
    ensures 'm' in Join(" ", parts) <==> c.minutes > 0
    ensures EndsWith(Join(" ", parts), NatToString(c.secs) + "s")
  {
    var h := if c.hours > 0 then c.hours else 0;
    AmountOf(h, 'h');
    AmountOf(c.minutes, 'm');
    AmountOf(c.secs, 's');
    var hs, ms, ss := NatToString(h) + "h", NatToString(c.minutes) + "m", NatToString(c.secs) + "s";
    var rest := (if c.minutes > 0 then [ms] else []) + [ss];
    assert parts == (if c.hours > 0 then [hs] else []) + rest;
    JoinedUnits(hs, ms, ss, c.hours > 0, c.minutes > 0, rest, parts);
  }

  // ---------------------------------------------------------------------------
  // Reading a duration back
  // ---------------------------------------------------------------------------

  /** The seconds one rendered part stands for. */
  function PartSeconds(p: string): Option<int> {
    if Amount(p, 'h') then Some(3600 * DigitsValue(p[..|p| - 1]))
    else if Amount(p, 'm') then Some(60 * DigitsValue(p[..|p| - 1]))
    else if Amount(p, 's') then Some(DigitsValue(p[..|p| - 1]))
    else None
  }

  function SumParts(parts: seq<string>): Option<int> {
    if parts == [] then Some(0)
    else
      var a := PartSeconds(parts[0]);
      var b := SumParts(parts[1..]);
      if a.Some? && b.Some? then Some(a.value + b.value) else None
  }

  lemma SumCons(p: string, rest: seq<string>, a: int, b: int)
    requires PartSeconds(p) == Some(a) && SumParts(rest) == Some(b)
    ensures SumParts([p] + rest) == Some(a + b)
  {
    assert ([p] + rest)[1..] == rest;
  }

  /** Reading a rendering such as `1h 2m 3s` back into a number of seconds. */
  function ParseDuration(text: string): Option<int> {
    SumParts(Split(text, " "))
  }

  lemma PartOf(n: nat, unit: char)
    requires unit in "hms"
    ensures PartSeconds(NatToString(n) + [unit]) == Some((if unit == 'h' then 3600 else if unit == 'm' then 60 else 1) * n)
    ensures ' ' !in NatToString(n) + [unit]
  {
    var p := NatToString(n) + [unit];
    AmountOf(n, unit);
    assert p[..|p| - 1] == NatToString(n);
    DigitsOfNat(n);
  }

  /** Adding up the minutes and seconds parts. */
  lemma SumTail(m: string, s: string, withM: bool, mv: int, sv: int)
    requires PartSeconds(m) == Some(mv) && PartSeconds(s) == Some(sv)
    ensures SumParts((if withM then [m] else []) + [s]) == Some((if withM then mv else 0) + sv)
  {
    SumCons(s, [], sv, 0);
    assert [s] + [] == [s];
    if withM {
      SumCons(m, [s], mv, sv);
    } else {
      assert [] + [s] == [s];
    }
  }

  /** Adding up the parts of a joined rendering. */
  lemma SumOfParts(h: string, m: string, s: string, withH: bool, withM: bool, hv: int, mv: int, sv: int, parts: seq<string>)
    requires PartSeconds(h) == Some(hv) && PartSeconds(m) == Some(mv) && PartSeconds(s) == Some(sv)
    requires parts == (if withH then [h] else []) + (if withM then [m] else []) + [s]
    ensures SumParts(parts) == Some((if withH then hv else 0) + (if withM then mv else 0) + sv)
  {
    var ms := (if withM then [m] else []) + [s];
    SumTail(m, s, withM, mv, sv);
    if withH {
      assert parts == [h] + ms;
      SumCons(h, ms, hv, (if withM then mv else 0) + sv);
    } else {
      assert parts == ms;
    }
  }

  lemma SpacelessParts(h: string, m: string, s: string, withH: bool, withM: bool, parts: seq<string>)
    requires ' ' !in h && ' ' !in m && ' ' !in s
    requires parts == (if withH then [h] else []) + (if withM then [m] else []) + [s]
    ensures forall i | 0 <= i < |parts| :: ' ' !in parts[i]
  {
    forall i | 0 <= i < |parts| ensures ' ' !in parts[i] {
      assert parts[i] in parts;
    }
  }

  lemma SumJoined(h: string, m: string, s: string, withH: bool, withM: bool, hv: int, mv: int, sv: int, parts: seq<string>, total: int)
    requires PartSeconds(h) == Some(hv) && PartSeconds(m) == Some(mv) && PartSeconds(s) == Some(sv)
    requires ' ' !in h && ' ' !in m && ' ' !in s
    requires parts == (if withH then [h] else []) + (if withM then [m] else []) + [s]
    requires total == (if withH then hv else 0) + (if withM then mv else 0) + sv
    ensures ParseDuration(Join(" ", parts)) == Some(total)
  {
    SumOfParts(h, m, s, withH, withM, hv, mv, sv, parts);
    SpacelessParts(h, m, s, withH, withM, parts);
    SplitJoin(parts, ' ');
  }

  /** A non-negative duration reads back as its whole number of seconds: no part that carries time is dropped. */
  lemma DurationRoundTrip(seconds: real)
    requires seconds >= 0.0
    ensures ParseDuration(FormatDuration(seconds)) == Some(seconds.Floor)
  {
    var c := ClockOf(seconds);
    PartOf(c.hours, 'h');
    PartOf(c.minutes, 'm');
    PartOf(c.secs, 's');
    var h, m, s := NatToString(c.hours) + "h", NatToString(c.minutes) + "m", NatToString(c.secs) + "s";
    var parts := (if c.hours > 0 then [h] else []) + (if c.minutes > 0 then [m] else []) + [s];
    var total := (if c.hours > 0 then 3600 * c.hours else 0) + (if c.minutes > 0 then 60 * c.minutes else 0) + c.secs;
    SumJoined(h, m, s, c.hours > 0, c.minutes > 0, 3600 * c.hours, 60 * c.minutes, c.secs, parts, total);
    assert total == seconds.Floor;
    assert DurationParts(seconds) == parts;
    assert FormatDuration(seconds) == Join(" ", parts);
  }

  // ---------------------------------------------------------------------------
  // The state of card 1
  // ---------------------------------------------------------------------------

  /** The end of the run of whitespace that starts at `i`. */
  function Spaces(s: string, i: nat): (e: nat)
    requires i <= |s|
    ensures i <= e <= |s|
    ensures forall k | i <= k < e :: IsSpace(s[k])
    ensures e == |s| || !IsSpace(s[e])
    decreases |s| - i
  {
    if i == |s| || !IsSpace(s[i]) then i else Spaces(s, i + 1)
  }

  /** The end of the run of word characters (`\w`) that starts at `i`. */
  function Word(s: string, i: nat): (e: nat)
    requires i <= |s|
    ensures i <= e <= |s|
    ensures forall k | i <= k < e :: IsWordChar(s[k])
    ensures e == |s| || !IsWordChar(s[e])
    decreases |s| - i
  {
    if i == |s| || !IsWordChar(s[i]) then i else Word(s, i + 1)
  }

  /** Where `^` may match under `re.MULTILINE`: the start of the text or just after a newline. */
  predicate LineStart(s: string, p: nat) {
    p <= |s| && (p == 0 || s[p - 1] == '\n')
  }

  /**
   The match of `^1\s+\S+\s+(\w+)\s+(\w+)` at position `p`, as the pair of
   captured words. Every quantified piece must take its whole run: a shorter
   `\s+` or `\S+` would leave a character the next piece cannot start with,
   and a shorter first `\w+` would leave a word character where `\s+` must
   follow, so the match at a position is unique when it exists. The second
   `\w+` takes the leading word characters of the fourth field.
   */
  function MatchAt(s: string, p: nat): (m: Option<(string, string)>)
    requires LineStart(s, p)
    ensures m.Some? ==> m.value.0 != [] && m.value.1 != []
  {
    if p == |s| || s[p] != '1' then None
    else
      var a := Spaces(s, p + 1);
      if a == p + 1 || a == |s| then None
      else
        var b := TokenEnd(s, a);
        var c := Spaces(s, b);
        if c == b || c == |s| then None
        else
          var d := Word(s, c);
          if d == c || d == |s| || !IsSpace(s[d]) then None
          else
            var e := Spaces(s, d);
            var f := Word(s, e);
            if f == e then None else Some((s[c..d], s[e..f]))
  }

  /** `re.search`: the first position, from `p` on, where the pattern matches. */
  function Search(s: string, p: nat): (r: Option<(string, string)>)
    requires p <= |s|
    ensures r.Some? <==> exists q | p <= q <= |s| :: LineStart(s, q) && MatchAt(s, q).Some?
    ensures r.Some? ==> r.value.0 != [] && r.value.1 != []
    decreases |s| - p
  {
    var here := if LineStart(s, p) then MatchAt(s, p) else None;
    if here.Some? then here
    else if p == |s| then None
    else Search(s, p + 1)
  }

  /** `get_card_status` on the text of `show card 1`: the lowercased operational state, or None. */
  function CardStatus(output: string): (r: Option<string>)
    ensures r.Some? <==> exists q | 0 <= q <= |output| :: LineStart(output, q) && MatchAt(output, q).Some?
    ensures r.Some? ==> r.value != [] && forall i | 0 <= i < |r.value| :: !IsUpperLetter(r.value[i])
  {
    var m := Search(output, 0);
    if m.None? then None
    else
      var oper := m.value.1;
      LowerNoUpper(oper);
      Some(Lower(oper))
  }

  lemma LowerNoUpper(s: string)
    ensures forall i | 0 <= i < |Lower(s)| :: !IsUpperLetter(Lower(s)[i])
  {
  }

  /** A row of the card table as a router prints it. */
  function CardRow(cardType: string, admin: string, oper: string, gap: string, rest: string): string {
    "1" + (gap + (cardType + (gap + (admin + (gap + (oper + rest))))))
  }

  predicate AllSpace(x: string) {
    forall i | 0 <= i < |x| :: IsSpace(x[i])
  }

  predicate AllWord(x: string) {
    forall i | 0 <= i < |x| :: IsWordChar(x[i])
  }

  /**
   Under text with no line starting with `1`, a well-formed card-1 row yields
   its operational state, lowercased; whatever follows the state (a `/`, a
   space and more columns, the next line) is ignored.
   */
  lemma CardRowStatus(before: string, cardType: string, admin: string, oper: string, gap: string, rest: string)
    requires before == [] || before[|before| - 1] == '\n'
    requires forall q | 0 <= q < |before| :: LineStart(before, q) ==> before[q] != '1'
    requires cardType != [] && NoSpace(cardType)
    requires gap != [] && AllSpace(gap)
    requires admin != [] && AllWord(admin)
    requires oper != [] && AllWord(oper)
    requires rest == [] || !IsWordChar(rest[0])
    ensures CardStatus(before + CardRow(cardType, admin, oper, gap, rest)) == Some(Lower(oper))
  {
    var row := CardRow(cardType, admin, oper, gap, rest);
    var s := before + row;
    var p := |before|;
    SearchSkips(s, before, 0);
    RowMatch(s, p, cardType, admin, oper, gap, rest);
  }

  /** No position inside `before` starts a match. */
  lemma {:induction false} SearchSkips(s: string, before: string, p: nat)
    requires p <= |before| <= |s| && s[..|before|] == before
    requires before == [] || before[|before| - 1] == '\n'
    requires forall q | 0 <= q < |before| :: LineStart(before, q) ==> before[q] != '1'
    ensures Search(s, p) == Search(s, |before|)
    decreases |before| - p
  {
    if p < |before| {
      if LineStart(s, p) {
        assert s[p] == before[p];
        if p > 0 {
          assert s[p - 1] == before[p - 1];
        }
        assert LineStart(before, p);
      }
      SearchSkips(s, before, p + 1);
    }
  }

  /** The row itself matches at its first character. */
  lemma RowMatch(s: string, p: nat, cardType: string, admin: string, oper: string, gap: string, rest: string)
    requires p <= |s| && s[p..] == CardRow(cardType, admin, oper, gap, rest)
    requires p == 0 || s[p - 1] == '\n'
    requires cardType != [] && NoSpace(cardType)
    requires gap != [] && AllSpace(gap)
    requires admin != [] && AllWord(admin)
    requires oper != [] && AllWord(oper)
    requires rest == [] || !IsWordChar(rest[0])
    ensures Search(s, p) == Some((admin, oper))
  {
    var g := |gap|;
    var a := p + 1 + g;
    var b := a + |cardType|;
    var c := b + g;
    var d := c + |admin|;
    var e := d + g;
    var f := e + |oper|;
    RowPieces(s, p, cardType, admin, oper, gap, rest, a, b, c, d, e, f);
    SlotRuns(s, p, cardType, gap, admin[0], a, b, c);
    StateRuns(s, c, admin, oper, gap, rest, d, e, f);
    MatchFrom(s, p, a, b, c, d, e, f);
  }

  /** The runs up to the admin state: the gap after `1`, the card type and the next gap. */
  lemma SlotRuns(s: string, p: nat, cardType: string, gap: string, next: char, a: nat, b: nat, c: nat)
    requires cardType != [] && NoSpace(cardType) && gap != [] && AllSpace(gap) && IsWordChar(next)
    requires a == p + 1 + |gap| && b == a + |cardType| && c == b + |gap| && c < |s|
    requires s[p + 1..a] == gap && s[a..b] == cardType && s[b..c] == gap && s[c] == next
    ensures Spaces(s, p + 1) == a && !IsSpace(s[a]) && TokenEnd(s, a) == b && Spaces(s, b) == c
  {
    assert s[a] == s[a..b][0];
    assert s[b] == s[b..c][0];
    FieldEnds(s, p + 1, gap, cardType[0]);
    TokenOver(s, a, cardType, gap[0]);
    FieldEnds(s, b, gap, next);
  }

  /** The runs from the admin state on: the admin word, the gap and the operational word. */
  lemma StateRuns(s: string, c: nat, admin: string, oper: string, gap: string, rest: string, d: nat, e: nat, f: nat)
    requires admin != [] && AllWord(admin) && oper != [] && AllWord(oper) && gap != [] && AllSpace(gap)
    requires rest == [] || !IsWordChar(rest[0])
    requires d == c + |admin| && e == d + |gap| && f == e + |oper| && f <= |s|
    requires s[c..d] == admin && s[d..e] == gap && s[e..f] == oper && s[f..] == rest
    ensures Word(s, c) == d && IsSpace(s[d]) && Spaces(s, d) == e && Word(s, e) == f
    ensures s[c..d] == admin && s[e..f] == oper
  {
    assert s[d] == s[d..e][0];
    assert s[e] == s[e..f][0];
    WordOver(s, c, admin, gap[0]);
    FieldEnds(s, d, gap, oper[0]);
    WordEnds(s, e, oper, rest);
  }

  /** The match read off the ends of the runs. */
  lemma MatchFrom(s: string, p: nat, a: nat, b: nat, c: nat, d: nat, e: nat, f: nat)
    requires LineStart(s, p) && p < |s| && s[p] == '1'
    requires p + 1 < a < |s| && Spaces(s, p + 1) == a
    requires !IsSpace(s[a]) && TokenEnd(s, a) == b
    requires b < c < |s| && Spaces(s, b) == c
    requires c < d < |s| && Word(s, c) == d && IsSpace(s[d])
    requires d <= e <= |s| && Spaces(s, d) == e
    requires e < f && Word(s, e) == f
    ensures Search(s, p) == Some((s[c..d], s[e..f]))
  {
  }

  /** Where each piece of the row sits in `s`. */
  lemma RowPieces(s: string, p: nat, cardType: string, admin: string, oper: string, gap: string, rest: string,
                   a: nat, b: nat, c: nat, d: nat, e: nat, f: nat)
    requires p <= |s| && s[p..] == CardRow(cardType, admin, oper, gap, rest)
    requires a == p + 1 + |gap| && b == a + |cardType| && c == b + |gap|
    requires d == c + |admin| && e == d + |gap| && f == e + |oper|
    ensures f <= |s| && s[p] == '1' && s[p + 1..a] == gap && s[a..b] == cardType && s[b..c] == gap
    ensures s[c..d] == admin && s[d..e] == gap && s[e..f] == oper && s[f..] == rest
  {
    var t6 := oper + rest;
    var t5 := gap + t6;
    var t4 := admin + t5;
    var t3 := gap + t4;
    var t2 := cardType + t3;
    var t1 := gap + t2;
    Peel(s, p, "1", t1);
    assert s[p] == s[p..p + 1][0];
    Peel(s, p + 1, gap, t2);
    Peel(s, p + 1 + |gap|, cardType, t3);
    Peel(s, p + 1 + |gap| + |cardType|, gap, t4);
    Peel(s, p + 1 + |gap| + |cardType| + |gap|, admin, t5);
    Peel(s, p + 1 + |gap| + |cardType| + |gap| + |admin|, gap, t6);
    Peel(s, p + 1 + |gap| + |cardType| + |gap| + |admin| + |gap|, oper, rest);
  }

  /** Splitting a known suffix of `s` into its first piece and the rest. */
  lemma Peel(s: string, q: nat, x: string, t: string)
    requires q <= |s| && s[q..] == x + t
    ensures q + |x| <= |s| && s[q..q + |x|] == x && s[q + |x|..] == t
  {
    assert s[q..q + |x|] == s[q..][..|x|];
    assert s[q + |x|..] == s[q..][|x|..];
  }

  /** A gap of whitespace followed by a field that starts with `next`. */
  lemma FieldEnds(s: string, i: nat, x: string, next: char)
    requires i + |x| < |s| && s[i..i + |x|] == x && s[i + |x|] == next
    requires AllSpace(x) && (IsWordChar(next) || !IsSpace(next))
    ensures Spaces(s, i) == i + |x|
    ensures !IsSpace(s[i + |x|])
  {
    assert forall k | i <= k < i + |x| :: s[k] == x[k - i];
    SpacesStop(s, i, i + |x|);
  }

  /** A non-space field followed by whitespace. */
  lemma TokenOver(s: string, i: nat, x: string, next: char)
    requires x != [] && i + |x| < |s| && s[i..i + |x|] == x && s[i + |x|] == next
    requires NoSpace(x) && IsSpace(next)
    ensures TokenEnd(s, i) == i + |x|
  {
    TokenStops(s, i, i + |x|);
  }

  /** A word followed by a character that is not a word character. */
  lemma WordOver(s: string, i: nat, x: string, next: char)
    requires i + |x| < |s| && s[i..i + |x|] == x && s[i + |x|] == next
    requires AllWord(x) && IsSpace(next)
    ensures Word(s, i) == i + |x|
  {
    assert forall k | i <= k < i + |x| :: s[k] == x[k - i];
    WordStops(s, i, i + |x|);
  }

  /** A word followed by the rest of the text, which does not start with a word character. */
  lemma WordEnds(s: string, i: nat, x: string, rest: string)
    requires i + |x| <= |s| && s[i..i + |x|] == x && s[i + |x|..] == rest
    requires AllWord(x) && (rest == [] || !IsWordChar(rest[0]))
    ensures Word(s, i) == i + |x|
  {
    assert forall k | i <= k < i + |x| :: s[k] == x[k - i];
    if i + |x| < |s| {
      assert s[i + |x|] == rest[0];
    }
    WordStops(s, i, i + |x|);
  }

  /** A run of whitespace ending at a non-space (or at the end) is what `Spaces` finds. */
  lemma {:induction false} SpacesStop(s: string, i: nat, e: nat)
    requires i <= e <= |s|
    requires forall k | i <= k < e :: IsSpace(s[k])
    requires e == |s| || !IsSpace(s[e])
    ensures Spaces(s, i) == e
    decreases e - i
  {
    if i < e {
      SpacesStop(s, i + 1, e);
    }
  }

  lemma {:induction false} WordStops(s: string, i: nat, e: nat)
    requires i <= e <= |s|
    requires forall k | i <= k < e :: IsWordChar(s[k])
    requires e == |s| || !IsWordChar(s[e])
    ensures Word(s, i) == e
    decreases e - i
  {
    if i < e {
      WordStops(s, i + 1, e);
    }
  }

  lemma {:induction false} TokenStops(s: string, a: nat, b: nat)
    requires a < b <= |s| && NoSpace(s[a..b])
    requires b == |s| || IsSpace(s[b])
    ensures TokenEnd(s, a) == b
    decreases b - a
  {
    assert !IsSpace(s[a..b][0]);
    if a + 1 < b {
      assert s[a + 1..b] == s[a..b][1..];
      TokenStops(s, a + 1, b);
    }
  }
}
