/**
 The LLDP neighbour parser of `scripts/6.get_lldp_info_live_status_nso.py`:
 the CLI output of `show system lldp neighbor` is cut into lines, each
 stripped line is matched against a six-group pattern, and the matches become
 neighbour records, which are then rendered per device.

 The pattern is

   (\S+)\s+(\S+)\s+([0-9A-F:]+)\s+(\d+)\s+(.+?)\s+(\S+)\s*$

 applied at the start of the stripped line. `MatchLine` is a direct matcher
 for it; `Shape` is the pattern read declaratively (the line is the groups
 joined by non-empty whitespace runs), and `MatchSound` / `MatchComplete`
 connect the two.
 */
module Lldp {
  import opened Json
  import opened Text

  // ===========================================================================
  // Runs of characters
  // ===========================================================================

  predicate All(s: string, p: char -> bool) {
    forall i | 0 <= i < |s| :: p(s[i])
  }

  predicate NotSpace(c: char) {
    !IsSpace(c)
  }

  /** The longest prefix of `s` whose characters satisfy `p`, and the rest. */
  function Span(s: string, p: char -> bool): (r: (string, string))
    ensures r.0 + r.1 == s && All(r.0, p) && (r.1 == [] || !p(r.1[0]))
  {
    if s == [] || !p(s[0]) then ([], s)
    else
      var t := Span(s[1..], p);
      AllCons(s[0], t.0, p);
      assert s == [s[0]] + s[1..];
      ([s[0]] + t.0, t.1)
  }

  /** The longest suffix of `s` whose characters satisfy `p`, and what precedes it. */
  function SpanBack(s: string, p: char -> bool): (r: (string, string))
    ensures r.0 + r.1 == s && All(r.1, p) && (r.0 == [] || !p(r.0[|r.0| - 1]))
  {
    if s == [] || !p(s[|s| - 1]) then (s, [])
    else
      var t := SpanBack(s[..|s| - 1], p);
      AllSnoc(t.1, s[|s| - 1], p);
      assert s == s[..|s| - 1] + [s[|s| - 1]];
      (t.0, t.1 + [s[|s| - 1]])
  }

  lemma AllCons(c: char, t: string, p: char -> bool)
    requires p(c) && All(t, p)
    ensures All([c] + t, p)
  {
    var h := [c] + t;
    assert forall i | 1 <= i < |h| :: h[i] == t[i - 1];
  }

  lemma AllSnoc(t: string, c: char, p: char -> bool)
    requires p(c) && All(t, p)
    ensures All(t + [c], p)
  {
    var h := t + [c];
    assert forall i | 0 <= i < |t| :: h[i] == t[i];
  }

  /** Any split with a maximal `p`-prefix is the one `Span` finds. */
  lemma SpanOf(x: string, y: string, p: char -> bool)
    requires All(x, p) && (y == [] || !p(y[0]))
    ensures Span(x + y, p) == (x, y)
  {
    var r := Span(x + y, p);
    var s := x + y;
    assert r.0 == s[..|r.0|] && x == s[..|x|];
  }

  /** Any split with a maximal `p`-suffix is the one `SpanBack` finds. */
  lemma SpanBackOf(x: string, y: string, p: char -> bool)
    requires All(y, p) && (x == [] || !p(x[|x| - 1]))
    ensures SpanBack(x + y, p) == (x, y)
  {
    var r := SpanBack(x + y, p);
    var s := x + y;
    assert r.0 == s[..|r.0|] && x == s[..|x|];
  }

  // ===========================================================================
  // The line pattern
  // ===========================================================================

  /** A character of group 3: `[0-9A-F:]`. */
  predicate IsChassisChar(c: char) {
    IsDigit(c) || 'A' <= c <= 'F' || c == ':'
  }

  /** The six groups of a match and the whitespace runs between them, in line order. */
  datatype Parts = Parts(g1: string, s1: string, g2: string, s2: string, g3: string, s3: string,
                         g4: string, s4: string, g5: string, s5: string, g6: string)

  /** The line a reading describes: the groups and runs in order. */
  function Joined(p: Parts): string {
    p.g1 + (p.s1 + (p.g2 + (p.s2 + (p.g3 + (p.s3 + (p.g4 + TailText(p)))))))
  }

  /** The part of the line after group 4. */
  function TailText(p: Parts): string {
    p.s4 + p.g5 + p.s5 + p.g6
  }

  predicate Run(s: string) {
    s != [] && All(s, IsSpace)
  }

  predicate Token(s: string) {
    s != [] && All(s, NotSpace)
  }

  /**
   What each group admits: non-space runs for 1, 2 and 6, chassis characters
   for 3, ASCII digits for 4, and anything but a newline (regex `.`) for 5.
   */
  predicate Shape(p: Parts) {
    Token(p.g1) && Run(p.s1) && Token(p.g2) && Run(p.s2) &&
    p.g3 != [] && All(p.g3, IsChassisChar) && Run(p.s3) &&
    p.g4 != [] && All(p.g4, IsDigit) && Run(p.s4) &&
    p.g5 != [] && '\n' !in p.g5 && Run(p.s5) && Token(p.g6)
  }

  /**
   The last position `j` in `[1, hi]` whose character is not a newline: where
   group 5 sits when the groups after the digits share one whitespace run.
   */
  function LastNonNewline(w: string, hi: int): (r: Option<nat>)
    requires hi < |w|
    ensures r.Some? ==> 1 <= r.value <= hi && w[r.value] != '\n'
    ensures r.Some? ==> forall j | r.value < j <= hi :: w[j] == '\n'
    ensures r.None? ==> forall j | 1 <= j <= hi :: w[j] == '\n'
    decreases hi
  {
    if hi < 1 then None
    else if w[hi] != '\n' then Some(hi)
    else LastNonNewline(w, hi - 1)
  }

  /** A split of the text after group 4 into its separator, group 5, separator and group 6. */
  predicate TailShape(t: (string, string, string, string)) {
    Run(t.0) && t.1 != [] && '\n' !in t.1 && Run(t.2) && Token(t.3)
  }

  /**
   Groups 5 and 6 and their separators, on the text after group 4 (which has
   no trailing whitespace). The lazy group 5 stops before the last whitespace
   run: it is the middle section with its ends trimmed.
   */
  function Tail(rest: string): (r: Option<(string, string, string, string)>)
    ensures r.Some? ==> TailShape(r.value) && r.value.0 + r.value.1 + r.value.2 + r.value.3 == rest
  {
    var (w, r) := Span(rest, IsSpace);
    if w == [] then None else LastWord(w, r)
  }

  function LastWord(w: string, r: string): (t: Option<(string, string, string, string)>)
    requires Run(w) && (r == [] || !IsSpace(r[0]))
    ensures t.Some? ==> TailShape(t.value) && t.value.0 + t.value.1 + t.value.2 + t.value.3 == w + r
  {
    var (m, g6) := SpanBack(r, NotSpace);
    if g6 == [] then None
    else
      NoMiddle(r, m, g6);
      Middle(w, m, g6)
  }

  function Middle(w: string, m: string, g6: string): (t: Option<(string, string, string, string)>)
    requires Run(w) && Token(g6) && (m == [] || (!IsSpace(m[0]) && IsSpace(m[|m| - 1])))
    ensures t.Some? ==> TailShape(t.value) && t.value.0 + t.value.1 + t.value.2 + t.value.3 == w + m + g6
  {
    var (mid, v) := SpanBack(m, IsSpace);
    if mid != [] then
      MiddleRun(m, mid, v);
      if '\n' in mid then None else Some((w, mid, v, g6))
    else
      // `m` starts with a non-space, so it cannot be all whitespace unless empty
      if m == [] then Single(w, g6) else None
  }

  /**
   When nothing but whitespace separates group 4 from the last word, group 5
   is one whitespace character of that run: the last one, other than a
   newline, that leaves a character on each side.
   */
  function Single(w: string, g6: string): (t: Option<(string, string, string, string)>)
    requires Run(w) && Token(g6)
    ensures t.Some? ==> TailShape(t.value) && t.value.0 + t.value.1 + t.value.2 + t.value.3 == w + g6
  {
    match LastNonNewline(w, |w| - 2)
    case None => None
    case Some(j) =>
      OneRun(w, j);
      Some((w[..j], [w[j]], w[j + 1..], g6))
  }

  /** Groups 1 to 4 with their separators, and the text after group 4. */
  datatype Lead = Lead(g1: string, s1: string, g2: string, s2: string, g3: string, s3: string, g4: string, rest: string)

  predicate LeadShape(h: Lead) {
    Token(h.g1) && Run(h.s1) && Token(h.g2) && Run(h.s2) && h.g3 != [] && All(h.g3, IsChassisChar) && Run(h.s3) &&
    h.g4 != [] && All(h.g4, IsDigit)
  }

  function LeadJoined(h: Lead): string {
    h.g1 + (h.s1 + (h.g2 + (h.s2 + (h.g3 + (h.s3 + (h.g4 + h.rest))))))
  }

  /** Groups 1 to 4: each group is a whole whitespace-separated field, so each is the maximal run it can be. */
  function LeadOf(line: string): (r: Option<Lead>)
    ensures r.Some? ==> LeadShape(r.value) && LeadJoined(r.value) == line
    ensures r.Some? ==> r.value.rest == [] || IsSpace(r.value.rest[0])
  {
    var (g1, r1) := Span(line, NotSpace);
    var (s1, r2) := Span(r1, IsSpace);
    var (g2, r3) := Span(r2, NotSpace);
    var (s2, r4) := Span(r3, IsSpace);
    var (g3, r5) := Span(r4, NotSpace);
    var (s3, r6) := Span(r5, IsSpace);
    var (g4, r7) := Span(r6, NotSpace);
    if g1 == [] || s1 == [] || g2 == [] || s2 == [] || g3 == [] || !All(g3, IsChassisChar) || s3 == [] ||
       g4 == [] || !All(g4, IsDigit)
    then None
    else
      Some(Lead(g1, s1, g2, s2, g3, s3, g4, r7))
  }

  function PartsOf(h: Lead, t: (string, string, string, string)): Parts {
    Parts(h.g1, h.s1, h.g2, h.s2, h.g3, h.s3, h.g4, t.0, t.1, t.2, t.3)
  }

  /** The pattern matched at the start of a line (the line has been stripped, so `\s*$` matches nothing). */
  function MatchLine(line: string): (r: Option<Parts>)
    ensures r.Some? ==> r.value.g4 != [] && All(r.value.g4, IsDigit)
  {
    match LeadOf(line)
    case None => None
    case Some(h) =>
      match Tail(h.rest)
      case None => None
      case Some(t) => Some(PartsOf(h, t))
  }

  /** Every match the matcher reports is a reading of the line by the pattern. */
  lemma MatchSound(line: string)
    requires MatchLine(line).Some?
    ensures Shape(MatchLine(line).value) && Joined(MatchLine(line).value) == line
  {
    var h := LeadOf(line).value;
    var t := Tail(h.rest).value;
    var p := PartsOf(h, t);
    assert h.rest == t.0 + t.1 + t.2 + t.3;
    JoinedParts(h, t);
  }

  lemma JoinedParts(h: Lead, t: (string, string, string, string))
    requires h.rest == t.0 + t.1 + t.2 + t.3
    ensures Joined(PartsOf(h, t)) == LeadJoined(h)
  {
  }

  /**
   Every line the pattern can read is matched, with the same groups 1 to 4 and
   6; when group 5 of that reading starts with a non-space, the matcher's group
   5 is it with trailing whitespace trimmed (the lazy group stops as early as
   it can).
   */
  lemma MatchComplete(line: string, p: Parts)
    requires Shape(p) && Joined(p) == line
    ensures MatchLine(line).Some?
    ensures var q := MatchLine(line).value;
      q.g1 == p.g1 && q.g2 == p.g2 && q.g3 == p.g3 && q.g4 == p.g4 && q.g6 == p.g6
    ensures NotSpace(p.g5[0]) ==> MatchLine(line).value.g5 == SpanBack(p.g5, IsSpace).0
  {
    var rest := TailText(p);
    var h := LeadPart(p, rest);
    LeadComplete(line, h);
    TailComplete(rest, p.s4, p.g5, p.s5, p.g6);
    MatchOf(line, h, Tail(rest).value);
  }

  /** The reading's groups 1 to 4 and the text after them. */
  lemma LeadPart(p: Parts, rest: string) returns (h: Lead)
    requires Shape(p) && rest == TailText(p)
    ensures h == Lead(p.g1, p.s1, p.g2, p.s2, p.g3, p.s3, p.g4, rest)
    ensures LeadShape(h) && LeadJoined(h) == Joined(p) && h.rest != [] && IsSpace(h.rest[0])
  {
    h := Lead(p.g1, p.s1, p.g2, p.s2, p.g3, p.s3, p.g4, rest);
    assert h.rest[0] == p.s4[0];
  }

  lemma MatchOf(line: string, h: Lead, t: (string, string, string, string))
    requires LeadOf(line) == Some(h) && Tail(h.rest) == Some(t)
    ensures MatchLine(line) == Some(PartsOf(h, t))
  {
  }

  lemma LeadComplete(line: string, h: Lead)
    requires LeadShape(h) && LeadJoined(h) == line && h.rest != [] && IsSpace(h.rest[0])
    ensures LeadOf(line) == Some(h)
  {
    var x7 := h.g4 + h.rest;
    var x6 := h.s3 + x7;
    var x5 := h.g3 + x6;
    var x4 := h.s2 + x5;
    var x3 := h.g2 + x4;
    var x2 := h.s1 + x3;
    ChassisNoSpace(h.g3);
    DigitsNoSpace(h.g4);
    SpanOf(h.g1, x2, NotSpace);
    SpanOf(h.s1, x3, IsSpace);
    SpanOf(h.g2, x4, NotSpace);
    SpanOf(h.s2, x5, IsSpace);
    SpanOf(h.g3, x6, NotSpace);
    SpanOf(h.s3, x7, IsSpace);
    SpanOf(h.g4, h.rest, NotSpace);
  }

  lemma ChassisNoSpace(g: string)
    requires g != [] && All(g, IsChassisChar)
    ensures All(g, NotSpace)
  {
  }

  lemma DigitsNoSpace(g: string)
    requires g != [] && All(g, IsDigit)
    ensures All(g, NotSpace)
  {
  }

  /** When there is a middle section, a whitespace run separates it from the last word. */
  lemma MiddleRun(m: string, mid: string, v: string)
    requires m != [] && IsSpace(m[|m| - 1])
    requires mid + v == m && All(v, IsSpace) && (mid == [] || !IsSpace(mid[|mid| - 1]))
    requires mid != []
    ensures v != []
  {
  }

  /** Text that starts with a non-space ends, before its last word, with a space (if anything). */
  lemma NoMiddle(r: string, m: string, g6: string)
    requires r != [] && !IsSpace(r[0]) && m + g6 == r && (m == [] || !NotSpace(m[|m| - 1]))
    ensures m == [] || (!IsSpace(m[0]) && IsSpace(m[|m| - 1]))
  {
    if m != [] {
      assert m[0] == r[0];
    }
  }

  /** A whitespace run cut around position `j` gives three runs. */
  lemma OneRun(w: string, j: int)
    requires All(w, IsSpace) && 1 <= j <= |w| - 2
    ensures w == w[..j] + [w[j]] + w[j + 1..]
    ensures Run(w[..j]) && Run([w[j]]) && Run(w[j + 1..])
  {
    assert w == w[..j] + [w[j]] + w[j + 1..];
    forall i | 0 <= i < j ensures IsSpace(w[..j][i]) {
      assert w[..j][i] == w[i];
    }
  }

  /** Every split of the text after group 4 that fits the pattern is found; group 5 is then the trimmed middle. */
  lemma TailComplete(rest: string, s4: string, g5: string, s5: string, g6: string)
    requires rest == s4 + g5 + s5 + g6
    requires Run(s4) && g5 != [] && '\n' !in g5 && Run(s5) && Token(g6)
    ensures Tail(rest).Some? && Tail(rest).value.3 == g6
    ensures NotSpace(g5[0]) ==> Tail(rest).value.0 == s4 && Tail(rest).value.1 == SpanBack(g5, IsSpace).0
  {
    var sp := Span(g5, IsSpace);
    var a, b := sp.0, sp.1;
    if b != [] {
      var sb := SpanBack(b, IsSpace);
      TailWord(rest, s4, a, b, s5, g6, sb.0, sb.1);
      if NotSpace(g5[0]) {
        LeadingWord(g5);
      }
    } else {
      TailBlank(rest, s4, g5, s5, g6);
    }
  }

  lemma LeadingWord(g: string)
    requires g != [] && NotSpace(g[0])
    ensures Span(g, IsSpace) == ([], g)
  {
  }

  /** Group 5 holds a word: it is found, trimmed of whitespace on both ends. */
  lemma TailWord(rest: string, s4: string, a: string, b: string, s5: string, g6: string, c: string, d: string)
    requires rest == s4 + (a + b) + s5 + g6
    requires Run(s4) && All(a, IsSpace) && b != [] && !IsSpace(b[0]) && '\n' !in b && Run(s5) && Token(g6)
    requires c + d == b && All(d, IsSpace) && (c == [] || !IsSpace(c[|c| - 1]))
    ensures Tail(rest) == Some((s4 + a, c, d + s5, g6))
  {
    TrimmedWord(b, c, d);
    AllConcat(s4, a, IsSpace);
    AllConcat(d, s5, IsSpace);
    var w := s4 + a;
    var m := c + (d + s5);
    assert m[|m| - 1] == s5[|s5| - 1];
    assert m[0] == c[0];
    assert rest == w + (m + g6);
    TailAt(w, m + g6);
    LastWordAt(w, m, g6);
    MiddleAt(w, c, d + s5, g6);
  }

  /** A word with its trailing whitespace cut off is non-empty, starts and ends with a non-space, and keeps no newline. */
  lemma TrimmedWord(b: string, c: string, d: string)
    requires b != [] && !IsSpace(b[0]) && '\n' !in b
    requires c + d == b && All(d, IsSpace) && (c == [] || !IsSpace(c[|c| - 1]))
    ensures c != [] && !IsSpace(c[0]) && !IsSpace(c[|c| - 1]) && '\n' !in c
  {
    assert c[0] == b[0];
    assert forall i | 0 <= i < |c| :: c[i] == b[i];
  }

  lemma AllConcat(x: string, y: string, p: char -> bool)
    requires All(x, p) && All(y, p)
    ensures All(x + y, p)
  {
  }

  /** Group 5 is whitespace: the matcher still finds a split. */
  lemma TailBlank(rest: string, s4: string, g5: string, s5: string, g6: string)
    requires rest == s4 + g5 + s5 + g6
    requires Run(s4) && g5 != [] && All(g5, IsSpace) && '\n' !in g5 && Run(s5) && Token(g6)
    ensures Tail(rest).Some? && Tail(rest).value.3 == g6
  {
    var w := s4 + g5 + s5;
    assert rest == w + g6;
    assert Run(w);
    TailAt(w, g6);
    LastWordAt(w, [], g6);
    assert [] + g6 == g6;
    MiddleEmpty(w, g6);
    assert w[|s4|] == g5[0];
    SingleAt(w, g6, |s4|);
  }

  lemma TailAt(w: string, r: string)
    requires Run(w) && (r == [] || !IsSpace(r[0]))
    ensures Tail(w + r) == LastWord(w, r)
  {
    SpanOf(w, r, IsSpace);
  }

  lemma LastWordAt(w: string, m: string, g6: string)
    requires Run(w) && Token(g6) && (m == [] || (!IsSpace(m[0]) && IsSpace(m[|m| - 1])))
    ensures LastWord(w, m + g6) == Middle(w, m, g6)
  {
    SpanBackOf(m, g6, NotSpace);
  }

  lemma MiddleAt(w: string, c: string, d: string, g6: string)
    requires Run(w) && Token(g6) && c != [] && !IsSpace(c[0]) && !IsSpace(c[|c| - 1]) && Run(d)
    ensures Middle(w, c + d, g6) == if '\n' in c then None else Some((w, c, d, g6))
  {
    SpanBackOf(c, d, IsSpace);
  }

  lemma MiddleEmpty(w: string, g6: string)
    requires Run(w) && Token(g6)
    ensures Middle(w, [], g6) == Single(w, g6)
  {
    SpanBackOf([], [], IsSpace);
  }

  lemma SingleAt(w: string, g6: string, j: int)
    requires Run(w) && Token(g6) && 1 <= j <= |w| - 2 && w[j] != '\n'
    ensures Single(w, g6).Some?
  {
  }

  // ===========================================================================
  // Neighbours
  // ===========================================================================

  /** One LLDP neighbour as the parser reports it (`LLDPNeighbor`). */
  datatype Neighbor = Neighbor(localPort: string, scope: string, remoteChassisId: string, index: nat,
                               remotePort: string, remoteSystemName: string)

  /** The neighbour a match describes: group 4 read as a number, group 5 cut at its first comma. */
  function NeighborOf(p: Parts): Neighbor
    requires p.g4 != [] && All(p.g4, IsDigit)
  {
    Neighbor(p.g1, p.g2, p.g3, DigitsValue(p.g4), Split(p.g5, ",")[0], p.g6)
  }

  /** One line of CLI output: stripped, matched, and turned into a neighbour when it matches. */
  function ParseLine(line: string): (r: Option<Neighbor>)
    ensures r.Some? ==> Token(r.value.localPort) && Token(r.value.scope) && Token(r.value.remoteSystemName)
    ensures r.Some? ==> r.value.remoteChassisId != [] && All(r.value.remoteChassisId, IsChassisChar)
    ensures r.Some? ==> !Contains(r.value.remotePort, ",") && '\n' !in r.value.remotePort
  {
    var s := Strip(line);
    match MatchLine(s)
    case None => None
    case Some(p) =>
      MatchSound(s);
      PortPart(p.g5);
      Some(NeighborOf(p))
  }

  /** The text before the first comma of group 5 keeps group 5's lack of newlines. */
  lemma PortPart(g5: string)
    requires '\n' !in g5
    ensures '\n' !in Split(g5, ",")[0]
  {
    SplitBeforeAfter(g5, ",");
    var b := Before(g5, ",");
    assert b == g5[..|b|];
  }

  /** The values `f` gives on the elements it accepts, in order. */
  function Keep<A, B>(f: A -> Option<B>, xs: seq<A>): (r: seq<B>)
    ensures |r| <= |xs|
    ensures forall y | y in r :: exists x | x in xs :: f(x) == Some(y)
  {
    if xs == [] then []
    else
      var init := xs[..|xs| - 1];
      var last := xs[|xs| - 1];
      var prev := Keep(f, init);
      var r := match f(last) case None => prev case Some(y) => prev + [y];
      assert forall y | y in r :: exists x | x in xs :: f(x) == Some(y) by {
        forall y | y in r ensures exists x | x in xs :: f(x) == Some(y) {
          if y in prev {
            var x :| x in init && f(x) == Some(y);
            assert x in xs;
          } else {
            assert f(last) == Some(y);
            assert last in xs;
          }
        }
      }
      r
  }

  /** `Keep` distributes over concatenation: each element is judged on its own. */
  lemma {:induction false} KeepAppend<A, B>(f: A -> Option<B>, a: seq<A>, b: seq<A>)
    ensures Keep(f, a + b) == Keep(f, a) + Keep(f, b)
    decreases |b|
  {
    if b != [] {
      var n := |b| - 1;
      assert (a + b)[..|a + b| - 1] == a + b[..n];
      assert (a + b)[|a + b| - 1] == b[n];
      KeepAppend(f, a, b[..n]);
    } else {
      assert a + b == a;
    }
  }

  /** The matching lines, in order. */
  function ParseLines(lines: seq<string>): (r: seq<Neighbor>)
    ensures |r| <= |lines|
    ensures forall n | n in r :: exists l | l in lines :: ParseLine(l) == Some(n)
  {
    Keep(ParseLine, lines)
  }

  /** `LLDPParser.parse`: the output is cut at every CRLF. */
  function Parse(output: string): (r: seq<Neighbor>) {
    ParseLines(Split(output, "\r\n"))
  }

  /** Parsing distributes over concatenated line lists. */
  lemma ParseLinesAppend(a: seq<string>, b: seq<string>)
    ensures ParseLines(a + b) == ParseLines(a) + ParseLines(b)
  {
    KeepAppend(ParseLine, a, b);
  }

  /** A line the parser keeps is exactly one neighbour. */
  lemma ParseOne(line: string)
    ensures ParseLines([line]) == (match ParseLine(line) case None => [] case Some(n) => [n])
  {
    assert [line][..0] == [];
  }

  /** The first CRLF of `x + CRLF + y` is the one added when `x` has none. */
  lemma SplitAtCrlf(x: string, y: string)
    requires !Contains(x, "\r\n")
    ensures Split(x + "\r\n" + y, "\r\n") == [x] + Split(y, "\r\n")
  {
    var sep := "\r\n";
    var s := x + sep + y;
    assert OccursAt(s, sep, |x|);
    forall j | 0 <= j < |x| ensures !OccursAt(s, sep, j) {
      if j < |x| - 1 {
        assert s[j..j + 2] == x[j..j + 2];
        assert !OccursAt(x, sep, j);
      } else {
        assert s[j + 1] == '\r';
      }
    }
    assert IndexOf(s, sep) == Some(|x|);
    SplitFirst(s, sep);
    assert s[..|x|] == x;
    assert s[|x| + 2..] == y;
  }

  /** The output's first line is parsed on its own and the rest of the output independently. */
  lemma ParseFirstLine(x: string, y: string)
    requires !Contains(x, "\r\n")
    ensures Parse(x + "\r\n" + y) == ParseLines([x]) + Parse(y)
  {
    SplitAtCrlf(x, y);
    ParseLinesAppend([x], Split(y, "\r\n"));
  }

  // ---------------------------------------------------------------------------
  // A neighbour written out as a CLI line is read back
  // ---------------------------------------------------------------------------

  /**
   The line the router prints for a neighbour: fields joined by single
   spaces, with `extra` (the `, 100-*` remark) after the remote port.
   */
  function RenderParts(n: Neighbor, extra: string): Parts {
    Parts(n.localPort, " ", n.scope, " ", n.remoteChassisId, " ", NatToString(n.index), " ",
          n.remotePort + extra, " ", n.remoteSystemName)
  }

  function Render(n: Neighbor, extra: string): string {
    Joined(RenderParts(n, extra))
  }

  /** The fields a CLI line can carry without being misread. */
  predicate Printable(n: Neighbor, extra: string) {
    Token(n.localPort) && Token(n.scope) && n.remoteChassisId != [] && All(n.remoteChassisId, IsChassisChar) &&
    Token(n.remoteSystemName) &&
    n.remotePort != [] && NotSpace(n.remotePort[0]) && ',' !in n.remotePort && '\n' !in n.remotePort &&
    (if extra == [] then NotSpace(n.remotePort[|n.remotePort| - 1])
     else extra[0] == ',' && '\n' !in extra && NotSpace(extra[|extra| - 1]))
  }

  /** Reading a printed neighbour line gives the neighbour back, whatever remark follows the port. */
  lemma RenderParse(n: Neighbor, extra: string)
    requires Printable(n, extra)
    ensures ParseLine(Render(n, extra)) == Some(n)
  {
    var p := RenderParts(n, extra);
    var line := Render(n, extra);
    RenderShape(n, extra);
    StripFixed(line, p);
    var q := RenderMatch(line, p);
    DigitsOfNat(n.index);
    PortOf(n.remotePort, extra);
    assert NeighborOf(q) == n;
  }

  lemma RenderShape(n: Neighbor, extra: string)
    requires Printable(n, extra)
    ensures Shape(RenderParts(n, extra))
    ensures var g5 := RenderParts(n, extra).g5; NotSpace(g5[0]) && NotSpace(g5[|g5| - 1])
  {
    NatToStringDigits(n.index);
    var g5 := n.remotePort + extra;
    assert g5[0] == n.remotePort[0];
    if extra != [] {
      assert g5[|g5| - 1] == extra[|extra| - 1];
    } else {
      assert g5 == n.remotePort;
    }
  }

  lemma NatToStringDigits(i: nat)
    ensures NatToString(i) != [] && All(NatToString(i), IsDigit)
  {
  }

  /** A line the pattern reads with group 5 free of whitespace at both ends is matched with exactly those groups. */
  lemma RenderMatch(line: string, p: Parts) returns (q: Parts)
    requires Shape(p) && Joined(p) == line && NotSpace(p.g5[0]) && NotSpace(p.g5[|p.g5| - 1])
    ensures MatchLine(line) == Some(q)
    ensures q.g1 == p.g1 && q.g2 == p.g2 && q.g3 == p.g3 && q.g4 == p.g4 && q.g5 == p.g5 && q.g6 == p.g6
  {
    MatchComplete(line, p);
    SpanBackOf(p.g5, [], IsSpace);
    assert p.g5 + [] == p.g5;
    q := MatchLine(line).value;
  }

  /** Cutting the printed port and remark at the first comma gives the port back. */
  lemma PortOf(port: string, extra: string)
    requires ',' !in port && (extra == [] || extra[0] == ',')
    ensures Split(port + extra, ",")[0] == port
  {
    if extra == [] {
      SplitNoChar(port, ',');
      assert port + extra == port;
    } else {
      assert extra == [','] + extra[1..];
      assert port + extra == port + [','] + extra[1..];
      SplitAtChar(port, ',', extra[1..]);
    }
  }

  /** A line that starts and ends with a non-space is its own `strip()`. */
  lemma StripFixed(line: string, p: Parts)
    requires Shape(p) && Joined(p) == line
    ensures Strip(line) == line
  {
    assert line[0] == p.g1[0];
    assert line[|line| - 1] == p.g6[|p.g6| - 1];
  }

  /**
   A line with only whitespace between the index and the last word is still
   accepted: with a run of three spaces, group 5 is the middle space, so the
   neighbour's remote port is " " and its system name is the last word.
   */
  lemma BlankPortLine(h: Lead, g6: string)
    requires LeadShape(h) && Token(g6) && h.rest == "   " + g6
    ensures ParseLine(LeadJoined(h)) == Some(Neighbor(h.g1, h.g2, h.g3, DigitsValue(h.g4), " ", g6))
  {
    var line := LeadJoined(h);
    var t := (" ", " ", " ", g6);
    var p := PartsOf(h, t);
    BlankMatch(h, g6);
    LeadStrip(h);
    ParseLineOf(line, p);
    SpacePort();
  }

  lemma SpacePort()
    ensures Split(" ", ",") == [" "]
  {
    SplitNoChar(" ", ',');
  }

  lemma BlankMatch(h: Lead, g6: string)
    requires LeadShape(h) && Token(g6) && h.rest == "   " + g6
    ensures MatchLine(LeadJoined(h)) == Some(PartsOf(h, (" ", " ", " ", g6)))
  {
    LeadComplete(LeadJoined(h), h);
    BlankTail(g6);
    MatchOf(LeadJoined(h), h, (" ", " ", " ", g6));
  }

  /** A line whose groups end with a word is its own `strip()`. */
  lemma LeadStrip(h: Lead)
    requires LeadShape(h) && h.rest != [] && NotSpace(h.rest[|h.rest| - 1])
    ensures Strip(LeadJoined(h)) == LeadJoined(h)
  {
    var line := LeadJoined(h);
    assert line[0] == h.g1[0];
    assert line[|line| - 1] == h.rest[|h.rest| - 1];
    StripKeep(line);
  }

  /** A text that starts and ends with a non-space is its own `strip()`. */
  lemma StripKeep(s: string)
    requires s != [] && NotSpace(s[0]) && NotSpace(s[|s| - 1])
    ensures Strip(s) == s
  {
  }

  lemma ParseLineOf(line: string, p: Parts)
    requires Strip(line) == line && MatchLine(line) == Some(p)
    ensures ParseLine(line) == Some(NeighborOf(p))
  {
  }

  lemma BlankTail(g6: string)
    requires Token(g6)
    ensures Tail("   " + g6) == Some((" ", " ", " ", g6))
  {
    var w := "   ";
    assert Run(w);
    TailAt(w, g6);
    assert [] + g6 == g6;
    LastWordAt(w, [], g6);
    MiddleEmpty(w, g6);
    assert LastNonNewline(w, 1) == Some(1);
    assert w[..1] == " " && w[2..] == " ";
  }

  // ===========================================================================
  // Results per device
  // ===========================================================================

  /** What was collected for one device (`LLDPResult`). */
  datatype Outcome = Outcome(device: string, neighbors: seq<Neighbor>, error: Option<string>)

  /** Python truthiness of the optional error: `None` and `""` both count as no error. */
  predicate Failed(o: Outcome) {
    o.error.Some? && o.error.value != ""
  }

  function NeighborDict(n: Neighbor): (r: Json)
    ensures r.Obj? && Wf(r.fields)
  {
    Obj([("local_port", Str(n.localPort)), ("scope", Str(n.scope)), ("remote_chassis_id", Str(n.remoteChassisId)),
         ("index", Int(n.index)), ("remote_port", Str(n.remotePort)), ("remote_system_name", Str(n.remoteSystemName))])
  }

  /** Reads a neighbour back from its dict. */
  function NeighborFromDict(j: Json): (r: Option<Neighbor>)
  {
    if !j.Obj? then None
    else
      var fs := j.fields;
      var a := GetOr(fs, "local_port", Null);
      var b := GetOr(fs, "scope", Null);
      var c := GetOr(fs, "remote_chassis_id", Null);
      var i := GetOr(fs, "index", Null);
      var d := GetOr(fs, "remote_port", Null);
      var e := GetOr(fs, "remote_system_name", Null);
      if a.Str? && b.Str? && c.Str? && i.Int? && i.i >= 0 && d.Str? && e.Str?
      then Some(Neighbor(a.s, b.s, c.s, i.i, d.s, e.s))
      else None
  }

  lemma NeighborDictRoundTrip(n: Neighbor)
    ensures NeighborFromDict(NeighborDict(n)) == Some(n)
  {
    var fs := NeighborDict(n).fields;
    NeighborGet(n, 0);
    NeighborGet(n, 1);
    NeighborGet(n, 2);
    NeighborGet(n, 3);
    NeighborGet(n, 4);
    NeighborGet(n, 5);
  }

  lemma NeighborGet(n: Neighbor, i: nat)
    requires i < 6
    ensures var fs := NeighborDict(n).fields; GetOr(fs, fs[i].0, Null) == fs[i].1
  {
    GetFirst(NeighborDict(n).fields, i);
  }

  /** `LLDPResult.to_dict`: the error alone when there is one, else the count and the neighbour list. */
  function OutcomeDict(o: Outcome): (r: Json)
    ensures r.Obj? && Wf(r.fields)
    ensures Get(r.fields, "device") == Some(Str(o.device))
    ensures Get(r.fields, "error").Some? <==> Failed(o)
    ensures !Failed(o) ==> Get(r.fields, "neighbor_count") == Some(Int(|o.neighbors|))
  {
    var fs := if Failed(o) then [("device", Str(o.device)), ("error", Str(o.error.value))]
              else [("device", Str(o.device)), ("neighbor_count", Int(|o.neighbors|)),
                    ("neighbors", Arr(seq(|o.neighbors|, i requires 0 <= i < |o.neighbors| => NeighborDict(o.neighbors[i]))))];
    GetFirst(fs, 0);
    GetFirst(fs, 1);
    Obj(fs)
  }

  /** Every neighbour of a device without error can be read back from its dict, in order. */
  lemma OutcomeNeighbors(o: Outcome, i: nat)
    requires !Failed(o) && i < |o.neighbors|
    ensures var ns := Get(OutcomeDict(o).fields, "neighbors");
      ns.Some? && ns.value.Arr? && |ns.value.items| == |o.neighbors| &&
      NeighborFromDict(ns.value.items[i]) == Some(o.neighbors[i])
  {
    var fs := OutcomeDict(o).fields;
    GetFirst(fs, 2);
    NeighborDictRoundTrip(o.neighbors[i]);
  }

  // ---------------------------------------------------------------------------
  // The topology dict
  // ---------------------------------------------------------------------------

  /** One neighbour as the topology shows it, under its local port. */
  function LinkEntry(n: Neighbor): Json {
    Obj([("remote_device", Str(n.remoteSystemName)), ("remote_port", Str(n.remotePort)),
         ("chassis_id", Str(n.remoteChassisId))])
  }

  function Ports(ns: seq<Neighbor>): seq<string> {
    seq(|ns|, i requires 0 <= i < |ns| => ns[i].localPort)
  }

  function Links(ns: seq<Neighbor>): seq<Json> {
    seq(|ns|, i requires 0 <= i < |ns| => LinkEntry(ns[i]))
  }

  /** A device's entry: its error, or its neighbours keyed by local port (a later neighbour on a port replaces an earlier one). */
  function DeviceEntry(o: Outcome): Json {
    if Failed(o) then Obj([("error", Str(o.error.value))])
    else Obj([("neighbors", Obj(Assign(Ports(o.neighbors), Links(o.neighbors))))])
  }

  function Devices(os: seq<Outcome>): seq<string> {
    seq(|os|, i requires 0 <= i < |os| => os[i].device)
  }

  function Entries(os: seq<Outcome>): seq<Json> {
    seq(|os|, i requires 0 <= i < |os| => DeviceEntry(os[i]))
  }

  /** `to_topology_dict`: one entry per device name, in first-seen order. */
  function Topology(os: seq<Outcome>): (r: Fields)
    ensures Wf(r) && Keys(r) == KeySet(Devices(os))
  {
    Assign(Devices(os), Entries(os))
  }

  /** A device reported more than once keeps its last result. */
  lemma TopologyLastWins(os: seq<Outcome>, j: nat)
    requires j < |os| && LastOf(Devices(os), j)
    ensures Get(Topology(os), os[j].device) == Some(DeviceEntry(os[j]))
  {
    AssignLast(Devices(os), Entries(os), j);
  }

  /**
   Under a device without error, each local port shows the last neighbour
   seen on it; every port that had a neighbour is present.
   */
  lemma TopologyPort(o: Outcome, j: nat)
    requires !Failed(o) && j < |o.neighbors| && LastOf(Ports(o.neighbors), j)
    ensures var t := Assign(Ports(o.neighbors), Links(o.neighbors));
      Keys(t) == KeySet(Ports(o.neighbors)) &&
      Get(t, o.neighbors[j].localPort) == Some(LinkEntry(o.neighbors[j]))
  {
    AssignLast(Ports(o.neighbors), Links(o.neighbors), j);
  }
}
