/**
 The handful of Python `str` operations the scripts rely on, over `seq<char>`:
 `split(sep)`, `split()`, `strip()`, `lstrip(c)`, `replace`, `in`, `startswith`,
 `lower()` / `upper()` (ASCII letters only), `str(int)` and `int(str)`.
 */
module Text {
  import opened Json

  /** The ASCII whitespace that `str.strip()`, `str.split()` and regex `\s` agree on. */
  predicate IsSpace(c: char) {
    c == ' ' || c == '\t' || c == '\n' || c == '\r' || c as int == 11 || c as int == 12
  }

  predicate IsDigit(c: char) {
    '0' <= c <= '9'
  }

  predicate IsUpperLetter(c: char) {
    'A' <= c <= 'Z'
  }

  predicate IsLowerLetter(c: char) {
    'a' <= c <= 'z'
  }

  /** Regex `\w` on ASCII text. */
  predicate IsWordChar(c: char) {
    IsDigit(c) || IsUpperLetter(c) || IsLowerLetter(c) || c == '_'
  }

  predicate AllDigits(s: string) {
    forall i | 0 <= i < |s| :: IsDigit(s[i])
  }

  predicate NoSpace(s: string) {
    forall i | 0 <= i < |s| :: !IsSpace(s[i])
  }

  // ---------------------------------------------------------------------------
  // Substrings
  // ---------------------------------------------------------------------------

  predicate StartsWith(s: string, p: string) {
    |p| <= |s| && s[..|p|] == p
  }

  predicate EndsWith(s: string, p: string) {
    |p| <= |s| && s[|s| - |p|..] == p
  }

  predicate OccursAt(s: string, sub: string, j: int) {
    0 <= j && j + |sub| <= |s| && s[j..j + |sub|] == sub
  }

  /** The first position at or after `from` where `sub` occurs. */
  function IndexFrom(s: string, sub: string, from: nat): (r: Option<nat>)
    ensures r.Some? ==> from <= r.value && OccursAt(s, sub, r.value)
    ensures r.Some? ==> forall j | from <= j < r.value :: !OccursAt(s, sub, j)
    ensures r.None? ==> forall j | from <= j :: !OccursAt(s, sub, j)
    decreases |s| - from
  {
    if from + |sub| > |s| then None
    else if s[from..from + |sub|] == sub then Some(from)
    else IndexFrom(s, sub, from + 1)
  }

  function IndexOf(s: string, sub: string): (r: Option<nat>)
    ensures r.Some? ==> OccursAt(s, sub, r.value)
    ensures r.Some? ==> forall j | 0 <= j < r.value :: !OccursAt(s, sub, j)
    ensures r.None? ==> forall j :: !OccursAt(s, sub, j)
  {
    IndexFrom(s, sub, 0)
  }

  /** Python `sub in s`. */
  predicate Contains(s: string, sub: string) {
    IndexOf(s, sub).Some?
  }

  lemma ContainsIff(s: string, sub: string)
    ensures Contains(s, sub) <==> exists j :: OccursAt(s, sub, j)
  {
  }

  /** Python `sub in x`: substring test on a string, membership on a list, key test on a dict. */
  function PyIn(sub: string, x: Json): (r: Result<bool>)
    ensures r.Ok? <==> (x.Str? || x.Arr? || x.Obj?)
    ensures x.Str? ==> r == Ok(Contains(x.s, sub))
    ensures x.Obj? ==> r == Ok(sub in Keys(x.fields))
  {
    match x
    case Str(s) => Ok(Contains(s, sub))
    case Arr(items) => Ok(Str(sub) in items)
    case Obj(fields) => Ok(Get(fields, sub).Some?)
    case _ => Err("TypeError")
  }

  // ---------------------------------------------------------------------------
  // split(sep) and its inverse join
  // ---------------------------------------------------------------------------

  function Join(sep: string, parts: seq<string>): string {
    if parts == [] then ""
    else if |parts| == 1 then parts[0]
    else parts[0] + sep + Join(sep, parts[1..])
  }

  /** An occurrence inside a piece is an occurrence in any text the piece sits in. */
  lemma OccursWithin(pre: string, s: string, post: string, sub: string, j: int)
    requires OccursAt(s, sub, j)
    ensures OccursAt(pre + s + post, sub, |pre| + j)
  {
    var t := pre + s + post;
    assert t[|pre| + j..|pre| + j + |sub|] == s[j..j + |sub|];
  }

  /** An occurrence of an occurrence is an occurrence. */
  lemma OccursTrans(s: string, mid: string, sub: string, j: int, k: int)
    requires OccursAt(s, mid, j) && OccursAt(mid, sub, k)
    ensures OccursAt(s, sub, j + k)
  {
    forall t | 0 <= t < |sub| ensures s[j + k + t] == sub[t] {
      assert mid[k + t] == mid[k..k + |sub|][t];
      assert s[j + (k + t)] == s[j..j + |mid|][k + t];
    }
    assert s[j + k..j + k + |sub|] == sub;
  }

  /** Every part of a join occurs in it. */
  lemma {:induction false} JoinHasPart(sep: string, parts: seq<string>, i: nat)
    requires i < |parts|
    ensures exists j :: OccursAt(Join(sep, parts), parts[i], j)
    decreases |parts|
  {
    if |parts| == 1 {
      assert Join(sep, parts) == parts[i] == parts[i][0..|parts[i]|];
      assert OccursAt(Join(sep, parts), parts[i], 0);
    } else if i == 0 {
      var rest := sep + Join(sep, parts[1..]);
      assert OccursAt(parts[0], parts[0], 0);
      OccursWithin("", parts[0], rest, parts[0], 0);
      assert "" + parts[0] + rest == Join(sep, parts);
    } else {
      var tail := Join(sep, parts[1..]);
      JoinHasPart(sep, parts[1..], i - 1);
      var j :| OccursAt(tail, parts[1..][i - 1], j);
      OccursWithin(parts[0] + sep, tail, "", parts[i], j);
      assert (parts[0] + sep) + tail + "" == Join(sep, parts);
    }
  }

  /** Whatever occurs in a part of a join occurs in any text the join sits in. */
  lemma JoinedOccurs(head: string, sep: string, parts: seq<string>, tail: string, p: nat, sub: string, k: int)
    requires p < |parts| && OccursAt(parts[p], sub, k)
    ensures Contains(head + Join(sep, parts) + tail, sub)
  {
    var body := Join(sep, parts);
    JoinHasPart(sep, parts, p);
    var j :| OccursAt(body, parts[p], j);
    OccursTrans(body, parts[p], sub, j, k);
    OccursWithin(head, body, tail, sub, j + k);
    ContainsIff(head + body + tail, sub);
  }

  /** Python `s.split(sep)` with a non-empty separator: never empty, and joining the parts back gives `s`. */
  function Split(s: string, sep: string): (parts: seq<string>)
    requires sep != []
    ensures |parts| >= 1
    ensures Join(sep, parts) == s
    ensures forall i | 0 <= i < |parts| :: !Contains(parts[i], sep)
    ensures Contains(s, sep) <==> |parts| >= 2
    decreases |s|
  {
    match IndexOf(s, sep)
    case None => [s]
    case Some(i) =>
      var head := s[..i];
      var rest := Split(s[i + |sep|..], sep);
      assert !Contains(head, sep) by {
        forall j | OccursAt(head, sep, j) ensures false {
          assert s[j..j + |sep|] == head[j..j + |sep|];
          assert OccursAt(s, sep, j);
        }
      }
      assert s == head + sep + s[i + |sep|..];
      [head] + rest
  }

  /** When a split yields two or more parts, the text is the first part, the separator, the second part and the rest. */
  lemma SplitTwo(s: string, sep: string)
    requires sep != [] && |Split(s, sep)| >= 2
    ensures var parts := Split(s, sep);
      s == parts[0] + sep + parts[1] + (if |parts| > 2 then sep + Join(sep, parts[2..]) else "")
  {
    JoinTwo(sep, Split(s, sep));
  }

  lemma JoinTwo(sep: string, parts: seq<string>)
    requires |parts| >= 2
    ensures Join(sep, parts) == parts[0] + sep + parts[1] + (if |parts| > 2 then sep + Join(sep, parts[2..]) else "")
  {
    assert parts[1..][1..] == parts[2..];
  }

  /** The first part of a split is exactly the text before the first separator. */
  lemma {:induction false} SplitFirst(s: string, sep: string)
    requires sep != []
    ensures IndexOf(s, sep).None? ==> Split(s, sep) == [s]
    ensures IndexOf(s, sep).Some? ==> Split(s, sep)[0] == s[..IndexOf(s, sep).value]
    ensures IndexOf(s, sep).Some? ==> Split(s, sep)[1..] == Split(s[IndexOf(s, sep).value + |sep|..], sep)
  {
  }

  /** Splitting on one character that `x` does not contain: `x` is the first part. */
  lemma SplitAtChar(x: string, c: char, y: string)
    requires c !in x
    ensures Split(x + [c] + y, [c]) == [x] + Split(y, [c])
  {
    var s := x + [c] + y;
    assert OccursAt(s, [c], |x|);
    var i := IndexOf(s, [c]);
    forall j | 0 <= j < |x| ensures !OccursAt(s, [c], j) {
      assert s[j..j + 1] == [x[j]];
    }
    assert i == Some(|x|);
    assert s[..|x|] == x;
    assert s[|x| + 1..] == y;
  }

  lemma SplitNoChar(x: string, c: char)
    requires c !in x
    ensures Split(x, [c]) == [x]
  {
  }

  lemma JoinCons(sep: string, x: string, rest: seq<string>)
    requires rest != []
    ensures Join(sep, [x] + rest) == x + sep + Join(sep, rest)
  {
    assert ([x] + rest)[1..] == rest;
  }

  /** Joining two non-empty lists is joining each and putting the separator between. */
  lemma {:induction false} JoinAppend(sep: string, a: seq<string>, b: seq<string>)
    requires a != [] && b != []
    ensures Join(sep, a + b) == Join(sep, a) + sep + Join(sep, b)
    decreases |a|
  {
    if |a| == 1 {
      JoinCons(sep, a[0], b);
      assert a + b == [a[0]] + b;
    } else {
      JoinAppend(sep, a[1..], b);
      assert a + b == [a[0]] + (a[1..] + b);
      JoinCons(sep, a[0], a[1..] + b);
      JoinCons(sep, a[0], a[1..]);
      assert a == [a[0]] + a[1..];
    }
  }

  /** A joined run put in front of more parts joins like the run's own parts. */
  lemma JoinFront(sep: string, mid: seq<string>, tail: seq<string>)
    requires mid != []
    ensures Join(sep, [Join(sep, mid)] + tail) == Join(sep, mid + tail)
  {
    if tail == [] {
      assert [Join(sep, mid)] + tail == [Join(sep, mid)];
      assert mid + tail == mid;
    } else {
      JoinAppend(sep, [Join(sep, mid)], tail);
      JoinAppend(sep, mid, tail);
    }
  }

  /** A joined run spliced in place of its parts joins to the same text. */
  lemma JoinFlatten(sep: string, head: seq<string>, mid: seq<string>, tail: seq<string>)
    requires mid != []
    ensures Join(sep, head + ([Join(sep, mid)] + tail)) == Join(sep, head + (mid + tail))
  {
    JoinFront(sep, mid, tail);
    if head != [] {
      JoinAppend(sep, head, [Join(sep, mid)] + tail);
      JoinAppend(sep, head, mid + tail);
    } else {
      assert head + ([Join(sep, mid)] + tail) == [Join(sep, mid)] + tail;
      assert head + (mid + tail) == mid + tail;
    }
  }

  /** A join starts with the first character of its first part. */
  lemma JoinFirstChar(sep: string, parts: seq<string>)
    requires parts != [] && parts[0] != []
    ensures Join(sep, parts) != [] && Join(sep, parts)[0] == parts[0][0]
  {
  }

  /** A join ends with the last character of its last part. */
  lemma {:induction false} JoinLastChar(sep: string, parts: seq<string>)
    requires parts != [] && parts[|parts| - 1] != []
    ensures var j := Join(sep, parts); var l := parts[|parts| - 1];
      j != [] && j[|j| - 1] == l[|l| - 1]
    decreases |parts|
  {
    if |parts| > 1 {
      JoinLastChar(sep, parts[1..]);
    }
  }

  /** Splitting on one character undoes joining with it, when no part contains that character. */
  lemma {:induction false} SplitJoin(parts: seq<string>, c: char)
    requires parts != []
    requires forall i | 0 <= i < |parts| :: c !in parts[i]
    ensures Split(Join([c], parts), [c]) == parts
    decreases |parts|
  {
    if |parts| == 1 {
      SplitNoChar(parts[0], c);
    } else {
      SplitJoin(parts[1..], c);
      SplitAtChar(parts[0], c, Join([c], parts[1..]));
      assert Join([c], parts) == parts[0] + [c] + Join([c], parts[1..]);
    }
  }

  /** The text before the first `sep`, or all of `s` when there is none (`s.partition(sep)[0]`). */
  function Before(s: string, sep: string): (r: string)
    requires sep != []
    ensures StartsWith(s, r) && !Contains(r, sep)
    ensures !Contains(s, sep) ==> r == s
  {
    match IndexOf(s, sep)
    case None => s
    case Some(i) =>
      assert !Contains(s[..i], sep) by {
        forall j | OccursAt(s[..i], sep, j) ensures false {
          assert s[j..j + |sep|] == s[..i][j..j + |sep|];
          assert OccursAt(s, sep, j);
        }
      }
      s[..i]
  }

  /** The text after the first `sep` (`s.partition(sep)[2]`). */
  function After(s: string, sep: string): (r: string)
    requires sep != [] && Contains(s, sep)
    ensures s == Before(s, sep) + sep + r
  {
    var i := IndexOf(s, sep).value;
    assert s == s[..i] + sep + s[i + |sep|..];
    s[i + |sep|..]
  }

  /** The first part of `split` is the text before the first separator, the second the text up to the next one. */
  lemma SplitBeforeAfter(s: string, sep: string)
    requires sep != []
    ensures Split(s, sep)[0] == Before(s, sep)
    ensures Contains(s, sep) ==> Split(s, sep)[1] == Before(After(s, sep), sep)
  {
    SplitFirst(s, sep);
    if Contains(s, sep) {
      SplitFirst(After(s, sep), sep);
    }
  }

  // ---------------------------------------------------------------------------
  // Whitespace: strip() and split()
  // ---------------------------------------------------------------------------

  function TrimLeft(s: string): (r: string)
    ensures |r| <= |s| && r == s[|s| - |r|..]
    ensures forall i | 0 <= i < |s| - |r| :: IsSpace(s[i])
    ensures r == [] || !IsSpace(r[0])
  {
    if s == [] || !IsSpace(s[0]) then s else TrimLeft(s[1..])
  }

  function TrimRight(s: string): (r: string)
    ensures |r| <= |s| && r == s[..|r|]
    ensures forall i | |r| <= i < |s| :: IsSpace(s[i])
    ensures r == [] || !IsSpace(r[|r| - 1])
  {
    if s == [] || !IsSpace(s[|s| - 1]) then s else TrimRight(s[..|s| - 1])
  }

  /** Python `s.strip()`. */
  function Strip(s: string): (r: string)
    ensures r == [] || (!IsSpace(r[0]) && !IsSpace(r[|r| - 1]))
    ensures exists a :: Stripped(s, r, a)
  {
    StripAt(s);
    TrimRight(TrimLeft(s))
  }

  /** The stripped text sits where the leading whitespace ends. */
  lemma StripAt(s: string)
    ensures Stripped(s, TrimRight(TrimLeft(s)), |s| - |TrimLeft(s)|)
  {
    var t := TrimLeft(s);
    TrimmedAt(s, t, TrimRight(t));
  }

  lemma TrimmedAt(s: string, t: string, r: string)
    requires |t| <= |s| && t == s[|s| - |t|..] && |r| <= |t| && r == t[..|r|]
    requires forall i | |r| <= i < |t| :: IsSpace(t[i])
    ensures OccursAt(s, r, |s| - |t|)
    ensures forall k | |s| - |t| + |r| <= k < |s| :: IsSpace(s[k])
  {
    var a := |s| - |t|;
    assert s[a..a + |r|] == t[..|r|];
    forall k | a + |r| <= k < |s| ensures IsSpace(s[k]) {
      assert s[k] == t[k - a];
    }
  }

  /** `r` sits at `a` in `s`, and everything before and after it is whitespace. */
  predicate Stripped(s: string, r: string, a: int) {
    && OccursAt(s, r, a)
    && (forall k | 0 <= k < a :: IsSpace(s[k]))
    && (forall k | a + |r| <= k < |s| :: IsSpace(s[k]))
  }

  /** The end of the run of non-space characters that starts at `i`. */
  function TokenEnd(s: string, i: nat): (e: nat)
    requires i < |s| && !IsSpace(s[i])
    ensures i < e <= |s|
    ensures NoSpace(s[i..e])
    ensures e == |s| || IsSpace(s[e])
    decreases |s| - i
  {
    if i + 1 == |s| || IsSpace(s[i + 1]) then i + 1
    else
      var e := TokenEnd(s, i + 1);
      assert s[i..e] == [s[i]] + s[i + 1..e];
      e
  }

  /** The [start, end) positions of the whitespace-separated fields of `s` from position `i` on. */
  function Spans(s: string, i: nat): (sp: seq<(nat, nat)>)
    requires i <= |s|
    ensures forall k | 0 <= k < |sp| :: i <= sp[k].0 < sp[k].1 <= |s| && NoSpace(s[sp[k].0..sp[k].1])
    ensures forall k | 0 <= k < |sp| - 1 :: sp[k].1 < sp[k + 1].0
    decreases |s| - i
  {
    if i == |s| then []
    else if IsSpace(s[i]) then Spans(s, i + 1)
    else
      var e := TokenEnd(s, i);
      [(i, e)] + Spans(s, e)
  }

  /** Python `s.split()`: the whitespace-separated fields, in order. */
  function SplitWs(s: string): (fields: seq<string>)
    ensures |fields| == |Spans(s, 0)|
    ensures forall k | 0 <= k < |fields| :: fields[k] != [] && NoSpace(fields[k])
  {
    var sp := Spans(s, 0);
    seq(|sp|, k requires 0 <= k < |sp| => s[sp[k].0..sp[k].1])
  }

  // ---------------------------------------------------------------------------
  // Character-wise rewrites
  // ---------------------------------------------------------------------------

  /** Python `s.replace(c, rep)` for a one-character pattern. */
  function ReplaceChar(s: string, c: char, rep: string): (r: string)
    ensures c !in rep ==> c !in r
    ensures c !in s ==> r == s
  {
    if s == [] then []
    else (if s[0] == c then rep else [s[0]]) + ReplaceChar(s[1..], c, rep)
  }

  /** Python `s.lstrip(c)` for one character. */
  function LStripChar(s: string, c: char): (r: string)
    ensures |r| <= |s| && r == s[|s| - |r|..]
    ensures forall i | 0 <= i < |s| - |r| :: s[i] == c
    ensures r == [] || r[0] != c
  {
    if s != [] && s[0] == c then
      var r := LStripChar(s[1..], c);
      assert r == s[|s| - |r|..];
      assert forall i | 1 <= i < |s| - |r| :: s[i] == s[1..][i - 1];
      r
    else s
  }

  /** One leading `c` in front of text that does not start with `c` is all that is stripped. */
  lemma LStripCharOnce(c: char, x: string)
    requires x == [] || x[0] != c
    ensures LStripChar([c] + x, c) == x
  {
    assert ([c] + x)[1..] == x;
  }

  function LowerChar(c: char): char {
    if IsUpperLetter(c) then (c as int + 32) as char else c
  }

  function UpperChar(c: char): char {
    if IsLowerLetter(c) then (c as int - 32) as char else c
  }

  /** Python `s.lower()` on ASCII letters. */
  function Lower(s: string): (r: string)
    ensures |r| == |s|
    ensures forall i | 0 <= i < |s| :: r[i] == LowerChar(s[i])
  {
    seq(|s|, i requires 0 <= i < |s| => LowerChar(s[i]))
  }

  /** Python `s.upper()` on ASCII letters. */
  function Upper(s: string): (r: string)
    ensures |r| == |s|
    ensures forall i | 0 <= i < |s| :: r[i] == UpperChar(s[i])
  {
    seq(|s|, i requires 0 <= i < |s| => UpperChar(s[i]))
  }

  // ---------------------------------------------------------------------------
  // Integers: str(n) and int(s)
  // ---------------------------------------------------------------------------

  function DigitChar(d: nat): char
    requires d < 10
  {
    ('0' as int + d) as char
  }

  function DigitValue(c: char): nat
    requires IsDigit(c)
  {
    c as int - '0' as int
  }

  /** Python `str(n)` for n >= 0: decimal digits, no leading zero. */
  function NatToString(n: nat): (s: string)
    ensures s != [] && AllDigits(s)
    ensures |s| > 1 ==> s[0] != '0'
  {
    if n < 10 then [DigitChar(n)]
    else
      var p := NatToString(n / 10);
      p + [DigitChar(n % 10)]
  }

  /** Python `str(i)`. */
  function IntToString(i: int): string {
    if i < 0 then "-" + NatToString(-i) else NatToString(i)
  }

  lemma IntToStringChars(i: int)
    ensures forall k | 0 <= k < |IntToString(i)| :: IsDigit(IntToString(i)[k]) || IntToString(i)[k] == '-'
  {
  }

  /** The value of a non-empty run of decimal digits. */
  function DigitsValue(s: string): nat
    requires s != [] && AllDigits(s)
  {
    if |s| == 1 then DigitValue(s[0])
    else DigitsValue(s[..|s| - 1]) * 10 + DigitValue(s[|s| - 1])
  }

  lemma {:induction false} DigitsOfNat(n: nat)
    ensures DigitsValue(NatToString(n)) == n
  {
    if n >= 10 {
      var p := NatToString(n / 10);
      var s := p + [DigitChar(n % 10)];
      assert s[..|s| - 1] == p;
      DigitsOfNat(n / 10);
    }
  }

  /**
   Python `int(s)` on a string: surrounding whitespace, an optional sign and
   ASCII digits; anything else raises ValueError (here: None).
   */
  function ParseInt(s: string): (r: Option<int>)
    ensures r.Some? ==> Strip(s) != []
  {
    ParseSigned(Strip(s))
  }

  /** An optional sign followed by at least one ASCII digit. */
  function ParseSigned(t: string): (r: Option<int>)
    ensures r.Some? ==> t != []
  {
    if t == [] then None
    else
      var neg := t[0] == '-';
      var body := if t[0] == '-' || t[0] == '+' then t[1..] else t;
      if body == [] || !AllDigits(body) then None
      else Some(if neg then -(DigitsValue(body) as int) else DigitsValue(body))
  }

  lemma NatToStringNoSpace(n: nat)
    ensures NoSpace(NatToString(n))
    ensures NatToString(n)[0] != '-' && NatToString(n)[0] != '+'
  {
  }

  /** Text that starts and ends with a non-space is its own strip. */
  lemma StripNoSpace(s: string)
    requires s != [] && !IsSpace(s[0]) && !IsSpace(s[|s| - 1])
    ensures Strip(s) == s
  {
    assert TrimLeft(s) == s;
    assert TrimRight(s) == s;
  }

  lemma ParseSignedDigits(t: string)
    requires t != [] && AllDigits(t)
    ensures ParseSigned(t) == Some(DigitsValue(t))
  {
  }

  lemma ParseSignedNegDigits(t: string)
    requires t != [] && AllDigits(t)
    ensures ParseSigned("-" + t) == Some(-(DigitsValue(t) as int))
  {
    assert ("-" + t)[1..] == t;
  }

  /** `int(str(i)) == i`. */
  lemma ParseIntOfString(i: int)
    ensures ParseInt(IntToString(i)) == Some(i)
  {
    if i < 0 {
      ParseIntOfNeg(i);
    } else {
      ParseIntOfNat(i);
    }
  }

  lemma ParseIntOfNat(i: int)
    requires i >= 0
    ensures ParseInt(IntToString(i)) == Some(i)
  {
    var t := NatToString(i);
    assert IntToString(i) == t;
    NatToStringNoSpace(i);
    StripNoSpace(t);
    ParseSignedDigits(t);
    DigitsOfNat(i);
  }

  lemma ParseIntOfNeg(i: int)
    requires i < 0
    ensures ParseInt(IntToString(i)) == Some(i)
  {
    var n: nat := -i;
    var t := NatToString(n);
    DigitsOfNat(n);
    ParseIntNegValue(IntToString(i), t, n);
  }

  lemma ParseIntNegValue(s: string, t: string, n: nat)
    requires t != [] && AllDigits(t) && DigitsValue(t) == n && s == "-" + t
    ensures ParseInt(s) == Some(-(n as int))
  {
    ParseIntNegDigits(t);
  }

  /** A minus sign followed by digits parses as the negated digits. */
  lemma ParseIntNegDigits(t: string)
    requires t != [] && AllDigits(t)
    ensures ParseInt("-" + t) == Some(-(DigitsValue(t) as int))
  {
    var s := "-" + t;
    assert !IsSpace(s[0]);
    assert s[|s| - 1] == t[|t| - 1];
    StripNoSpace(s);
    ParseSignedNegDigits(t);
  }

  /** Python truncation of a real toward zero, as `int(x)` does for a float. */
  function Trunc(r: real): (n: int)
    ensures r >= 0.0 ==> n as real <= r < n as real + 1.0
    ensures r < 0.0 ==> n as real - 1.0 < r <= n as real
  {
    if r >= 0.0 then r.Floor else -((-r).Floor)
  }

  /**
   Python `int(x)` on a JSON value: integers as they are, booleans as 0/1,
   floats truncated, strings parsed; None, lists and dicts raise TypeError and
   a string that is not an integer raises ValueError.
   */
  function PyInt(x: Json): (r: Result<int>)
    ensures x.Int? ==> r == Ok(x.i)
    ensures x.Str? ==> (r.Ok? <==> ParseInt(x.s).Some?)
    ensures x.Str? && r.Ok? ==> ParseInt(x.s) == Some(r.value)
    ensures (x.Null? || x.Arr? || x.Obj?) ==> r.Err?
  {
    match x
    case Int(i) => Ok(i)
    case Bool(b) => Ok(if b then 1 else 0)
    case Float(f) => Ok(Trunc(f))
    case Str(s) => (match ParseInt(s) case Some(n) => Ok(n) case None => Err("ValueError"))
    case _ => Err("TypeError")
  }

  /**
   Python `str(x)` on a JSON value. Floats, lists and dicts
   print through Python's `repr`, which is not modelled and is a parameter.
   */
  function PyStr(x: Json, repr: Json -> string): (r: string)
    ensures x.Str? ==> r == x.s
    ensures x.Int? ==> ParseInt(r) == Some(x.i)
  {
    match x
    case Null => "None"
    case Bool(b) => if b then "True" else "False"
    case Int(i) => ParseIntOfString(i); IntToString(i)
    case Str(s) => s
    case _ => repr(x)
  }
}
